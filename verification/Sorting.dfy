/** ORDER BY for finite sets of natural numbers. */
module Sorting {
  predicate Ascending(s: seq<nat>) {
    forall i, j :: 0 <= i < j < |s| ==> s[i] < s[j]
  }

  predicate IsLeast(x: nat, s: set<nat>) {
    x in s && forall y :: y in s ==> x <= y
  }

  lemma {:induction false} LeastOf(s: set<nat>) returns (x: nat)
    requires s != {}
    ensures IsLeast(x, s)
    decreases |s|
  {
    x :| x in s;
    var rest := s - {x};
    if rest != {} {
      var m := LeastOf(rest);
      LeastWith(s, x, m);
      x := if x <= m then x else m;
    } else {
      LeastAlone(s, x);
    }
  }

  lemma LeastWith(s: set<nat>, x: nat, m: nat)
    requires x in s && IsLeast(m, s - {x})
    ensures IsLeast(if x <= m then x else m, s)
  {
    forall y | y in s ensures (if x <= m then x else m) <= y {
      assert y == x || y in s - {x};
    }
  }

  lemma LeastAlone(s: set<nat>, x: nat)
    requires x in s && s - {x} == {}
    ensures IsLeast(x, s)
  {
    forall y | y in s ensures x <= y {
      assert y == x || y in s - {x};
    }
  }

  lemma HasLeast(s: set<nat>)
    requires s != {}
    ensures exists x :: IsLeast(x, s)
  {
    var x := LeastOf(s);
  }

  function Least(s: set<nat>): (x: nat)
    requires s != {}
    ensures IsLeast(x, s)
  {
    HasLeast(s);
    var x :| IsLeast(x, s);
    x
  }

  /** The elements of s, each once, in increasing order. */
  function Ordered(s: set<nat>): (r: seq<nat>)
    ensures Ascending(r)
    ensures |r| == |s|
    ensures forall x :: x in r <==> x in s
    decreases |s|
  {
    if s == {} then []
    else
      var x := Least(s);
      [x] + Ordered(s - {x})
  }

  ghost function Members(s: seq<nat>): set<nat> {
    set x | x in s
  }

  lemma MembersSnoc(r: seq<nat>, x: nat)
    ensures Members(r + [x]) == Members(r) + {x}
  {
  }

  lemma {:induction false} AscendingSize(s: seq<nat>)
    requires Ascending(s)
    ensures |Members(s)| == |s|
  {
    if s != [] {
      var r, last := s[..|s| - 1], s[|s| - 1];
      assert s == r + [last];
      assert last !in Members(r) by {
        assert forall i :: 0 <= i < |r| ==> r[i] < last;
      }
      hide Members;
      AscendingSize(r);
      MembersSnoc(r, last);
    } else {
      assert Members(s) == {};
    }
  }
}
