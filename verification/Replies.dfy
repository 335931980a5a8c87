/** How a handler's checks decide its reply, and the digests a request may carry. */
module Replies {
  import opened Uploads

  /** One check of a handler and the status it answers with when the check fails. */
  datatype Guard = Guard(holds: bool, code: int)

  /** The first check that fails decides the status; the request goes through exactly if none fails. */
  predicate Answers(reply: Reply, guards: seq<Guard>) {
    if reply == Done then forall i :: 0 <= i < |guards| ==> guards[i].holds
    else exists k :: 0 <= k < |guards| && FailsFirst(guards, k) && reply == Http(guards[k].code)
  }

  predicate FailsFirst(guards: seq<Guard>, k: nat)
    requires k < |guards|
  {
    !guards[k].holds && forall i :: 0 <= i < k ==> guards[i].holds
  }

  /** Checking one guard after the other. */
  function Checked(guards: seq<Guard>, k: nat): Reply
    requires k <= |guards|
    decreases |guards| - k
  {
    if k == |guards| then Done else if !guards[k].holds then Http(guards[k].code) else Checked(guards, k + 1)
  }

  lemma {:induction false} CheckedAnswers(guards: seq<Guard>, k: nat)
    requires k <= |guards| && forall i :: 0 <= i < k ==> guards[i].holds
    ensures Answers(Checked(guards, k), guards)
    decreases |guards| - k
  {
    if k < |guards| && guards[k].holds {
      CheckedAnswers(guards, k + 1);
    } else if k < |guards| {
      assert FailsFirst(guards, k);
    }
  }

  lemma InOrder(guards: seq<Guard>)
    ensures Answers(Checked(guards, 0), guards) && Checked(guards, |guards|) == Done
    ensures forall k {:trigger Checked(guards, k)} :: 0 <= k < |guards| ==>
              Checked(guards, k) == if guards[k].holds then Checked(guards, k + 1) else Http(guards[k].code)
  {
    CheckedAnswers(guards, 0);
    forall k | 0 <= k < |guards|
      ensures Checked(guards, k) == if guards[k].holds then Checked(guards, k + 1) else Http(guards[k].code)
    {
    }
  }

  predicate LowerHex(d: Digest) {
    |d| == 64 && forall i :: 0 <= i < 64 ==> d[i] in "0123456789abcdef"
  }

  lemma HexIsLower(d: Digest)
    ensures HexDigest(d) <==> LowerHex(d)
  {
    if |d| == 64 {
      forall i | 0 <= i < 64 ensures ('0' <= d[i] <= '9' || 'a' <= d[i] <= 'f') <==> d[i] in "0123456789abcdef" {
        HexChar(d[i]);
      }
    }
  }

  lemma HexChar(c: char)
    ensures ('0' <= c <= '9' || 'a' <= c <= 'f') <==> c in "0123456789abcdef"
  {
    var s := "0123456789abcdef";
    if '0' <= c <= '9' {
      assert s[c as int - '0' as int] == c;
    } else if 'a' <= c <= 'f' {
      assert s[c as int - 'a' as int + 10] == c;
    }
  }
}
