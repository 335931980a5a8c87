/** The string operations the handlers apply to identifiers, on ASCII text. */
module Text {
  predicate Blank(c: char) {
    c == ' ' || '\t' <= c <= '\r' || '\U{1c}' <= c <= '\U{1f}'
  }

  function Strip(s: string): string {
    if s != "" && Blank(s[0]) then Strip(s[1..])
    else if s != "" && Blank(s[|s| - 1]) then Strip(s[..|s| - 1])
    else s
  }

  /** What Python's str.strip takes for white space, of the ASCII characters. */
  const WHITE: string := [' ', '\t', '\n', '\U{b}', '\U{c}', '\r', '\U{1c}', '\U{1d}', '\U{1e}', '\U{1f}']

  /** Only blanks stand before i and from j on, and none at the ends of what is between. */
  predicate Core(s: string, i: nat, j: nat) {
    && i <= j <= |s|
    && (forall k :: 0 <= k < i ==> s[k] in WHITE) && (forall k :: j <= k < |s| ==> s[k] in WHITE)
    && (i < j ==> s[i] !in WHITE && s[j - 1] !in WHITE)
  }

  lemma BlankIsWhite(c: char)
    ensures Blank(c) <==> c in WHITE
  {
    var k := if c == ' ' then 0 else if c <= '\r' then c as int - 8 else c as int - 22;
    if Blank(c) {
      assert WHITE[k] == c;
    }
  }

  /** Stripping takes the blanks from both ends and nothing else. */
  lemma {:induction false} StripExactly(s: string, i: nat, j: nat)
    requires Core(s, i, j)
    ensures Strip(s) == s[i..j]
    decreases |s|
  {
    hide Blank;
    if s != "" {
      BlankIsWhite(s[0]);
      BlankIsWhite(s[|s| - 1]);
      if i > 0 {
        StripExactly(s[1..], i - 1, j - 1);
        assert s[1..][i - 1..j - 1] == s[i..j];
      } else if j < |s| {
        if Blank(s[0]) {
          assert j == 0;
          StripExactly(s[1..], 0, 0);
        } else {
          StripExactly(s[..|s| - 1], i, j);
          assert s[..|s| - 1][i..j] == s[i..j];
        }
      }
    }
  }

  function Lower(s: string): string {
    seq(|s|, i requires 0 <= i < |s| => if 'A' <= s[i] <= 'Z' then s[i] - 'A' + 'a' else s[i])
  }

  /** Lower-casing goes letter by letter, and only from A to Z. */
  lemma LowerExactly(s: string, k: nat)
    requires k < |s|
    ensures |Lower(s)| == |s|
    ensures s[k] in "ABCDEFGHIJKLMNOPQRSTUVWXYZ" ==> Lower(s)[k] as int == s[k] as int + 32
    ensures s[k] !in "ABCDEFGHIJKLMNOPQRSTUVWXYZ" ==> Lower(s)[k] == s[k]
  {
    var upper := "ABCDEFGHIJKLMNOPQRSTUVWXYZ";
    assert 'A' <= s[k] <= 'Z' ==> upper[s[k] as int - 65] == s[k];
  }
}
