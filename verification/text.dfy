/** Character-sequence helpers: prefixes, case-sensitive substring search,
    first occurrence of a character, and line joining. */
module Text {

  /** `pat` is a prefix of `s`. */
  predicate IsPrefix(pat: string, s: string) {
    |pat| <= |s| && s[..|pat|] == pat
  }

  /** `pat` occurs as a contiguous, case-sensitive substring of `s`
      (the meaning of Ruby's `String#include?`). */
  ghost predicate Occurs(pat: string, s: string) {
    exists i :: 0 <= i <= |s| && IsPrefix(pat, s[i..])
  }

  /** Executable substring test: tries the start positions of `s` from the left. */
  function Includes(s: string, pat: string): (r: bool)
    ensures r <==> Occurs(pat, s)
    decreases |s|
  {
    if IsPrefix(pat, s) then
      assert s[0..] == s;
      true
    else if |s| == 0 then
      false
    else
      assert forall i :: 1 <= i <= |s| ==> s[1..][i - 1..] == s[i..];
      assert Occurs(pat, s) ==> Occurs(pat, s[1..]) by {
        if Occurs(pat, s) {
          var i :| 0 <= i <= |s| && IsPrefix(pat, s[i..]);
          assert i != 0 by { assert s[0..] == s; }
          assert IsPrefix(pat, s[1..][i - 1..]);
        }
      }
      Includes(s[1..], pat)
  }

  /** Every character of an occurring pattern is a character of the text;
      the contrapositive rules a pattern out by one missing character. */
  lemma OccursHasChars(pat: string, s: string, c: char)
    requires Occurs(pat, s) && c in pat
    ensures c in s
  {
    var i :| 0 <= i <= |s| && IsPrefix(pat, s[i..]);
    var k :| 0 <= k < |pat| && pat[k] == c;
    assert s[i..][..|pat|][k] == s[i + k];
  }

  /** Position of the first `c` in `s`, or `|s|` when `c` does not occur. */
  function IndexOf(s: string, c: char): (k: nat)
    ensures k <= |s|
    ensures c !in s[..k]
    ensures k < |s| ==> s[k] == c
    decreases |s|
  {
    if |s| == 0 || s[0] == c then 0
    else
      var k := 1 + IndexOf(s[1..], c);
      assert s[..k] == [s[0]] + s[1..][..k - 1];
      k
  }

  /** The first `c` in `a + b` is the one that starts `b` when `a` has none. */
  lemma IndexOfAfter(a: string, b: string, c: char)
    requires c !in a
    requires |b| == 0 || b[0] == c
    ensures IndexOf(a + b, c) == |a|
  {
    var k := IndexOf(a + b, c);
    assert forall i :: 0 <= i < |a| ==> (a + b)[i] == a[i];
    assert |b| > 0 ==> (a + b)[|a|] == c;
    assert forall j :: |a| < j <= |a + b| ==> (a + b)[..j][|a|] == (a + b)[|a|];
  }

  /** The text of a file whose lines are `lines`, each ended by a newline. */
  function Unlines(lines: seq<string>): (s: string)
    decreases |lines|
  {
    if |lines| == 0 then "" else lines[0] + "\n" + Unlines(lines[1..])
  }
}
