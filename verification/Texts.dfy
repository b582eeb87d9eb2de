/** Trimming and lower case, as the program applies them to names and paths. */
module Texts {

  predicate IsSpace(c: char) {
    || '\U{9}' <= c <= '\U{d}' || c == ' ' || c == '\U{85}' || c == '\U{a0}' || c == '\U{1680}'
    || '\U{2000}' <= c <= '\U{200a}' || c == '\U{2028}' || c == '\U{2029}' || c == '\U{202f}'
    || c == '\U{205f}' || c == '\U{3000}'
  }

  /** The 25 characters with the Unicode property White_Space. */
  lemma SpacesAre(c: char)
    ensures IsSpace(c) <==>
      c in "\t\n\U{b}\U{c}\r \U{85}\U{a0}\U{1680}\U{2000}\U{2001}\U{2002}\U{2003}\U{2004}\U{2005}\U{2006}\U{2007}"
        || c in "\U{2008}\U{2009}\U{200a}\U{2028}\U{2029}\U{202f}\U{205f}\U{3000}"
  {
  }

  function TrimStart(s: string): string {
    if s != [] && IsSpace(s[0]) then TrimStart(s[1..]) else s
  }

  function TrimEnd(s: string): string {
    if s != [] && IsSpace(s[|s|-1]) then TrimEnd(s[..|s|-1]) else s
  }

  function LowerChar(c: char): char {
    if 'A' <= c <= 'Z' then (c as int + 32) as char else c
  }

  function LowerText(s: string): string {
    seq(|s|, i requires 0 <= i < |s| => LowerChar(s[i]))
  }

  function Trim(s: string): string {
    TrimEnd(TrimStart(s))
  }

  lemma {:induction false} TrimStartDone(s: string)
    ensures TrimStart(s) != [] ==> !IsSpace(TrimStart(s)[0])
    ensures s != [] && !IsSpace(s[0]) ==> TrimStart(s) == s
  {
    if s != [] && IsSpace(s[0]) { TrimStartDone(s[1..]); }
  }

  lemma {:induction false} TrimEndDone(s: string)
    ensures TrimEnd(s) != [] ==> !IsSpace(TrimEnd(s)[|TrimEnd(s)|-1]) && TrimEnd(s)[0] == s[0]
  {
    if s != [] && IsSpace(s[|s|-1]) { TrimEndDone(s[..|s|-1]); }
  }

  // ---------------------------------------------------------------- what trimming and lower case mean

  /** `x` is `s` without the spaces around it. */
  ghost predicate IsCore(s: string, x: string) {
    exists i, j | 0 <= i <= j <= |s| :: IsCoreAt(s, x, i, j)
  }

  ghost predicate IsCoreAt(s: string, x: string, i: nat, j: nat)
    requires i <= j <= |s|
  {
    && x == s[i..j] && (forall k | 0 <= k < i :: IsSpace(s[k])) && (forall k | j <= k < |s| :: IsSpace(s[k]))
    && (x != [] ==> !IsSpace(x[0]) && !IsSpace(x[|x|-1]))
  }

  lemma {:induction false} TrimStartCuts(s: string) returns (i: nat)
    ensures i <= |s| && TrimStart(s) == s[i..] && forall k | 0 <= k < i :: IsSpace(s[k])
  {
    i := 0;
    if s != [] && IsSpace(s[0]) {
      var k := TrimStartCuts(s[1..]);
      assert forall j | 0 < j < k + 1 :: s[j] == s[1..][j-1];
      i := k + 1;
    }
  }

  lemma {:induction false} TrimEndCuts(s: string) returns (j: nat)
    ensures j <= |s| && TrimEnd(s) == s[..j] && forall k | j <= k < |s| :: IsSpace(s[k])
  {
    j := |s|;
    if s != [] && IsSpace(s[|s|-1]) {
      j := TrimEndCuts(s[..|s|-1]);
      assert forall k | j <= k < |s| - 1 :: s[k] == s[..|s|-1][k];
    }
  }

  lemma TrimIsCore(s: string)
    ensures IsCore(s, Trim(s))
  {
    var i := TrimStartCuts(s);
    var j := TrimEndCuts(s[i..]);
    TrimStartDone(s);
    TrimEndDone(TrimStart(s));
    assert forall k | i + j <= k < |s| :: s[k] == s[i..][k-i];
    assert s[i..][..j] == s[i..i+j];
    assert IsCoreAt(s, Trim(s), i, i + j);
  }

  /** There is only one. */
  lemma CoreIsUnique(s: string, x: string, y: string)
    requires IsCore(s, x) && IsCore(s, y)
    ensures x == y
  {
    var i, j :| 0 <= i <= j <= |s| && IsCoreAt(s, x, i, j);
    var k, m :| 0 <= k <= m <= |s| && IsCoreAt(s, y, k, m);
    if i < j && k < m {
      assert x[0] == s[i] && x[|x|-1] == s[j-1] && y[0] == s[k] && y[|y|-1] == s[m-1];
    }
  }

  /** The same letter, ASCII case aside. */
  predicate SameLetter(c: char, d: char) {
    c == d || ('A' <= c <= 'Z' && d as int == c as int + 32) || ('A' <= d <= 'Z' && c as int == d as int + 32)
  }

  predicate SameLetters(a: string, b: string) {
    |a| == |b| && forall i | 0 <= i < |a| :: SameLetter(a[i], b[i])
  }

  lemma LowerTextIff(a: string, b: string)
    ensures LowerText(a) == LowerText(b) <==> SameLetters(a, b)
  {
    if LowerText(a) == LowerText(b) {
      assert |LowerText(a)| == |a| && |LowerText(b)| == |b|;
      forall i | 0 <= i < |a| ensures SameLetter(a[i], b[i]) {
        assert LowerText(a)[i] == LowerText(b)[i];
      }
    }
  }
}
