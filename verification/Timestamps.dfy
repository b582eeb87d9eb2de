/** Timestamps of one fixed shape, `2026-10-10T00:00:00.000Z`, that can be compared as texts. */
module Timestamps {
  import opened TextOrder

  predicate IsDigit(c: char) { '0' <= c <= '9' }

  lemma DigitIff(c: char)
    ensures IsDigit(c) <==> c in "0123456789"
  {
  }

  predicate IsSeparator(i: nat) { i in {4, 7, 10, 13, 16, 19, 23} }

  /** The shape check: it looks at every character by its position. */
  predicate IsSortable(s: string) {
    && |s| == 24
    && s[4] == '-' && s[7] == '-' && s[10] == 'T' && s[13] == ':' && s[16] == ':' && s[19] == '.' && s[23] == 'Z'
    && forall i | 0 <= i < |s| :: IsSeparator(i) || IsDigit(s[i])
  }

  predicate AllDigits(s: string) { forall i | 0 <= i < |s| :: IsDigit(s[i]) }

  function Number(s: string): nat
    requires AllDigits(s)
  {
    if s == [] then 0 else Number(s[..|s|-1]) * 10 + (s[|s|-1] as int - '0' as int)
  }

  function DigitChar(n: nat): char
    requires n < 10
  {
    "0123456789"[n]
  }

  /** A number in decimal digits. */
  function Decimal(n: nat, width: nat): string {
    if width == 0 then "" else Decimal(n / 10, width - 1) + [DigitChar(n % 10)]
  }

  function Power10(k: nat): nat { if k == 0 then 1 else 10 * Power10(k - 1) }

  lemma OneMoreDigit(s: string, n: nat)
    requires AllDigits(s) && n < 10
    ensures AllDigits(s + [DigitChar(n)]) && Number(s + [DigitChar(n)]) == 10 * Number(s) + n
  {
    assert (s + [DigitChar(n)])[..|s|] == s;
    assert DigitChar(n) as int == '0' as int + n;
  }

  /** A number is read back from its digits. */
  lemma {:induction false} NumberOfDecimal(n: nat, width: nat)
    requires n < Power10(width)
    ensures AllDigits(Decimal(n, width)) && |Decimal(n, width)| == width && Number(Decimal(n, width)) == n
  {
    if width > 0 {
      NumberOfDecimal(n / 10, width - 1);
      hide DigitChar, Number, AllDigits;
      OneMoreDigit(Decimal(n / 10, width - 1), n % 10);
    }
  }

  /** Year, month, day, hour, minute, second, millisecond. */
  function Fields(s: string): seq<nat>
    requires IsSortable(s)
  {
    [FieldOf(s, 0, 4), FieldOf(s, 5, 7), FieldOf(s, 8, 10), FieldOf(s, 11, 13), FieldOf(s, 14, 16), FieldOf(s, 17, 19), FieldOf(s, 20, 23)]
  }

  /** The earlier of two points in time: the first field that differs decides. */
  predicate Earlier(a: seq<nat>, b: seq<nat>) {
    b != [] && (a == [] || a[0] < b[0] || (a[0] == b[0] && Earlier(a[1..], b[1..])))
  }

  /** A timestamp written from seven texts of digits. */
  function Rendered(f: seq<string>): string
    requires |f| == 7
  {
    f[0] + "-" + f[1] + "-" + f[2] + "T" + f[3] + ":" + f[4] + ":" + f[5] + "." + f[6] + "Z"
  }

  ghost predicate AreFields(f: seq<string>) {
    && |f| == 7 && (forall i | 0 <= i < 7 :: AllDigits(f[i]))
    && |f[0]| == 4 && |f[1]| == 2 && |f[2]| == 2 && |f[3]| == 2 && |f[4]| == 2 && |f[5]| == 2 && |f[6]| == 3
  }

  /** The shape check accepts the rendered fields and nothing else. */
  lemma SortableIff(s: string)
    ensures IsSortable(s) <==> exists f: seq<string> :: AreFields(f) && s == Rendered(f)
  {
    if IsSortable(s) {
      var f := [s[0..4], s[5..7], s[8..10], s[11..13], s[14..16], s[17..19], s[20..23]];
      assert AreFields(f);
      RenderedAgain(s, f);
    }
    if f: seq<string> :| AreFields(f) && s == Rendered(f) {
      RenderedIsSortable(f);
    }
  }

  lemma RenderedAgain(s: string, f: seq<string>)
    requires IsSortable(s) && f == [s[0..4], s[5..7], s[8..10], s[11..13], s[14..16], s[17..19], s[20..23]]
    ensures s == Rendered(f)
  {
  }

  lemma RenderedIsSortable(f: seq<string>)
    requires AreFields(f)
    ensures IsSortable(Rendered(f))
  {
    var s := Rendered(f);
    assert |s| == 24;
    assert forall i | 0 <= i < 4 :: s[i] == f[0][i];
    assert s[5..7] == f[1] && s[8..10] == f[2] && s[11..13] == f[3] && s[14..16] == f[4] && s[17..19] == f[5] && s[20..23] == f[6];
  }

  // ---------------------------------------------------------------- texts of equal length

  /** Behind a common length, order is decided by the fronts, or else by the backs. */
  lemma {:induction false} LessByParts(a: string, b: string, x: string, y: string)
    requires |a| == |b|
    ensures Less(a + x, b + y) <==> Less(a, b) || (a == b && Less(x, y))
  {
    if a == [] {
      assert a + x == x && b + y == y;
    } else {
      assert (a + x)[1..] == a[1..] + x && (b + y)[1..] == b[1..] + y;
      LessByParts(a[1..], b[1..], x, y);
      assert a == [a[0]] + a[1..] && b == [b[0]] + b[1..];
    }
  }

  lemma LessAtEnd(a: string, b: string, c: char, d: char)
    requires |a| == |b|
    ensures Less(a + [c], b + [d]) <==> Less(a, b) || (a == b && c < d)
  {
    LessByParts(a, b, [c], [d]);
  }

  /** Digits of equal length are ordered like the numbers they stand for. */
  lemma {:induction false} DigitsAreOrdered(a: string, b: string)
    requires |a| == |b| && AllDigits(a) && AllDigits(b)
    ensures Less(a, b) <==> Number(a) < Number(b)
    ensures a == b <==> Number(a) == Number(b)
  {
    if a != [] {
      var n := |a| - 1;
      DigitsAreOrdered(a[..n], b[..n]);
      assert a == a[..n] + [a[n]] && b == b[..n] + [b[n]];
      LessAtEnd(a[..n], b[..n], a[n], b[n]);
    }
  }

  /** Where a field begins and the separator behind it stands. */
  predicate IsField(i: nat, j: nat) {
    (i, j) in {(0, 4), (5, 7), (8, 10), (11, 13), (14, 16), (17, 19), (20, 23)}
  }

  lemma PartIsDigits(s: string, i: nat, j: nat)
    requires IsSortable(s) && IsField(i, j)
    ensures AllDigits(s[i..j])
  {
  }

  lemma SameSeparator(s: string, t: string, i: nat, j: nat)
    requires IsSortable(s) && IsSortable(t) && IsField(i, j)
    ensures s[j] == t[j]
  {
  }

  /** The number of a field. */
  function FieldOf(s: string, i: nat, j: nat): nat
    requires IsSortable(s) && IsField(i, j)
  {
    PartIsDigits(s, i, j);
    Number(s[i..j])
  }

  lemma SplitAt(s: string, i: nat, j: nat)
    requires i <= j < |s|
    ensures s[i..] == s[i..j] + s[j..] && s[j..] == [s[j]] + s[j+1..]
  {
  }

  /** One field and the separator behind it. */
  lemma FieldDecides(s: string, t: string, i: nat, j: nat)
    requires IsSortable(s) && IsSortable(t) && IsField(i, j)
    ensures Less(s[i..], t[i..]) <==>
      FieldOf(s, i, j) < FieldOf(t, i, j) || (FieldOf(s, i, j) == FieldOf(t, i, j) && Less(s[j+1..], t[j+1..]))
  {
    PartIsDigits(s, i, j);
    PartIsDigits(t, i, j);
    SameSeparator(s, t, i, j);
    assert i <= j < 24 && |s| == 24 && |t| == 24;
    hide IsSortable, IsField, IsSeparator;
    DigitsAreOrdered(s[i..j], t[i..j]);
    hide Number;
    SplitAt(s, i, j);
    SplitAt(t, i, j);
    LessByParts(s[i..j], t[i..j], s[j..], t[j..]);
    LessByParts([s[j]], [t[j]], s[j+1..], t[j+1..]);
    LessIsStrict([s[j]], [t[j]]);
  }

  /** Comparing two accepted timestamps as texts is comparing the points in time they name. */
  lemma TextOrderIsTimeOrder(s: string, t: string)
    requires IsSortable(s) && IsSortable(t)
    ensures Less(s, t) <==> Earlier(Fields(s), Fields(t))
  {
    EarlierOfSeven(Fields(s), Fields(t));
    assert |s| == 24 && |t| == 24;
    assert s[0..] == s && t[0..] == t && s[24..] == [] && t[24..] == [];
    assert !Less(s[24..], t[24..]);
    hide IsSortable, Less, FieldOf, Earlier;
    FieldDecides(s, t, 0, 4);
    FieldDecides(s, t, 5, 7);
    FieldDecides(s, t, 8, 10);
    FieldDecides(s, t, 11, 13);
    FieldDecides(s, t, 14, 16);
    FieldDecides(s, t, 17, 19);
    FieldDecides(s, t, 20, 23);
  }

  lemma EarlierOfSeven(a: seq<nat>, b: seq<nat>)
    requires |a| == 7 && |b| == 7
    ensures Earlier(a, b) <==>
      (a[0] < b[0] || (a[0] == b[0] && (a[1] < b[1] || (a[1] == b[1] && (a[2] < b[2] || (a[2] == b[2] &&
      (a[3] < b[3] || (a[3] == b[3] && (a[4] < b[4] || (a[4] == b[4] && (a[5] < b[5] || (a[5] == b[5] && a[6] < b[6]))))))))))))
  {
    EarlierStep(a, b, 0);
    EarlierStep(a, b, 1);
    EarlierStep(a, b, 2);
    EarlierStep(a, b, 3);
    EarlierStep(a, b, 4);
    EarlierStep(a, b, 5);
    EarlierStep(a, b, 6);
    assert a[0..] == a && b[0..] == b && a[7..] == [] && b[7..] == [];
    assert !Earlier(a[7..], b[7..]);
  }

  lemma EarlierStep(a: seq<nat>, b: seq<nat>, i: nat)
    requires i < |a| && i < |b|
    ensures Earlier(a[i..], b[i..]) <==> a[i] < b[i] || (a[i] == b[i] && Earlier(a[i+1..], b[i+1..]))
  {
    assert a[i..][1..] == a[i+1..] && b[i..][1..] == b[i+1..];
  }
}
