/** What a queue execution will send, what it may cost, and the token that confirms both.

    The token is a hash over the previews, each given by five texts with their lengths in front, followed
    by two numbers. There is no count in front of the list.
 */
module QueueConfirmation {
  import opened Prelude

  const MAX_TASKS := 64
  const MAX_AGENTS := 8
  const MAX_RUNS := 128
  const MAX_ATTEMPTS := 3
  const PREVIEW_OVERHEAD := 32
  const USIZE := 0x1_0000_0000_0000_0000
  const DOMAIN := "workduck.queue-execution-estimate/v1\0"

  newtype byte = x: int | 0 <= x < 256

  datatype Preview = Preview(
    id: string, taskId: string, taskTitle: string, agentId: string, agentName: string,
    systemPrompt: string, userPrompt: string)

  datatype Estimate = Estimate(
    requestCount: nat, maximumAttempts: nat, inputTokens: nat, maximumInputTokens: nat, token: string)

  // ---------------------------------------------------------------- UTF-8

  function Utf8Char(c: char): seq<byte> {
    var n := c as int;
    if n < 0x80 then [n as byte]
    else if n < 0x800 then [(0xC0 + n / 64) as byte, (0x80 + n % 64) as byte]
    else if n < 0x1_0000 then [(0xE0 + n / 4096) as byte, (0x80 + n / 64 % 64) as byte, (0x80 + n % 64) as byte]
    else [(0xF0 + n / 262144) as byte, (0x80 + n / 4096 % 64) as byte, (0x80 + n / 64 % 64) as byte, (0x80 + n % 64) as byte]
  }

  function Utf8(s: string): seq<byte> {
    if s == [] then [] else Utf8Char(s[0]) + Utf8(s[1..])
  }

  /** The first byte tells how many belong to the character. */
  function Width(b: byte): nat {
    if b < 0x80 then 1 else if b < 0xE0 then 2 else if b < 0xF0 then 3 else 4
  }

  lemma CharWidth(c: char)
    ensures |Utf8Char(c)| == Width(Utf8Char(c)[0])
  {
  }

  /** The character that bytes stand for, by the table in section 3 of RFC 3629. */
  function CodePoint(b: seq<byte>): int
    requires b != [] && |b| == Width(b[0])
  {
    match |b|
    case 1 => b[0] as int
    case 2 => (b[0] as int - 0xC0) * 64 + (b[1] as int - 0x80)
    case 3 => (b[0] as int - 0xE0) * 4096 + (b[1] as int - 0x80) * 64 + (b[2] as int - 0x80)
    case _ => (b[0] as int - 0xF0) * 262144 + (b[1] as int - 0x80) * 4096 + (b[2] as int - 0x80) * 64 + (b[3] as int - 0x80)
  }

  lemma DividedTwice(n: nat)
    ensures n / 64 / 64 == n / 4096 && n / 64 / 64 / 64 == n / 262144
  {
  }

  /** A character is read back from its bytes, and all but the first of them are continuation bytes. */
  lemma CharIsReadBack(c: char)
    ensures |Utf8Char(c)| == Width(Utf8Char(c)[0]) && CodePoint(Utf8Char(c)) == c as int
    ensures forall i | 0 < i < |Utf8Char(c)| :: 0x80 <= Utf8Char(c)[i] < 0xC0
  {
    DividedTwice(c as int);
  }

  lemma SameCharBytes(c: char, d: char)
    requires Utf8Char(c) == Utf8Char(d)
    ensures c == d
  {
    CharIsReadBack(c);
    CharIsReadBack(d);
  }

  lemma SomeBytes(s: string)
    ensures s == [] <==> Utf8(s) == []
  {
    if s != [] { CharWidth(s[0]); }
  }

  /** Texts are told apart by their bytes. */
  lemma {:induction false} Utf8IsInjective(s: string, t: string)
    requires Utf8(s) == Utf8(t)
    ensures s == t
  {
    SomeBytes(s);
    SomeBytes(t);
    if s != [] {
      var a, b := Utf8Char(s[0]), Utf8Char(t[0]);
      CharWidth(s[0]);
      CharWidth(t[0]);
      assert Utf8(s)[0] == a[0] && Utf8(t)[0] == b[0];
      assert Utf8(s)[..|a|] == a && Utf8(t)[..|b|] == b;
      SameCharBytes(s[0], t[0]);
      assert Utf8(s)[|a|..] == Utf8(s[1..]) && Utf8(t)[|b|..] == Utf8(t[1..]);
      Utf8IsInjective(s[1..], t[1..]);
      assert s == [s[0]] + s[1..] && t == [t[0]] + t[1..];
    }
  }

  // ---------------------------------------------------------------- numbers and fields

  /** The little-endian bytes of a number, as many as asked for. */
  function LittleEndian(n: nat, width: nat): seq<byte> {
    if width == 0 then [] else [(n % 256) as byte] + LittleEndian(n / 256, width - 1)
  }

  function Power256(k: nat): nat { if k == 0 then 1 else 256 * Power256(k - 1) }

  lemma {:induction false} LittleEndianLength(n: nat, width: nat)
    ensures |LittleEndian(n, width)| == width
  {
    if width > 0 { LittleEndianLength(n / 256, width - 1); }
  }

  /** The number that bytes stand for, the lowest of them first. */
  function NumberOf(bytes: seq<byte>): nat {
    if bytes == [] then 0 else bytes[0] as int + 256 * NumberOf(bytes[1..])
  }

  lemma {:induction false} NumberIsReadBack(n: nat, width: nat)
    requires n < Power256(width)
    ensures NumberOf(LittleEndian(n, width)) == n
  {
    if width > 0 {
      NumberIsReadBack(n / 256, width - 1);
      assert LittleEndian(n, width)[1..] == LittleEndian(n / 256, width - 1);
    }
  }

  lemma LittleEndianIsInjective(n: nat, m: nat, width: nat)
    requires n < Power256(width) && m < Power256(width) && LittleEndian(n, width) == LittleEndian(m, width)
    ensures n == m
  {
    NumberIsReadBack(n, width);
    NumberIsReadBack(m, width);
  }

  lemma Power8()
    ensures Power256(8) == USIZE
  {
    assert Power256(1) == 256 && Power256(2) == 65536;
    assert Power256(4) == 0x1_0000_0000;
    assert Power256(6) == 0x1_0000_0000_0000;
  }

  function Usize(n: nat): seq<byte> { LittleEndian(n, 8) }

  function Field(s: string): seq<byte> { Usize(|Utf8(s)|) + Utf8(s) }

  /** A text that fits into memory. */
  predicate Fits(s: string) { |Utf8(s)| < USIZE }

  predicate PreviewFits(p: Preview) {
    Fits(p.id) && Fits(p.taskId) && Fits(p.agentId) && Fits(p.systemPrompt) && Fits(p.userPrompt)
  }

  /** A field is read back from the front of whatever follows it. */
  lemma FieldIsReadBack(s: string, t: string, x: seq<byte>, y: seq<byte>)
    requires Fits(s) && Fits(t) && Field(s) + x == Field(t) + y
    ensures s == t && x == y
  {
    var a, b := Usize(|Utf8(s)|), Usize(|Utf8(t)|);
    LittleEndianLength(|Utf8(s)|, 8);
    LittleEndianLength(|Utf8(t)|, 8);
    var whole := Field(s) + x;
    assert whole[..8] == a && whole[..8] == b;
    Power8();
    LittleEndianIsInjective(|Utf8(s)|, |Utf8(t)|, 8);
    var n := |Utf8(s)|;
    assert whole[8..8+n] == Utf8(s) && whole[8..8+n] == Utf8(t);
    Utf8IsInjective(s, t);
    assert whole[8+n..] == x && whole[8+n..] == y;
  }

  // ---------------------------------------------------------------- the hashed bytes

  function PreviewBytes(p: Preview): seq<byte> {
    Field(p.id) + (Field(p.taskId) + (Field(p.agentId) + (Field(p.systemPrompt) + Field(p.userPrompt))))
  }

  function ListBytes(previews: seq<Preview>): seq<byte> {
    if previews == [] then [] else PreviewBytes(previews[0]) + ListBytes(previews[1..])
  }

  /** Ascii characters count a quarter of a token each, rounded up, all others one. */
  function PromptTokens(prompt: string): nat {
    Saturated((Ascii(prompt) + 3) / 4 + (|prompt| - Ascii(prompt)))
  }

  function Ascii(s: string): (n: nat)
    ensures n <= |s|
  {
    if s == [] then 0 else Ascii(s[..|s|-1]) + if s[|s|-1] < '\U{80}' then 1 else 0
  }

  function Saturated(n: nat): nat { if n < USIZE then n else USIZE - 1 }

  function PreviewTokens(p: Preview): nat {
    Saturated(Saturated(PromptTokens(p.systemPrompt) + PromptTokens(p.userPrompt)) + PREVIEW_OVERHEAD)
  }

  /** The previews' own sums stop at the largest number, their total wraps around. */
  function InputTokens(previews: seq<Preview>): nat {
    if previews == [] then 0
    else (InputTokens(previews[..|previews|-1]) + PreviewTokens(previews[|previews|-1])) % USIZE
  }

  /** The places of the ascii characters. */
  ghost function AsciiPlaces(s: string): set<nat> {
    set i: nat | i < |s| && s[i] < '\U{80}'
  }

  lemma {:induction false} AsciiCountsPlaces(s: string)
    ensures Ascii(s) == |AsciiPlaces(s)|
  {
    if s != [] {
      var n := |s| - 1;
      AsciiCountsPlaces(s[..n]);
      assert forall i: nat | i < n :: s[..n][i] == s[i];
      assert AsciiPlaces(s) == AsciiPlaces(s[..n]) + if s[n] < '\U{80}' then {n} else {};
    }
  }

  /** What a prompt counts: the fewest quarters that hold its ascii characters, and one for each other
      character; no more than the largest number. */
  lemma PromptTokensAre(s: string) returns (quarters: nat)
    ensures 4 * quarters >= |AsciiPlaces(s)| && (quarters > 0 ==> 4 * (quarters - 1) < |AsciiPlaces(s)|)
    ensures |AsciiPlaces(s)| <= |s|
    ensures PromptTokens(s) == var n := quarters + (|s| - |AsciiPlaces(s)|); if n < USIZE then n else USIZE - 1
  {
    AsciiCountsPlaces(s);
    quarters := (Ascii(s) + 3) / 4;
  }

  /** The total of lists is the wrapped sum of their totals; that of one preview is its own count. */
  lemma {:induction false} TotalOfLists(a: seq<Preview>, b: seq<Preview>)
    ensures InputTokens(a + b) == (InputTokens(a) + InputTokens(b)) % USIZE
    decreases |b|
  {
    hide InputTokens, PreviewTokens;
    TotalIsBounded(a);
    if b == [] {
      TotalIsBounded(b);
      assert a + b == a;
    } else {
      var n := |b| - 1;
      TotalOfLists(a, b[..n]);
      assert (a + b)[..|a+b|-1] == a + b[..n];
      TotalSnoc(a + b);
      TotalSnoc(b);
      WrapTwice(InputTokens(a), InputTokens(b[..n]), PreviewTokens(b[n]));
    }
  }

  lemma TotalSnoc(s: seq<Preview>)
    requires s != []
    ensures InputTokens(s) == (InputTokens(s[..|s|-1]) + PreviewTokens(s[|s|-1])) % USIZE
  {
  }

  lemma TotalIsBounded(s: seq<Preview>)
    ensures InputTokens(s) < USIZE && (s == [] ==> InputTokens(s) == 0)
    ensures |s| == 1 ==> InputTokens(s) == PreviewTokens(s[0])
  {
    if |s| == 1 { assert InputTokens(s[..0]) == 0; }
  }

  lemma WrapTwice(x: nat, y: nat, z: nat)
    ensures ((x + y) % USIZE + z) % USIZE == (x + (y + z) % USIZE) % USIZE
  {
  }

  function HashedBytes(previews: seq<Preview>): seq<byte> {
    Utf8(DOMAIN) + (ListBytes(previews) + (Usize(|previews|) + Usize(InputTokens(previews))))
  }

  /** What the token stands for. */
  ghost predicate SamePlan(a: seq<Preview>, b: seq<Preview>) {
    && |a| == |b|
    && forall i | 0 <= i < |a| ::
         && a[i].id == b[i].id && a[i].taskId == b[i].taskId && a[i].agentId == b[i].agentId
         && a[i].systemPrompt == b[i].systemPrompt && a[i].userPrompt == b[i].userPrompt
  }

  ghost predicate AllFit(previews: seq<Preview>) {
    forall p | p in previews :: PreviewFits(p)
  }

  lemma PreviewIsReadBack(p: Preview, q: Preview, x: seq<byte>, y: seq<byte>)
    requires PreviewFits(p) && PreviewFits(q) && PreviewBytes(p) + x == PreviewBytes(q) + y
    ensures p.id == q.id && p.taskId == q.taskId && p.agentId == q.agentId
    ensures p.systemPrompt == q.systemPrompt && p.userPrompt == q.userPrompt && x == y
  {
    hide Field, Fits;
    ReadOne(p.id, Field(p.taskId) + (Field(p.agentId) + (Field(p.systemPrompt) + Field(p.userPrompt))), x,
            q.id, Field(q.taskId) + (Field(q.agentId) + (Field(q.systemPrompt) + Field(q.userPrompt))), y);
    ReadOne(p.taskId, Field(p.agentId) + (Field(p.systemPrompt) + Field(p.userPrompt)), x,
            q.taskId, Field(q.agentId) + (Field(q.systemPrompt) + Field(q.userPrompt)), y);
    ReadOne(p.agentId, Field(p.systemPrompt) + Field(p.userPrompt), x,
            q.agentId, Field(q.systemPrompt) + Field(q.userPrompt), y);
    ReadOne(p.systemPrompt, Field(p.userPrompt), x, q.systemPrompt, Field(q.userPrompt), y);
    FieldIsReadBack(p.userPrompt, q.userPrompt, x, y);
  }

  lemma ReadOne(s: string, rest: seq<byte>, x: seq<byte>, t: string, rest': seq<byte>, y: seq<byte>)
    requires Fits(s) && Fits(t) && (Field(s) + rest) + x == (Field(t) + rest') + y
    ensures s == t && rest + x == rest' + y
  {
    assert (Field(s) + rest) + x == Field(s) + (rest + x);
    assert (Field(t) + rest') + y == Field(t) + (rest' + y);
    FieldIsReadBack(s, t, rest + x, rest' + y);
  }

  lemma PreviewIsLong(p: Preview)
    ensures |PreviewBytes(p)| >= 40
  {
    LittleEndianLength(|Utf8(p.id)|, 8);
    LittleEndianLength(|Utf8(p.taskId)|, 8);
    LittleEndianLength(|Utf8(p.agentId)|, 8);
    LittleEndianLength(|Utf8(p.systemPrompt)|, 8);
    LittleEndianLength(|Utf8(p.userPrompt)|, 8);
  }

  /** Although no count stands in front, a list followed by trailers of one length is told apart from any
      other list, longer or shorter: what is left of the longer one could not be a trailer. */
  lemma {:induction false} ListIsReadBack(a: seq<Preview>, b: seq<Preview>, x: seq<byte>, y: seq<byte>)
    requires AllFit(a) && AllFit(b) && |x| == 16 && |y| == 16
    requires ListBytes(a) + x == ListBytes(b) + y
    ensures SamePlan(a, b) && x == y
  {
    hide PreviewBytes;
    if a == [] && b == [] {
      assert ListBytes(a) + x == x && ListBytes(b) + y == y;
    } else if a == [] {
      PreviewIsLong(b[0]);
    } else if b == [] {
      PreviewIsLong(a[0]);
    } else {
      assert a[0] in a && b[0] in b;
      assert ListBytes(a) + x == PreviewBytes(a[0]) + (ListBytes(a[1..]) + x);
      assert ListBytes(b) + y == PreviewBytes(b[0]) + (ListBytes(b[1..]) + y);
      PreviewIsReadBack(a[0], b[0], ListBytes(a[1..]) + x, ListBytes(b[1..]) + y);
      ListIsReadBack(a[1..], b[1..], x, y);
      assert forall i | 0 < i < |a| :: a[i] == a[1..][i-1] && b[i] == b[1..][i-1];
    }
  }

  /** Equal bytes mean equal ids, task ids, agent ids and prompts, place by place. */
  lemma HashedBytesAreInjective(a: seq<Preview>, b: seq<Preview>)
    requires AllFit(a) && AllFit(b) && HashedBytes(a) == HashedBytes(b)
    ensures SamePlan(a, b)
  {
    hide Utf8, ListBytes, InputTokens, AllFit, SamePlan;
    var x := Usize(|a|) + Usize(InputTokens(a));
    var y := Usize(|b|) + Usize(InputTokens(b));
    LittleEndianLength(|a|, 8);
    LittleEndianLength(|b|, 8);
    LittleEndianLength(InputTokens(a), 8);
    LittleEndianLength(InputTokens(b), 8);
    SameBack(Utf8(DOMAIN), ListBytes(a) + x, ListBytes(b) + y);
    ListIsReadBack(a, b, x, y);
  }

  lemma SameBack(front: seq<byte>, x: seq<byte>, y: seq<byte>)
    requires front + x == front + y
    ensures x == y
  {
    assert x == (front + x)[|front|..];
    assert y == (front + y)[|front|..];
  }

  /** And the other way round: titles and names play no part. */
  lemma SamePlanSameBytes(a: seq<Preview>, b: seq<Preview>)
    requires SamePlan(a, b)
    ensures ListBytes(a) == ListBytes(b) && InputTokens(a) == InputTokens(b)
  {
    hide *;
    SamePlanSameList(a, b);
    SamePlanSameTokens(a, b);
  }

  lemma {:induction false} SamePlanSameTokens(a: seq<Preview>, b: seq<Preview>)
    requires SamePlan(a, b)
    ensures InputTokens(a) == InputTokens(b)
  {
    hide PromptTokens, Saturated;
    if a != [] { SamePlanSameTokens(a[..|a|-1], b[..|b|-1]); }
  }

  lemma {:induction false} SamePlanSameList(a: seq<Preview>, b: seq<Preview>)
    requires SamePlan(a, b)
    ensures ListBytes(a) == ListBytes(b)
  {
    if a != [] { SamePlanSameList(a[1..], b[1..]); }
  }

  // ---------------------------------------------------------------- the token

  function HexDigit(n: nat): char
    requires n < 16
  {
    if n < 10 then (n + '0' as int) as char else (n - 10 + 'a' as int) as char
  }

  function Hex(bytes: seq<byte>): string {
    if bytes == [] then [] else [HexDigit(bytes[0] as int / 16), HexDigit(bytes[0] as int % 16)] + Hex(bytes[1..])
  }

  /** Two digits for each byte, the higher one first. */
  lemma {:induction false} HexMeans(bytes: seq<byte>, i: nat)
    requires i < |bytes|
    ensures |Hex(bytes)| == 2 * |bytes|
    ensures Hex(bytes)[2 * i] == "0123456789abcdef"[bytes[i] / 16]
    ensures Hex(bytes)[2 * i + 1] == "0123456789abcdef"[bytes[i] % 16]
  {
    if i > 0 {
      HexMeans(bytes[1..], i - 1);
    } else if |bytes| > 1 {
      HexMeans(bytes[1..], 0);
    }
  }

  lemma {:induction false} HexIsInjective(a: seq<byte>, b: seq<byte>)
    requires Hex(a) == Hex(b)
    ensures a == b
  {
    if a != [] && b != [] {
      assert Hex(a)[0] == Hex(b)[0] && Hex(a)[1] == Hex(b)[1];
      assert Hex(a)[2..] == Hex(a[1..]) && Hex(b)[2..] == Hex(b[1..]);
      HexIsInjective(a[1..], b[1..]);
      assert a == [a[0]] + a[1..] && b == [b[0]] + b[1..];
    }
  }

  /** Different bytes have different hashes, as far as anyone has seen. */
  ghost predicate TellsApart(hash: seq<byte> -> seq<byte>) {
    forall x, y :: hash(x) == hash(y) ==> x == y
  }

  function Token(hash: seq<byte> -> seq<byte>, previews: seq<Preview>): string {
    Hex(hash(HashedBytes(previews)))
  }

  /** Two plans have one token exactly if they would send the same texts to the same agents. */
  lemma TokenMeansPlan(hash: seq<byte> -> seq<byte>, a: seq<Preview>, b: seq<Preview>)
    requires TellsApart(hash) && AllFit(a) && AllFit(b)
    ensures Token(hash, a) == Token(hash, b) <==> SamePlan(a, b)
  {
    if SamePlan(a, b) { SamePlanSameBytes(a, b); }
    if Token(hash, a) == Token(hash, b) {
      HexIsInjective(hash(HashedBytes(a)), hash(HashedBytes(b)));
      HashedBytesAreInjective(a, b);
    }
  }

  /** Counts the characters of a prompt. */
  method EstimatePrompt(prompt: string) returns (tokens: nat)
    ensures tokens == PromptTokens(prompt)
  {
    var ascii, others: nat := 0, 0;
    for i := 0 to |prompt|
      invariant ascii == Ascii(prompt[..i]) && others == i - ascii
    {
      assert prompt[..i+1][..i] == prompt[..i];
      if prompt[i] < '\U{80}' { ascii := ascii + 1; } else { others := others + 1; }
    }
    assert prompt[..|prompt|] == prompt;
    return Saturated((ascii + 3) / 4 + others);
  }

  method EstimatePreview(p: Preview) returns (tokens: nat)
    ensures tokens == PreviewTokens(p)
  {
    hide PromptTokens;
    var system := EstimatePrompt(p.systemPrompt);
    var user := EstimatePrompt(p.userPrompt);
    return Saturated(Saturated(system + user) + PREVIEW_OVERHEAD);
  }

  /** Feeds the hasher text by text, and adds up what the previews cost. */
  method CreateEstimate(hash: seq<byte> -> seq<byte>, previews: seq<Preview>) returns (e: Estimate)
    ensures e.token == Token(hash, previews)
    ensures e.requestCount == |previews| && e.maximumAttempts == Saturated(3 * |previews|)
    ensures e.inputTokens == InputTokens(previews)
    ensures e.maximumInputTokens == Saturated(3 * e.inputTokens)
  {
    hide PreviewBytes, PreviewTokens, Saturated, Usize, Utf8;
    var tokens: nat := 0;
    var digest := Utf8(DOMAIN);
    for i := 0 to |previews|
      invariant tokens == InputTokens(previews[..i])
      invariant digest + ListBytes(previews[i..]) == Utf8(DOMAIN) + ListBytes(previews)
    {
      var p := previews[i];
      assert previews[..i+1][..i] == previews[..i];
      assert previews[i..] == [p] + previews[i+1..];
      var cost := EstimatePreview(p);
      tokens := (tokens + cost) % USIZE;
      ghost var before := digest;
      var bytes := PreviewDigest(p);
      digest := digest + bytes;
      assert digest + ListBytes(previews[i+1..]) == before + (PreviewBytes(p) + ListBytes(previews[i+1..]));
    }
    assert previews[..|previews|] == previews;
    assert digest == Utf8(DOMAIN) + ListBytes(previews);
    digest := digest + Usize(|previews|);
    digest := digest + Usize(tokens);
    assert digest == HashedBytes(previews);
    e := Estimate(|previews|, Saturated(|previews| * MAX_ATTEMPTS), tokens, Saturated(tokens * MAX_ATTEMPTS), Hex(hash(digest)));
  }

  /** The five texts of one preview, each after its length. */
  method PreviewDigest(p: Preview) returns (bytes: seq<byte>)
    ensures bytes == PreviewBytes(p)
  {
    var values := [p.id, p.taskId, p.agentId, p.systemPrompt, p.userPrompt];
    bytes := [];
    FiveFields(p, values);
    hide PreviewBytes, FieldsOf, Usize, Utf8;
    for k := 0 to |values|
      invariant bytes + FieldsOf(values[k..]) == PreviewBytes(p)
    {
      NextField(values, k, bytes);
      bytes := bytes + (Usize(|Utf8(values[k])|) + Utf8(values[k]));
    }
    NoField(values);
  }

  lemma NextField(values: seq<string>, k: nat, bytes: seq<byte>)
    requires k < |values|
    ensures bytes + FieldsOf(values[k..]) == (bytes + Field(values[k])) + FieldsOf(values[k+1..])
  {
    assert values[k..][1..] == values[k+1..];
  }

  lemma NoField(values: seq<string>)
    ensures FieldsOf(values[|values|..]) == []
  {
  }

  function FieldsOf(values: seq<string>): seq<byte> {
    if values == [] then [] else Field(values[0]) + FieldsOf(values[1..])
  }

  lemma FiveFields(p: Preview, values: seq<string>)
    requires values == [p.id, p.taskId, p.agentId, p.systemPrompt, p.userPrompt]
    ensures values[0..] == values && FieldsOf(values) == PreviewBytes(p)
  {
    hide Field;
    var v1, v2, v3, v4 := values[1..], values[2..], values[3..], values[4..];
    assert v1[1..] == v2 && v2[1..] == v3 && v3[1..] == v4 && v4[1..] == [];
    assert FieldsOf(v4) == Field(p.userPrompt);
    assert FieldsOf(v3) == Field(p.systemPrompt) + FieldsOf(v4);
    assert FieldsOf(v2) == Field(p.agentId) + FieldsOf(v3);
    assert FieldsOf(v1) == Field(p.taskId) + FieldsOf(v2);
  }

  // ---------------------------------------------------------------- the plan of a work order

  datatype Task = Task(id: string, title: string, agentIds: seq<string>)

  datatype Agent = Agent(id: string, name: string)

  datatype PlanError = TaskLimit | AgentLimit | ExecutionLimit | AgentRequired | AgentNotFound | NothingToRun | NotConfirmed

  /** Building the prompts of a task for an agent is not modelled; it looks only at its arguments. */
  datatype Prompts = Prompts(system: (Task, Agent) -> string, user: (Task, Agent) -> string)

  function RunCount(tasks: seq<Task>): nat {
    if tasks == [] then 0 else RunCount(tasks[..|tasks|-1]) + |tasks[|tasks|-1].agentIds|
  }

  ghost predicate WithinLimits(tasks: seq<Task>) {
    && |tasks| <= MAX_TASKS && RunCount(tasks) <= MAX_RUNS
    && forall t | t in tasks :: |t.agentIds| <= MAX_AGENTS
  }

  lemma {:induction false} RunCountGrows(tasks: seq<Task>, i: nat)
    requires i <= |tasks|
    ensures RunCount(tasks[..i]) <= RunCount(tasks)
    decreases |tasks|
  {
    if i < |tasks| {
      var n := |tasks| - 1;
      assert tasks[..n][..i] == tasks[..i];
      RunCountGrows(tasks[..n], i);
    } else {
      assert tasks[..i] == tasks;
    }
  }

  method ValidateLimits(tasks: seq<Task>) returns (r: Outcome<PlanError>)
    ensures r.Pass? <==> WithinLimits(tasks)
    ensures r == Fail(TaskLimit) <==> |tasks| > MAX_TASKS
    ensures r == Fail(AgentLimit) ==> exists t | t in tasks :: |t.agentIds| > MAX_AGENTS
    ensures r == Fail(ExecutionLimit) ==> RunCount(tasks) > MAX_RUNS
    ensures r.Fail? ==> r.error in {TaskLimit, AgentLimit, ExecutionLimit}
  {
    if |tasks| > MAX_TASKS { return Fail(TaskLimit); }
    var total := 0;
    for i := 0 to |tasks|
      invariant total == RunCount(tasks[..i]) <= MAX_RUNS
      invariant forall k | 0 <= k < i :: |tasks[k].agentIds| <= MAX_AGENTS
    {
      assert tasks[i] in tasks;
      if |tasks[i].agentIds| > MAX_AGENTS { return Fail(AgentLimit); }
      assert tasks[..i+1][..i] == tasks[..i];
      total := total + |tasks[i].agentIds|;
      RunCountGrows(tasks, i + 1);
      if total > MAX_RUNS { return Fail(ExecutionLimit); }
    }
    assert tasks[..|tasks|] == tasks;
    return Pass;
  }

  function FindAgent(agents: seq<Agent>, id: string): Option<Agent> {
    if agents == [] then None
    else if agents[0].id == id then Some(agents[0])
    else FindAgent(agents[1..], id)
  }

  ghost predicate Runnable(tasks: seq<Task>, agents: seq<Agent>) {
    tasks != [] && forall t | t in tasks :: TaskRunnable(t, agents)
  }

  ghost predicate TaskRunnable(t: Task, agents: seq<Agent>) {
    t.agentIds != [] && forall id | id in t.agentIds :: FindAgent(agents, id).Some?
  }

  function PreviewFor(p: Prompts, t: Task, a: Agent): Preview {
    Preview(t.id + ":" + a.id, t.id, t.title, a.id, a.name, p.system(t, a), p.user(t, a))
  }

  /** The preview of task `i` for its agent `k` stands after those of all earlier tasks and agents. */
  ghost predicate PreviewsOf(previews: seq<Preview>, p: Prompts, tasks: seq<Task>, agents: seq<Agent>) {
    && |previews| == RunCount(tasks)
    && forall i, k | 0 <= i < |tasks| && 0 <= k < |tasks[i].agentIds| :: PreviewAt(previews, p, tasks, agents, i, k)
  }

  ghost predicate PreviewAt(previews: seq<Preview>, p: Prompts, tasks: seq<Task>, agents: seq<Agent>, i: nat, k: nat)
    requires i < |tasks| && k < |tasks[i].agentIds|
  {
    var at := RunCount(tasks[..i]) + k;
    var agent := FindAgent(agents, tasks[i].agentIds[k]);
    at < |previews| && agent.Some? && previews[at] == PreviewFor(p, tasks[i], agent.value)
  }

  /** One preview for each agent of each task, in order. */
  method CreatePreviews(p: Prompts, tasks: seq<Task>, agents: seq<Agent>) returns (r: Result<seq<Preview>, PlanError>)
    ensures r.Ok? <==> WithinLimits(tasks) && Runnable(tasks, agents)
    ensures r.Ok? ==> PreviewsOf(r.value, p, tasks, agents) && 1 <= |r.value| <= MAX_RUNS
    ensures r == Err(NothingToRun) <==> tasks == []
    ensures r.Err? ==> r.error != NotConfirmed
  {
    var limits := ValidateLimits(tasks);
    if limits.Fail? { return Err(limits.error); }
    var previews: seq<Preview> := [];
    for i := 0 to |tasks|
      invariant PreviewsOf(previews, p, tasks[..i], agents)
      invariant forall k | 0 <= k < i :: TaskRunnable(tasks[k], agents)
      invariant i > 0 ==> previews != []
    {
      var task := tasks[i];
      assert task in tasks;
      if task.agentIds == [] { return Err(AgentRequired); }
      var ofTask := PreviewsOfTask(p, task, agents);
      if ofTask.Err? { return Err(ofTask.error); }
      AppendTask(previews, ofTask.value, p, tasks, agents, i);
      previews := previews + ofTask.value;
    }
    assert tasks[..|tasks|] == tasks;
    if previews == [] { return Err(NothingToRun); }
    return Ok(previews);
  }

  method PreviewsOfTask(p: Prompts, task: Task, agents: seq<Agent>) returns (r: Result<seq<Preview>, PlanError>)
    ensures r.Ok? <==> forall id | id in task.agentIds :: FindAgent(agents, id).Some?
    ensures r.Ok? ==> |r.value| == |task.agentIds| && forall k | 0 <= k < |task.agentIds| ::
      r.value[k] == PreviewFor(p, task, FindAgent(agents, task.agentIds[k]).value)
    ensures r.Err? ==> r.error == AgentNotFound
  {
    var previews: seq<Preview> := [];
    for k := 0 to |task.agentIds|
      invariant |previews| == k
      invariant forall j | 0 <= j < k :: FindAgent(agents, task.agentIds[j]).Some?
      invariant forall j | 0 <= j < k :: previews[j] == PreviewFor(p, task, FindAgent(agents, task.agentIds[j]).value)
    {
      var agent := FindAgent(agents, task.agentIds[k]);
      assert task.agentIds[k] in task.agentIds;
      if agent.None? { return Err(AgentNotFound); }
      previews := previews + [PreviewFor(p, task, agent.value)];
    }
    return Ok(previews);
  }

  lemma AppendTask(previews: seq<Preview>, more: seq<Preview>, p: Prompts, tasks: seq<Task>, agents: seq<Agent>, i: nat)
    requires i < |tasks| && PreviewsOf(previews, p, tasks[..i], agents)
    requires |more| == |tasks[i].agentIds|
    requires forall k | 0 <= k < |more| :: FindAgent(agents, tasks[i].agentIds[k]).Some?
    requires forall k | 0 <= k < |more| :: more[k] == PreviewFor(p, tasks[i], FindAgent(agents, tasks[i].agentIds[k]).value)
    ensures PreviewsOf(previews + more, p, tasks[..i+1], agents)
  {
    var now := tasks[..i+1];
    assert now[..i] == tasks[..i];
    forall j, k | 0 <= j < |now| && 0 <= k < |now[j].agentIds| ensures PreviewAt(previews + more, p, now, agents, j, k) {
      assert now[..j] == tasks[..j];
      if j < i {
        assert tasks[..i][..j] == tasks[..j];
        assert PreviewAt(previews, p, tasks[..i], agents, j, k);
      }
    }
  }

  /** The task and the agent a preview's place belongs to. */
  lemma {:induction false} PlaceOf(tasks: seq<Task>, n: nat) returns (i: nat, k: nat)
    requires n < RunCount(tasks)
    ensures i < |tasks| && k < |tasks[i].agentIds| && n == RunCount(tasks[..i]) + k
  {
    var last := |tasks| - 1;
    if n < RunCount(tasks[..last]) {
      i, k := PlaceOf(tasks[..last], n);
      assert tasks[..last][..i] == tasks[..i];
    } else {
      i, k := last, n - RunCount(tasks[..last]);
    }
  }

  /** A work order has one list of previews. */
  lemma PreviewsAreUnique(a: seq<Preview>, b: seq<Preview>, p: Prompts, tasks: seq<Task>, agents: seq<Agent>)
    requires PreviewsOf(a, p, tasks, agents) && PreviewsOf(b, p, tasks, agents)
    ensures a == b
  {
    forall n | 0 <= n < |a| ensures a[n] == b[n] {
      var i, k := PlaceOf(tasks, n);
      assert PreviewAt(a, p, tasks, agents, i, k) && PreviewAt(b, p, tasks, agents, i, k);
    }
  }

  /** The token is that of the previews of the work order. */
  ghost predicate Confirms(hash: seq<byte> -> seq<byte>, p: Prompts, tasks: seq<Task>, agents: seq<Agent>, token: string) {
    exists previews :: PreviewsOf(previews, p, tasks, agents) && token == Token(hash, previews)
  }

  /** Execution starts exactly with the token of a runnable plan as it is now. */
  method ValidateConfirmation(hash: seq<byte> -> seq<byte>, p: Prompts, tasks: seq<Task>, agents: seq<Agent>, token: string)
    returns (r: Outcome<PlanError>)
    ensures r.Pass? <==> WithinLimits(tasks) && Runnable(tasks, agents) && Confirms(hash, p, tasks, agents, token)
    ensures r == Fail(NotConfirmed) <==> WithinLimits(tasks) && Runnable(tasks, agents) && !Confirms(hash, p, tasks, agents, token)
  {
    hide WithinLimits, Runnable, Token, PreviewsOf;
    var created := CreatePreviews(p, tasks, agents);
    if created.Err? { return Fail(created.error); }
    var estimate := CreateEstimate(hash, created.value);
    forall previews | PreviewsOf(previews, p, tasks, agents) ensures previews == created.value {
      PreviewsAreUnique(previews, created.value, p, tasks, agents);
    }
    if token != estimate.token { return Fail(NotConfirmed); }
    return Pass;
  }

  /** What the user saw is what is sent: if the token shown with one list of previews is accepted for a
      work order, the work order's own previews have the same ids, agents and prompts. */
  lemma ConfirmedMeansSeen(hash: seq<byte> -> seq<byte>, p: Prompts, tasks: seq<Task>, agents: seq<Agent>,
                           shown: seq<Preview>, previews: seq<Preview>, i: nat, k: nat)
    requires TellsApart(hash) && AllFit(shown) && AllFit(previews)
    requires PreviewsOf(previews, p, tasks, agents) && Token(hash, shown) == Token(hash, previews)
    requires i < |tasks| && k < |tasks[i].agentIds|
    ensures |shown| == RunCount(tasks)
    ensures var at, agent := RunCount(tasks[..i]) + k, FindAgent(agents, tasks[i].agentIds[k]);
      && at < |shown| && agent.Some? && shown[at].taskId == tasks[i].id && shown[at].agentId == tasks[i].agentIds[k]
      && shown[at].systemPrompt == p.system(tasks[i], agent.value) && shown[at].userPrompt == p.user(tasks[i], agent.value)
  {
    hide *;
    TokenMeansPlan(hash, shown, previews);
    SeenAt(p, tasks, agents, shown, previews, i, k);
  }

  lemma SeenAt(p: Prompts, tasks: seq<Task>, agents: seq<Agent>, shown: seq<Preview>, previews: seq<Preview>, i: nat, k: nat)
    requires SamePlan(shown, previews) && PreviewsOf(previews, p, tasks, agents)
    requires i < |tasks| && k < |tasks[i].agentIds|
    ensures |shown| == RunCount(tasks)
    ensures var at, agent := RunCount(tasks[..i]) + k, FindAgent(agents, tasks[i].agentIds[k]);
      && at < |shown| && agent.Some? && shown[at].taskId == tasks[i].id && shown[at].agentId == tasks[i].agentIds[k]
      && shown[at].systemPrompt == p.system(tasks[i], agent.value) && shown[at].userPrompt == p.user(tasks[i], agent.value)
  {
    assert PreviewAt(previews, p, tasks, agents, i, k);
    FoundIsFirst(agents, tasks[i].agentIds[k]);
  }

  /** The first agent with the id is found, if there is one. */
  lemma {:induction false} FoundIsFirst(agents: seq<Agent>, id: string)
    ensures match FindAgent(agents, id)
      case Some(a) => exists i | 0 <= i < |agents| :: agents[i] == a && a.id == id && forall j | 0 <= j < i :: agents[j].id != id
      case None => forall a | a in agents :: a.id != id
  {
    if agents != [] && agents[0].id != id {
      FoundIsFirst(agents[1..], id);
      var found := FindAgent(agents[1..], id);
      if found.Some? {
        var i :| 0 <= i < |agents[1..]| && agents[1..][i] == found.value && found.value.id == id
          && forall j | 0 <= j < i :: agents[1..][j].id != id;
        assert agents[i+1] == found.value && forall j | 0 < j < i + 1 :: agents[j] == agents[1..][j-1];
      }
    }
  }
}
