/** The script that runs a task's commands and publishes what became of them.

    A record is published before and after every command. The end of the command's output goes into it, cut
    so that no character is broken, and cut further while the record is too large. A publication that fails
    ends the script. Texts are UTF-16 code units, as PowerShell sees them.
 */
module RunPublication {
  import opened Prelude
  import opened Texts

  newtype Unit = x: int | 0 <= x < 0x1_0000

  type Text = seq<Unit>

  const TAIL_UNITS := 16384
  const RECORD_BYTES := 1048576
  const ATTEMPTS := 8
  const RETRIED := {5, 32, 33}

  datatype TaskState = Running | Succeeded | Failed

  /** `rest` stands for the id, task, repository, command, start and paths of the run. */
  datatype Record = Record(rest: string, state: TaskState, exitCode: Option<int>, finishedAt: Option<string>, outputTail: Option<Text>)

  // ---------------------------------------------------------------- well-formed text

  predicate IsHigh(u: Unit) { 0xD800 <= u <= 0xDBFF }

  predicate IsLow(u: Unit) { 0xDC00 <= u <= 0xDFFF }

  /** Every high surrogate is followed by a low one, and every low one follows a high one. */
  predicate WellFormed(s: Text) {
    if s == [] then true
    else if IsHigh(s[0]) then |s| > 1 && IsLow(s[1]) && WellFormed(s[2..])
    else !IsLow(s[0]) && WellFormed(s[1..])
  }

  /** A character in UTF-16, by section 2.1 of RFC 2781. */
  function Utf16Char(c: char): Text {
    var n := c as int;
    if n < 0x1_0000 then [n as Unit]
    else [(0xD800 + (n - 0x1_0000) / 0x400) as Unit, (0xDC00 + (n - 0x1_0000) % 0x400) as Unit]
  }

  function Utf16(s: string): Text {
    if s == [] then [] else Utf16Char(s[0]) + Utf16(s[1..])
  }

  /** The character that two surrogates stand for. */
  function PairChar(high: Unit, low: Unit): char
    requires IsHigh(high) && IsLow(low)
  {
    (0x1_0000 + (high as int - 0xD800) * 0x400 + (low as int - 0xDC00)) as char
  }

  lemma {:induction false} EncodedIsWellFormed(t: string)
    ensures WellFormed(Utf16(t))
  {
    if t != [] {
      EncodedIsWellFormed(t[1..]);
      assert Utf16(t)[|Utf16Char(t[0])|..] == Utf16(t[1..]);
    }
  }

  lemma {:induction false} WellFormedIsEncoded(s: Text) returns (t: string)
    requires WellFormed(s)
    ensures s == Utf16(t)
  {
    if s == [] {
      t := [];
    } else {
      var n := if IsHigh(s[0]) then 2 else 1;
      var c := if IsHigh(s[0]) then PairChar(s[0], s[1]) else s[0] as char;
      var rest := WellFormedIsEncoded(s[n..]);
      t := [c] + rest;
      assert t[1..] == rest && s == Utf16Char(c) + s[n..];
    }
  }

  /** The well-formed texts are the encodings of characters. */
  lemma WellFormedIff(s: Text)
    ensures WellFormed(s) <==> exists t :: s == Utf16(t)
  {
    if WellFormed(s) { var t := WellFormedIsEncoded(s); }
    if t :| s == Utf16(t) { EncodedIsWellFormed(t); }
  }

  /** A well-formed text may be cut before anything but a low surrogate. */
  lemma {:induction false} SuffixIsWellFormed(s: Text, i: nat)
    requires WellFormed(s) && i <= |s| && (i < |s| ==> !IsLow(s[i]))
    ensures WellFormed(s[i..])
    decreases |s|
  {
    if i == 0 {
      assert s[i..] == s;
    } else if IsHigh(s[0]) {
      assert s[2..][i-2..] == s[i..];
      SuffixIsWellFormed(s[2..], i - 2);
    } else {
      assert s[1..][i-1..] == s[i..];
      SuffixIsWellFormed(s[1..], i - 1);
    }
  }

  /** Behind a low surrogate the next character begins. */
  lemma {:induction false} OneLowOnly(s: Text, i: nat)
    requires WellFormed(s) && i < |s| && IsLow(s[i])
    ensures i > 0 && IsHigh(s[i-1]) && (i + 1 < |s| ==> !IsLow(s[i+1]))
    decreases |s|
  {
    if IsHigh(s[0]) {
      if i > 1 {
        OneLowOnly(s[2..], i - 2);
      } else if |s| > 2 {
        assert !IsLow(s[2..][0]);
      }
    } else {
      OneLowOnly(s[1..], i - 1);
    }
  }

  /** Where a cut really begins: one unit later if it would fall into the middle of a character. */
  function CutAt(s: Text, start: nat): nat {
    if start < |s| && IsLow(s[start]) then start + 1 else start
  }

  lemma CutIsWellFormed(s: Text, start: nat)
    requires WellFormed(s) && CutAt(s, start) <= |s|
    ensures WellFormed(s[CutAt(s, start)..])
  {
    if start < |s| && IsLow(s[start]) { OneLowOnly(s, start); }
    SuffixIsWellFormed(s, CutAt(s, start));
  }

  predicate IsWhite(u: Unit) { !IsHigh(u) && !IsLow(u) && IsSpace(u as char) }

  predicate IsBlank(s: Text) { forall i | 0 <= i < |s| :: IsWhite(s[i]) }

  /** The end of the output that a record may carry; blank output is left out. */
  function OutputTail(output: Text): Option<Text> {
    var cut := if |output| > TAIL_UNITS then output[CutAt(output, |output| - TAIL_UNITS)..] else output;
    if IsBlank(cut) then None else Some(cut)
  }

  ghost predicate IsSuffix(tail: Text, of: Text) {
    |tail| <= |of| && of[|of|-|tail|..] == tail
  }

  /** What is kept of a tail: nothing, or an end of it that breaks no character. */
  ghost predicate KeptOf(kept: Option<Text>, of: Text) {
    kept.Some? ==> kept.value != [] && IsSuffix(kept.value, of) && (WellFormed(of) ==> WellFormed(kept.value))
  }

  lemma OutputTailIsKept(output: Text)
    ensures KeptOf(OutputTail(output), output)
    ensures OutputTail(output).Some? ==> |OutputTail(output).value| <= TAIL_UNITS
    ensures OutputTail(output).Some? ==> !IsBlank(OutputTail(output).value)
    ensures |output| <= TAIL_UNITS && !IsBlank(output) ==> OutputTail(output) == Some(output)
  {
    if |output| > TAIL_UNITS {
      var start := CutAt(output, |output| - TAIL_UNITS);
      if WellFormed(output) { CutIsWellFormed(output, |output| - TAIL_UNITS); }
      assert output[|output| - |output[start..]|..] == output[start..];
    } else {
      assert output[0..] == output;
    }
  }

  /** A text has no longer end that breaks no character and is not too long; nothing is left out but what
      is blank. */
  lemma OutputTailIsLongest(output: Text, t: Text)
    requires WellFormed(output) && IsSuffix(t, output) && WellFormed(t) && |t| <= TAIL_UNITS
    ensures OutputTail(output).Some? ==> |t| <= |OutputTail(output).value|
    ensures OutputTail(output).None? ==> IsBlank(t)
  {
    var cut := if |output| > TAIL_UNITS then output[CutAt(output, |output| - TAIL_UNITS)..] else output;
    assert t != [] ==> t[0] == output[|output|-|t|];
    assert |t| <= |cut|;
    forall i | 0 <= i < |t| ensures t[i] == cut[|cut|-|t|+i] {
      assert t[i] == output[|output|-|t|+i];
    }
  }

  // ---------------------------------------------------------------- the byte limit

  /** A tail without its first quarter. */
  function Shorter(tail: Text): Option<Text> {
    var start := CutAt(tail, (|tail| + 3) / 4);
    if start >= |tail| then None else Some(tail[start..])
  }

  lemma ShorterIsKept(tail: Text, of: Text)
    requires tail != [] && KeptOf(Some(tail), of)
    ensures KeptOf(Shorter(tail), of)
    ensures Shorter(tail).Some? ==> |Shorter(tail).value| < |tail| && 4 * |Shorter(tail).value| <= 3 * |tail|
  {
    var start := CutAt(tail, (|tail| + 3) / 4);
    if start < |tail| {
      if WellFormed(of) { CutIsWellFormed(tail, (|tail| + 3) / 4); }
      assert of[|of| - |tail[start..]|..] == of[|of| - |tail|..][start..];
    }
  }

  /** There is no longer end of at most three quarters that breaks no character. */
  lemma ShorterIsLongest(tail: Text, t: Text)
    requires WellFormed(tail) && IsSuffix(t, tail) && WellFormed(t) && 4 * |t| <= 3 * |tail|
    ensures if Shorter(tail).Some? then |t| <= |Shorter(tail).value| else t == []
  {
    assert t != [] ==> t[0] == tail[|tail|-|t|];
  }

  /** The tail without its first quarter, `k` times; once nothing is left, nothing stays. */
  function Quarters(tail: Option<Text>, k: nat): Option<Text> {
    if k == 0 then tail
    else
      var t := Quarters(tail, k - 1);
      if t.None? then None else Shorter(t.value)
  }

  /** The record with the tail cut so often. */
  function Cut(r: Record, k: nat): Record { r.(outputTail := Quarters(r.outputTail, k)) }

  /** `size` is the length in bytes of a record's JSON text. */
  ghost predicate FitsFirst(size: Record -> nat, r: Record, k: nat) {
    size(Cut(r, k)) <= RECORD_BYTES && TooLargeBefore(size, r, k)
  }

  ghost predicate TooLargeBefore(size: Record -> nat, r: Record, k: nat) {
    forall j | 0 <= j < k :: size(Cut(r, j)) > RECORD_BYTES
  }

  ghost predicate NeverFits(size: Record -> nat, r: Record) {
    forall k: nat :: size(Cut(r, k)) > RECORD_BYTES
  }

  lemma {:induction false} NothingStays(r: Record, k: nat, m: nat)
    requires Cut(r, k).outputTail.None? && k <= m
    ensures Cut(r, m) == Cut(r, k)
    decreases m
  {
    if k < m { NothingStays(r, k, m - 1); }
  }

  lemma NothingLeftToCut(size: Record -> nat, r: Record, k: nat)
    requires Cut(r, k).outputTail.None? && size(Cut(r, k)) > RECORD_BYTES
    requires TooLargeBefore(size, r, k)
    ensures NeverFits(size, r)
  {
    forall m: nat ensures size(Cut(r, m)) > RECORD_BYTES {
      if k <= m { NothingStays(r, k, m); }
    }
  }

  /** The record after `k` quarters were dropped, all shorter cuts having been too few. */
  ghost predicate CutSoFar(size: Record -> nat, record: Record, current: Record, k: nat) {
    && current == Cut(record, k) && TooLargeBefore(size, record, k)
    && (record.outputTail.None? ==> current == record)
    && (record.outputTail.Some? ==> KeptOf(current.outputTail, record.outputTail.value))
    && (current.outputTail.Some? ==> current.outputTail.value != [])
  }

  lemma NotCutYet(size: Record -> nat, r: Record)
    requires r.outputTail.Some? ==> r.outputTail.value != []
    ensures CutSoFar(size, r, r, 0)
  {
    if r.outputTail.Some? { WholeIsKept(r.outputTail.value); }
  }

  lemma OneQuarterLess(size: Record -> nat, record: Record, current: Record, k: nat)
    requires CutSoFar(size, record, current, k) && current.outputTail.Some? && size(current) > RECORD_BYTES
    ensures CutSoFar(size, record, current.(outputTail := Shorter(current.outputTail.value)), k + 1)
    ensures Shorter(current.outputTail.value).Some? ==> |Shorter(current.outputTail.value).value| < |current.outputTail.value|
  {
    hide WellFormed, KeptOf, Shorter;
    ShorterIsKept(current.outputTail.value, record.outputTail.value);
    KeptIsSome(Shorter(current.outputTail.value), record.outputTail.value);
  }

  lemma JustFits(size: Record -> nat, record: Record, current: Record, k: nat)
    requires CutSoFar(size, record, current, k) && size(current) <= RECORD_BYTES
    ensures IsCut(size, record, current) && !NeverFits(size, record)
  {
    assert FitsFirst(size, record, k);
  }

  lemma DoesNotFit(size: Record -> nat, record: Record, current: Record, k: nat)
    requires CutSoFar(size, record, current, k) && current.outputTail.None? && size(current) > RECORD_BYTES
    ensures NeverFits(size, record)
  {
    NothingLeftToCut(size, record, k);
  }

  /** The first of the record and its cuts that is within the limit. */
  ghost predicate IsCut(size: Record -> nat, record: Record, cut: Record) {
    && (exists k: nat :: cut == Cut(record, k) && FitsFirst(size, record, k))
    && size(cut) <= RECORD_BYTES && cut == record.(outputTail := cut.outputTail)
    && (record.outputTail.Some? ==> KeptOf(cut.outputTail, record.outputTail.value))
    && (record.outputTail.None? ==> cut == record)
  }

  /** Drops quarters of the tail until the record fits. Fails only when it does not fit without any. */
  method FitRecord(size: Record -> nat, record: Record) returns (r: Option<Record>)
    requires record.outputTail.Some? ==> record.outputTail.value != []
    ensures r.None? <==> NeverFits(size, record)
    ensures r.Some? ==> IsCut(size, record, r.value)
  {
    var current := record;
    ghost var k: nat := 0;
    NotCutYet(size, record);
    hide CutSoFar, NeverFits, IsCut, Shorter;
    while size(current) > RECORD_BYTES
      invariant CutSoFar(size, record, current, k)
      decreases if current.outputTail.Some? then 1 + |current.outputTail.value| else 0
    {
      if current.outputTail.None? || current.outputTail.value == [] {
        NeverEmpty(size, record, current, k);
        DoesNotFit(size, record, current, k);
        return None;
      }
      OneQuarterLess(size, record, current, k);
      var shorter := DropQuarter(current.outputTail.value);
      current := current.(outputTail := shorter);
      k := k + 1;
    }
    JustFits(size, record, current, k);
    return Some(current);
  }

  lemma NeverEmpty(size: Record -> nat, record: Record, current: Record, k: nat)
    requires CutSoFar(size, record, current, k)
    ensures current.outputTail != Some([])
  {
  }

  lemma KeptIsSome(kept: Option<Text>, of: Text)
    requires KeptOf(kept, of)
    ensures kept != Some([])
  {
  }

  method DropQuarter(tail: Text) returns (r: Option<Text>)
    ensures r == Shorter(tail)
  {
    var start := (|tail| + 3) / 4;
    if start < |tail| && IsLow(tail[start]) { start := start + 1; }
    return if start >= |tail| then None else Some(tail[start..]);
  }

  lemma WholeIsKept(tail: Text)
    requires tail != []
    ensures KeptOf(Some(tail), tail)
  {
    assert tail[0..] == tail;
  }

  // ---------------------------------------------------------------- what a run may look like

  /** How a command ended: whether it threw, the exit code of its last program if it ran one, and whether
      its last statement succeeded. */
  datatype Ending = Ending(threw: bool, lastExitCode: Option<int>, succeeded: bool)

  /** A command that throws, or that fails without an exit code, counts as 1. */
  function CodeOf(e: Ending): int {
    if e.threw then 1 else if e.lastExitCode.Some? then e.lastExitCode.value else if e.succeeded then 0 else 1
  }

  predicate EndedWell(e: Ending) {
    !e.threw && (e.lastExitCode == Some(0) || (e.lastExitCode == None && e.succeeded))
  }

  datatype Event =
    | Published(state: TaskState, exitCode: Option<int>)
    | NotPublished(state: TaskState)
    | Started(command: nat)
    | Ended(command: nat, ending: Ending)

  /** All that happens from command `k` on, if every publication succeeds and command `i` ends with
      `endings[i]`. */
  function Script(endings: seq<Ending>, k: nat): seq<Event>
    decreases |endings| - k
  {
    if k >= |endings| then []
    else
      [Published(Running, None), Started(k), Ended(k, endings[k])]
      + (if CodeOf(endings[k]) != 0 then [Published(Failed, Some(CodeOf(endings[k])))]
         else if k == |endings| - 1 then [Published(Succeeded, Some(0))]
         else [Published(Running, None)] + Script(endings, k + 1))
  }

  /** The script ran to its end, or up to a publication that failed. */
  ghost predicate IsRun(log: seq<Event>, endings: seq<Ending>) {
    log == Script(endings, 0) || StoppedIn(log, Script(endings, 0))
  }

  ghost predicate StoppedIn(log: seq<Event>, script: seq<Event>) {
    && log != [] && |log| <= |script|
    && log[..|log|-1] == script[..|log|-1]
    && log[|log|-1].NotPublished? && script[|log|-1].Published? && script[|log|-1].state == log[|log|-1].state
  }

  predicate Terminal(e: Event) { e.Published? && e.state != Running }

  lemma {:induction false} ScriptShape(endings: seq<Ending>, k: nat)
    requires k < |endings|
    ensures var s := Script(endings, k);
      && s != [] && Terminal(s[|s|-1])
      && (forall i | 0 <= i < |s| - 1 :: !Terminal(s[i]))
      && (s[|s|-1].state == Succeeded ==> forall i | k <= i < |endings| :: EndedWell(endings[i]))
      && (s[|s|-1].state == Failed ==> s[|s|-1].exitCode.Some? && s[|s|-1].exitCode.value != 0)
      && (forall i | 0 <= i < |s| :: !s[i].NotPublished?)
    decreases |endings| - k
  {
    if CodeOf(endings[k]) == 0 && k < |endings| - 1 { ScriptShape(endings, k + 1); }
  }

  /** Some running records, then at most one terminal one and nothing after it; "succeeded" only when every
      command ended well; after a failed publication nothing happens at all. */
  lemma {:induction false} RunsEndOnce(log: seq<Event>, endings: seq<Ending>)
    requires IsRun(log, endings)
    ensures forall i | 0 <= i < |log| - 1 :: !Terminal(log[i]) && !log[i].NotPublished?
    ensures log != [] && Terminal(log[|log|-1]) && log[|log|-1].state == Succeeded ==>
      forall i | 0 <= i < |endings| :: EndedWell(endings[i])
    ensures endings != [] && log == Script(endings, 0) ==> Terminal(log[|log|-1])
  {
    if endings != [] {
      ScriptShape(endings, 0);
      var s := Script(endings, 0);
      if StoppedIn(log, s) {
        assert forall i | 0 <= i < |log| - 1 :: log[i] == log[..|log|-1][i] && s[i] == s[..|log|-1][i];
      }
    }
  }

  /** Every command starts whose predecessors all ended well, and no other. */
  lemma {:induction false} WhichStart(endings: seq<Ending>, k: nat, c: nat)
    requires k <= |endings|
    ensures Started(c) in Script(endings, k) <==> k <= c < |endings| && forall i | k <= i < c :: EndedWell(endings[i])
    decreases |endings| - k
  {
    if k < |endings| {
      var head := [Published(Running, None), Started(k), Ended(k, endings[k])];
      assert Started(c) in head <==> c == k;
      WhichStart(endings, k + 1, c);
      assert EndedWell(endings[k]) <==> CodeOf(endings[k]) == 0;
    }
  }

  /** What comes around each start: a running record before it, the end of the command and a record of its
      exit code behind it; and all commands with smaller numbers have started before. */
  ghost predicate StartsAt(s: seq<Event>, endings: seq<Ending>, i: nat)
    requires i < |s| && s[i].Started?
  {
    && 0 < i && i + 2 < |s| && s[i].command < |endings| && s[i-1] == Published(Running, None)
    && s[i+1] == Ended(s[i].command, endings[s[i].command])
    && s[i+2] == (if CodeOf(endings[s[i].command]) != 0 then Published(Failed, Some(CodeOf(endings[s[i].command])))
                  else if i + 3 == |s| then Published(Succeeded, Some(0)) else Published(Running, None))
    && forall j | i < j < |s| && s[j].Started? :: s[i].command < s[j].command
  }

  lemma {:induction false} HowTheyStart(endings: seq<Ending>, k: nat)
    requires k <= |endings|
    ensures forall i | 0 <= i < |Script(endings, k)| && Script(endings, k)[i].Started? ::
      k <= Script(endings, k)[i].command && StartsAt(Script(endings, k), endings, i)
    decreases |endings| - k
  {
    if k < |endings| && CodeOf(endings[k]) == 0 && k < |endings| - 1 {
      HowTheyStart(endings, k + 1);
      ScriptShape(endings, k + 1);
      var rest, s := Script(endings, k + 1), Script(endings, k);
      assert forall j | 4 <= j < |s| :: s[j] == rest[j-4];
      forall i | 0 <= i < |s| && s[i].Started? ensures k <= s[i].command && StartsAt(s, endings, i) {
        if i >= 4 { assert StartsAt(rest, endings, i - 4); }
      }
    }
  }

  lemma {:induction false} NothingAfterFailure(endings: seq<Ending>, k: nat, i: nat, j: nat)
    requires k <= |endings| && i < j < |Script(endings, k)|
    requires Script(endings, k)[i].Ended? && CodeOf(Script(endings, k)[i].ending) != 0
    ensures !Script(endings, k)[j].Started?
    decreases |endings| - k
  {
    var head := [Published(Running, None), Started(k), Ended(k, endings[k])];
    if CodeOf(endings[k]) == 0 && k < |endings| - 1 {
      var rest := Script(endings, k + 1);
      assert Script(endings, k) == (head + [Published(Running, None)]) + rest;
      NothingAfterFailure(endings, k + 1, i - 4, j - 4);
    }
  }

  /** No command starts after one that did not end well. */
  lemma NoCommandAfterFailure(log: seq<Event>, endings: seq<Ending>, i: nat, j: nat)
    requires IsRun(log, endings) && i < j < |log| && log[i].Ended? && !EndedWell(log[i].ending)
    ensures !log[j].Started?
  {
    var s := Script(endings, 0);
    if log == s {
      NothingAfterFailure(endings, 0, i, j);
    } else if j < |log| - 1 {
      assert log[i] == log[..|log|-1][i] && log[j] == log[..|log|-1][j];
      assert s[i] == s[..|log|-1][i] && s[j] == s[..|log|-1][j];
      NothingAfterFailure(endings, 0, i, j);
    }
  }

  // ---------------------------------------------------------------- the records of a run

  /** The publications of a log, in order. */
  function Reports(log: seq<Event>): seq<Event> {
    if log == [] then []
    else Reports(log[..|log|-1]) + if log[|log|-1].Published? then [log[|log|-1]] else []
  }

  lemma ReportsSnoc(log: seq<Event>, e: Event)
    ensures Reports(log + [e]) == if e.Published? then Reports(log) + [e] else Reports(log)
  {
    assert (log + [e])[..|log|] == log;
  }

  /** The records say what the publications say, one for each of them. */
  ghost predicate Says(published: seq<Record>, reports: seq<Event>) {
    && |published| == |reports|
    && forall i | 0 <= i < |reports| ::
         reports[i].Published? && published[i].state == reports[i].state && published[i].exitCode == reports[i].exitCode
  }

  lemma NothingReported(log: seq<Event>, k: nat, ending: Ending)
    ensures Reports(log + [Started(k), Ended(k, ending)]) == Reports(log)
  {
    hide Reports;
    ReportsSnoc(log, Started(k));
    ReportsSnoc(log + [Started(k)], Ended(k, ending));
    assert log + [Started(k), Ended(k, ending)] == (log + [Started(k)]) + [Ended(k, ending)];
  }

  lemma SaysOneMore(published: seq<Record>, log: seq<Event>, record: Record)
    requires Says(published, Reports(log))
    ensures Says(published + [record], Reports(log + [Published(record.state, record.exitCode)]))
  {
    hide Reports;
    ReportsSnoc(log, Published(record.state, record.exitCode));
  }

  lemma {:induction false} LastReport(log: seq<Event>)
    requires forall i | 0 <= i < |log| - 1 :: !Terminal(log[i])
    ensures forall i | 0 <= i < |Reports(log)| :: Reports(log)[i].Published?
    ensures forall i | 0 <= i < |Reports(log)| - 1 :: Reports(log)[i].state == Running
    ensures Reports(log) != [] && Reports(log)[|Reports(log)|-1].state != Running ==> Reports(log)[|Reports(log)|-1] == log[|log|-1]
  {
    if log != [] {
      var before := log[..|log|-1];
      assert forall i | 0 <= i < |before| :: before[i] == log[i] && !Terminal(before[i]);
      LastReport(before);
    }
  }

  /** What the records of a run say: all but the last say it is running, and one says it succeeded only
      when every command ended well. */
  lemma RecordsAreHonest(published: seq<Record>, log: seq<Event>, endings: seq<Ending>)
    requires IsRun(log, endings) && Says(published, Reports(log))
    ensures forall i | 0 <= i < |published| - 1 :: published[i].state == Running
    ensures forall r | r in published && r.state == Succeeded :: forall i | 0 <= i < |endings| :: EndedWell(endings[i])
  {
    RunsEndOnce(log, endings);
    LastReport(log);
  }

  /** A record of this state and exit code, with a well-formed end of the output. */
  ghost predicate Describes(r: Record, state: TaskState, exitCode: Option<int>, output: Text) {
    && r.state == state && r.exitCode == exitCode && (r.finishedAt.None? <==> state == Running)
    && KeptOf(r.outputTail, output) && (r.outputTail.Some? ==> |r.outputTail.value| <= TAIL_UNITS)
  }

  lemma DescribesState(r: Record, state: TaskState, exitCode: Option<int>, output: Text)
    requires Describes(r, state, exitCode, output)
    ensures r.state == state && r.exitCode == exitCode
  {
  }

  // ---------------------------------------------------------------- the program

  class TrackedRun {
    const size: Record -> nat
    const identity: string
    var published: seq<Record>
    var log: seq<Event>
    /** Every attempt to move a record into place: the error it gave, if any. */
    var tries: seq<Option<nat>>
    /** How often another system call failed. */
    var failures: nat

    constructor (size: Record -> nat, identity: string)
      ensures this.size == size && this.identity == identity && published == [] && log == [] && tries == [] && failures == 0
    {
      this.size, this.identity, published, log, tries, failures := size, identity, [], [], [], 0;
    }

    /** Every published record is within the limit and about this run, and the records say what the log
        says. */
    ghost predicate Valid()
      reads this
    {
      (forall r | r in published :: size(r) <= RECORD_BYTES && r.rest == identity) && Says(published, Reports(log))
    }

    /** A reason to stop: a record of this run that is too large without any output, a system call that
        failed, or a last attempt to move a record that did. */
    ghost predicate MustStop(failuresBefore: nat)
      reads this
    {
      || failures > failuresBefore
      || (tries != [] && tries[|tries|-1].Some?)
      || exists r: Record :: r.rest == identity && NeverFits(size, r)
    }

    /** Writing the record to a temporary file. */
    method SystemCallFails() returns (fails: bool)
      modifies this`failures
      ensures failures == old(failures) + if fails then 1 else 0
    {
      fails := *;
      if fails { failures := failures + 1; }
    }

    /** The system call that replaces the published record. */
    method TryMove(record: Record) returns (error: Option<nat>)
      modifies this`published, this`tries
      ensures published == (if error.None? then old(published) + [record] else old(published))
      ensures tries == old(tries) + [error]
    {
      var moved: bool, code: nat := *, *;
      error := if moved then None else Some(code);
      tries := tries + [error];
      if moved { published := published + [record]; }
    }

    /** Moves the record into place. Conflicts with readers are tried again, up to eight times in all. */
    method Publish(record: Record) returns (done: bool)
      modifies this`published, this`tries
      ensures published == (if done then old(published) + [record] else old(published))
      ensures |old(tries)| < |tries| <= |old(tries)| + ATTEMPTS && old(tries) <= tries
      ensures done <==> tries[|tries|-1] == None
      ensures forall i | |old(tries)| <= i < |tries| - 1 :: tries[i].Some? && tries[i].value in RETRIED
      ensures !done ==> |tries| == |old(tries)| + ATTEMPTS || tries[|tries|-1].value !in RETRIED
    {
      for attempt := 0 to ATTEMPTS
        invariant |tries| == |old(tries)| + attempt && old(tries) <= tries && published == old(published)
        invariant forall i | |old(tries)| <= i < |tries| :: tries[i].Some? && tries[i].value in RETRIED
      {
        var error := TryMove(record);
        if error.None? { return true; }
        if attempt == ATTEMPTS - 1 || error.value !in RETRIED { return false; }
      }
      return false;
    }

    /** The record to publish, cut until it is within the limit: `whole` is the record before any cut. */
    method MakeRecord(state: TaskState, exitCode: Option<int>, output: Text) returns (r: Option<Record>, ghost whole: Record)
      ensures whole == Record(identity, state, exitCode, whole.finishedAt, OutputTail(output))
      ensures whole.finishedAt.None? <==> state == Running
      ensures r.None? <==> NeverFits(size, whole)
      ensures r.Some? ==> IsCut(size, whole, r.value) && Describes(r.value, state, exitCode, output)
    {
      OutputTailIsKept(output);
      var now: string := *;
      var record := Record(identity, state, exitCode, if state == Running then None else Some(now), OutputTail(output));
      whole := record;
      hide KeptOf, OutputTail, FitsFirst, NeverFits;
      r := FitRecord(size, record);
      if r.Some? && record.outputTail.Some? { KeptOfKept(r.value.outputTail, record.outputTail.value, output); }
    }

    /** Writes one record. On success it replaces the published one; on failure nothing is replaced. */
    method WriteRecord(state: TaskState, exitCode: Option<int>, output: Text) returns (done: bool, ghost whole: Record)
      requires Valid()
      modifies this
      ensures Valid()
      ensures done ==> log == old(log) + [Published(state, exitCode)] && |published| == |old(published)| + 1
      ensures done ==> old(published) < published && Describes(published[|old(published)|], state, exitCode, output)
      ensures !done ==> log == old(log) + [NotPublished(state)] && published == old(published)
      ensures whole.exitCode == exitCode && whole.state == state && whole.outputTail == OutputTail(output) && whole.rest == identity
      ensures done ==> IsCut(size, whole, published[|old(published)|])
      ensures !done ==> MustStop(old(failures))
      ensures failures >= old(failures)
    {
      hide Describes, Reports, Says, FitsFirst, NeverFits, OutputTail;
      var record;
      record, whole := MakeRecord(state, exitCode, output);
      done := false;
      if record.Some? {
        DescribesState(record.value, state, exitCode, output);
        var fails := SystemCallFails();
        if !fails {
          done := Publish(record.value);
        }
      }
      if done {
        SaysOneMore(published[..|published|-1], log, record.value);
        assert published == published[..|published|-1] + [record.value];
        log := log + [Published(state, exitCode)];
      } else {
        ReportsSnoc(log, NotPublished(state));
        log := log + [NotPublished(state)];
      }
    }

    /** What the commands do: start, and end in some way with some output. */
    method Invoke(k: nat) returns (ending: Ending, output: Text)
      modifies this`log
      ensures log == old(log) + [Started(k), Ended(k, ending)]
    {
      ending, output := *, *;
      log := log + [Started(k), Ended(k, ending)];
    }

    /** Runs one command and finds out its exit code. */
    method RunCommand(k: nat) returns (code: int, output: Text, ghost ending: Ending)
      requires Valid()
      modifies this`log
      ensures Valid() && log == old(log) + [Started(k), Ended(k, ending)]
      ensures code == CodeOf(ending) && (code == 0 <==> EndedWell(ending))
    {
      hide Reports, Says;
      var outcome;
      outcome, output := Invoke(k);
      ending := outcome;
      code := 0;
      if outcome.threw {
        code := 1;
      } else if outcome.lastExitCode.Some? {
        code := outcome.lastExitCode.value;
      } else if !outcome.succeeded {
        code := 1;
      }
      NothingReported(old(log), k, ending);
    }

    /** One command and the two records around it. Says whether the script goes on. */
    method RunTracked(k: nat, n: nat, ghost endings: seq<Ending>) returns (goesOn: bool, ghost known: seq<Ending>)
      requires Valid() && k < n == |endings| && Reached(log, endings, k, n)
      modifies this
      ensures Valid() && |known| == n
      ensures if goesOn then Reached(log, known, k + 1, n) else IsRun(log, known)
      ensures !goesOn && log != Script(known, 0) ==> MustStop(old(failures))
      ensures failures >= old(failures)
    {
      known := endings;
      ghost var start := log;
      hide Valid, Reached, IsRun, CodeOf, Script, MustStop, Describes, NeverFits, IsCut, OutputTail;
      ghost var whole;
      var written;
      written, whole := WriteRecord(Running, None, []);
      if !written {
        StopsBefore(start, endings, k, n);
        return false, known;
      }
      var code, output;
      ghost var ending;
      code, output, ending := RunCommand(k);
      known := endings[k := ending];
      var final := k == n - 1;
      var state := if code != 0 then Failed else if final then Succeeded else Running;
      var exitCode := if code != 0 then Some(code) else if final then Some(0) else None;
      CommandEnded(start, endings, k, n, ending, state, exitCode);
      assert log == start + [Published(Running, None), Started(k), Ended(k, ending)];
      ghost var middle := failures;
      written, whole := WriteRecord(state, exitCode, output);
      if !written {
        assert log == start + [Published(Running, None), Started(k), Ended(k, ending)] + [NotPublished(state)];
        StopsAsWell(middle, old(failures));
        return false, known;
      }
      assert log == start + [Published(Running, None), Started(k), Ended(k, ending)] + [Published(state, exitCode)];
      if code != 0 { PublishedToTheEnd(log, known); }
      return code == 0, known;
    }

    /** The whole script for `n` commands. */
    method Run(n: nat)
      requires Valid() && log == []
      modifies this
      ensures Valid() && exists endings: seq<Ending> :: |endings| == n && IsRun(log, endings)
                                                        && (log != Script(endings, 0) ==> MustStop(old(failures)))
    {
      ghost var endings := seq(n, _ => Ending(false, None, true));
      NothingYet(endings);
      hide Valid, Reached, IsRun, Script, MustStop;
      var k := 0;
      while k < n
        invariant k <= n && Valid() && |endings| == n && Reached(log, endings, k, n) && failures >= old(failures)
      {
        var goesOn;
        ghost var before := failures;
        goesOn, endings := RunTracked(k, n, endings);
        if !goesOn {
          StopsAsWell(before, old(failures));
          return;
        }
        k := k + 1;
      }
      AllDone(log, endings);
    }

    lemma StopsAsWell(later: nat, earlier: nat)
      requires earlier <= later
      ensures MustStop(later) ==> MustStop(earlier)
    {
    }
  }

  /** The first `k` of `n` commands ended with exit code 0 and all was published. */
  ghost predicate Reached(log: seq<Event>, endings: seq<Ending>, k: nat, n: nat) {
    && k <= n == |endings| && (forall i | 0 <= i < k :: CodeOf(endings[i]) == 0)
    && log == if k < n then Successes(endings, k) else Script(endings, 0)
  }

  lemma NothingYet(endings: seq<Ending>)
    ensures Reached([], endings, 0, |endings|)
  {
  }

  lemma AllDone(log: seq<Event>, endings: seq<Ending>)
    requires Reached(log, endings, |endings|, |endings|)
    ensures IsRun(log, endings) && log == Script(endings, 0)
  {
  }

  lemma PublishedToTheEnd(log: seq<Event>, endings: seq<Ending>)
    requires IsRun(log, endings) && log != [] && log[|log|-1].Published?
    ensures log == Script(endings, 0)
  {
  }

  lemma StopsBefore(log: seq<Event>, endings: seq<Ending>, k: nat, n: nat)
    requires k < n && Reached(log, endings, k, n)
    ensures IsRun(log + [NotPublished(Running)], endings)
  {
    ScriptContinues(endings, k);
    StoppedAt(log, [], Script(endings, k), log + [NotPublished(Running)]);
  }

  /** What follows once command `k` ended. */
  lemma CommandEnded(log: seq<Event>, before: seq<Ending>, k: nat, n: nat, ending: Ending, state: TaskState, exitCode: Option<int>)
    requires k < n && Reached(log, before, k, n)
    requires state == if CodeOf(ending) != 0 then Failed else if k == n - 1 then Succeeded else Running
    requires exitCode == if CodeOf(ending) != 0 then Some(CodeOf(ending)) else if k == n - 1 then Some(0) else None
    ensures var middle := log + [Published(Running, None), Started(k), Ended(k, ending)];
      && IsRun(middle + [NotPublished(state)], before[k := ending])
      && (if CodeOf(ending) == 0 then Reached(middle + [Published(state, exitCode)], before[k := ending], k + 1, n)
          else IsRun(middle + [Published(state, exitCode)], before[k := ending]))
  {
    var endings := before[k := ending];
    var head := [Published(Running, None), Started(k), Ended(k, ending)];
    var middle := log + head;
    SuccessesOf(before, endings, k);
    ScriptContinues(endings, k);
    StoppedAt(log, head, Script(endings, k), middle + [NotPublished(state)]);
    assert middle + [Published(state, exitCode)] == log + (head + [Published(state, exitCode)]);
  }

  /** All that happens before command `k` if everything goes well. */
  function Successes(endings: seq<Ending>, k: nat): seq<Event>
    requires k <= |endings|
  {
    if k == 0 then []
    else
      Successes(endings, k - 1) + Success(endings, k - 1)
  }

  function Success(endings: seq<Ending>, k: nat): seq<Event>
    requires k < |endings|
  {
    [Published(Running, None), Started(k), Ended(k, endings[k])] + [Published(Running, None)]
  }

  lemma {:induction false} SuccessesOf(a: seq<Ending>, b: seq<Ending>, k: nat)
    requires k <= |a| && k <= |b| && a[..k] == b[..k]
    ensures Successes(a, k) == Successes(b, k)
  {
    if k > 0 {
      assert a[..k-1] == a[..k][..k-1] && b[..k-1] == b[..k][..k-1];
      assert a[k-1] == a[..k][k-1] && b[k-1] == b[..k][k-1];
      SuccessesOf(a, b, k - 1);
    }
  }

  lemma {:induction false} ScriptContinues(endings: seq<Ending>, k: nat)
    requires k < |endings| && forall i | 0 <= i < k :: CodeOf(endings[i]) == 0
    ensures Script(endings, 0) == Successes(endings, k) + Script(endings, k)
  {
    hide Script, Successes, Success;
    if k == 0 {
      NoSuccesses(endings);
      assert [] + Script(endings, 0) == Script(endings, 0);
    } else {
      ScriptContinues(endings, k - 1);
      OneCommand(endings, k - 1);
      Regroup(Successes(endings, k - 1), Success(endings, k - 1), Script(endings, k));
    }
  }

  lemma Regroup(a: seq<Event>, b: seq<Event>, c: seq<Event>)
    ensures a + (b + c) == (a + b) + c
  {
  }

  lemma NoSuccesses(endings: seq<Ending>)
    ensures Successes(endings, 0) == []
  {
  }

  lemma OneCommand(endings: seq<Ending>, k: nat)
    requires k + 1 < |endings| && CodeOf(endings[k]) == 0
    ensures Script(endings, k) == Success(endings, k) + Script(endings, k + 1)
    ensures Successes(endings, k + 1) == Successes(endings, k) + Success(endings, k)
  {
  }

  lemma StoppedAt(before: seq<Event>, middle: seq<Event>, rest: seq<Event>, log: seq<Event>)
    requires |middle| < |rest| && rest[..|middle|] == middle
    requires |log| == |before| + |middle| + 1 && log[..|log|-1] == before + middle && log[|log|-1].NotPublished?
    requires rest[|middle|].Published? && rest[|middle|].state == log[|log|-1].state
    ensures StoppedIn(log, before + rest)
  {
    var script := before + rest;
    assert script[..|before| + |middle|] == before + rest[..|middle|];
  }

  lemma KeptOfKept(kept: Option<Text>, tail: Text, of: Text)
    requires KeptOf(Some(tail), of) && KeptOf(kept, tail)
    ensures KeptOf(kept, of)
    ensures kept.Some? ==> |kept.value| <= |tail|
  {
    if kept.Some? {
      assert of[|of| - |kept.value|..] == of[|of| - |tail|..][|tail| - |kept.value|..];
    }
  }
}
