/** Waiting for a child process while keeping a bounded part of what it prints.

    Of each stream the first 64 KiB are kept and the last 64 KiB of what follows. The loop polls both pipes
    and the child; it has a deadline for the command and, once the child has exited, one for the rest of the
    output. The clock counts milliseconds and goes on in every round.
 */
module ChildOutput {
  import opened Prelude

  type Byte = bv8

  const MAX_BYTES := 131072
  const HEAD_MAX := MAX_BYTES / 2
  const TAIL_MAX := MAX_BYTES - HEAD_MAX
  const DRAIN_MILLIS := 2000
  const POLL_MILLIS := 10
  const CHUNK_MAX := 4096

  datatype ProcessError = Failed | TimedOut

  datatype Output = Output(status: int, stdout: seq<Byte>, stderr: seq<Byte>)

  /** What one attempt to read a pipe gives. */
  datatype Read = Data(bytes: seq<Byte>) | End | Nothing | Broken

  // ---------------------------------------------------------------- what is kept of a stream

  function First(s: seq<Byte>, n: nat): seq<Byte> {
    if |s| <= n then s else s[..n]
  }

  function Last(s: seq<Byte>, n: nat): seq<Byte> {
    if |s| <= n then s else s[|s|-n..]
  }

  function Rest(s: seq<Byte>): seq<Byte> {
    s[|First(s, HEAD_MAX)|..]
  }

  /** The closed form: the beginning of the stream and the end of what comes after it. */
  function Kept(s: seq<Byte>): seq<Byte> {
    First(s, HEAD_MAX) + Last(Rest(s), TAIL_MAX)
  }

  /** Short streams are kept whole, and never more than the bound. */
  lemma KeptIsBounded(s: seq<Byte>)
    ensures |Kept(s)| <= MAX_BYTES
    ensures |s| <= MAX_BYTES ==> Kept(s) == s
    ensures |s| > MAX_BYTES ==> |Kept(s)| == MAX_BYTES
  {
    assert s == First(s, HEAD_MAX) + Rest(s);
  }

  /** One append, on a head and a tail. */
  function AppendHead(head: seq<Byte>, bytes: seq<Byte>): seq<Byte> {
    head + First(bytes, HeadRoom(head))
  }

  function HeadRoom(head: seq<Byte>): nat {
    if |head| >= HEAD_MAX then 0 else HEAD_MAX - |head|
  }

  function AppendTail(head: seq<Byte>, tail: seq<Byte>, bytes: seq<Byte>): seq<Byte> {
    Last(tail + bytes[|First(bytes, HeadRoom(head))|..], TAIL_MAX)
  }

  /** A head and a tail that hold what they should of a stream still do after an append. */
  lemma AppendKeeps(stream: seq<Byte>, bytes: seq<Byte>)
    ensures var head, tail := First(stream, HEAD_MAX), Last(Rest(stream), TAIL_MAX);
      && AppendHead(head, bytes) == First(stream + bytes, HEAD_MAX)
      && AppendTail(head, tail, bytes) == Last(Rest(stream + bytes), TAIL_MAX)
  {
    var head, tail := First(stream, HEAD_MAX), Last(Rest(stream), TAIL_MAX);
    var taken := |First(bytes, HeadRoom(head))|;
    assert stream == head + Rest(stream);
    assert First(stream + bytes, HEAD_MAX) == head + bytes[..taken];
    assert Rest(stream + bytes) == Rest(stream) + bytes[taken..];
    LastOfLast(Rest(stream), bytes[taken..]);
  }

  /** Forgetting the beginning early makes no difference to the end. */
  lemma LastOfLast(a: seq<Byte>, b: seq<Byte>)
    ensures Last(Last(a, TAIL_MAX) + b, TAIL_MAX) == Last(a + b, TAIL_MAX)
  {
  }

  function Feed(chunks: seq<seq<Byte>>): (seq<Byte>, seq<Byte>) {
    if chunks == [] then ([], [])
    else
      var (head, tail) := Feed(chunks[..|chunks|-1]);
      (AppendHead(head, chunks[|chunks|-1]), AppendTail(head, tail, chunks[|chunks|-1]))
  }

  function Concat(chunks: seq<seq<Byte>>): seq<Byte> {
    if chunks == [] then [] else Concat(chunks[..|chunks|-1]) + chunks[|chunks|-1]
  }

  /** However a stream is cut into chunks, what is kept is the closed form of the whole. */
  lemma {:induction false} ChunksDoNotMatter(chunks: seq<seq<Byte>>)
    ensures Feed(chunks) == (First(Concat(chunks), HEAD_MAX), Last(Rest(Concat(chunks)), TAIL_MAX))
    ensures Feed(chunks).0 + Feed(chunks).1 == Kept(Concat(chunks))
  {
    if chunks != [] {
      ChunksDoNotMatter(chunks[..|chunks|-1]);
      AppendKeeps(Concat(chunks[..|chunks|-1]), chunks[|chunks|-1]);
    }
  }

  lemma HeadPart(head: seq<Byte>, bytes: seq<Byte>)
    ensures var n := if HeadRoom(head) < |bytes| then HeadRoom(head) else |bytes|;
      First(bytes, HeadRoom(head)) == bytes[..n] && |First(bytes, HeadRoom(head))| == n
  {
  }

  lemma OnlyNew(tail: seq<Byte>, more: seq<Byte>)
    requires |more| >= TAIL_MAX
    ensures more[|more| - TAIL_MAX..] == Last(tail + more, TAIL_MAX)
  {
    EndOfSum(tail, more, TAIL_MAX);
  }

  lemma EndOfSum(a: seq<Byte>, b: seq<Byte>, n: nat)
    requires n <= |b|
    ensures b[|b|-n..] == Last(a + b, n)
  {
    var s := a + b;
    if |s| > n {
      assert s[|s|-n..] == b[|b|-n..];
    } else {
      assert s == b;
    }
  }

  lemma SomeOld(tail: seq<Byte>, more: seq<Byte>, overflow: nat)
    requires |more| < TAIL_MAX && overflow == (if |tail| + |more| > TAIL_MAX then |tail| + |more| - TAIL_MAX else 0)
    requires overflow <= |tail|
    ensures tail[overflow..] + more == Last(tail + more, TAIL_MAX)
  {
  }

  class BoundedOutputBuffer {
    var head: seq<Byte>
    var tail: seq<Byte>
    ghost var stream: seq<Byte>

    ghost predicate Valid()
      reads this
    {
      head == First(stream, HEAD_MAX) && tail == Last(Rest(stream), TAIL_MAX)
    }

    constructor ()
      ensures Valid() && stream == []
    {
      head, tail, stream := [], [], [];
    }

    method Append(bytes: seq<Byte>)
      requires Valid()
      modifies this
      ensures Valid() && stream == old(stream) + bytes
    {
      AppendKeeps(stream, bytes);
      var headRemaining := if |head| >= HEAD_MAX then 0 else HEAD_MAX - |head|;
      var headLength := if headRemaining < |bytes| then headRemaining else |bytes|;
      hide First, Last, Rest;
      ghost var before := tail;
      HeadPart(head, bytes);
      head := head + bytes[..headLength];
      var tailBytes := bytes[headLength..];
      stream := stream + bytes;
      if |tailBytes| >= TAIL_MAX {
        tail := tailBytes[|tailBytes| - TAIL_MAX..];
        OnlyNew(before, tailBytes);
        return;
      }
      var overflow := if |tail| + |tailBytes| > TAIL_MAX then |tail| + |tailBytes| - TAIL_MAX else 0;
      if overflow > 0 {
        tail := tail[overflow..];
      }
      tail := tail + tailBytes;
      SomeOld(before, tailBytes, overflow);
    }

    method IntoBytes() returns (bytes: seq<Byte>)
      requires Valid()
      ensures bytes == Kept(stream)
    {
      bytes := head + tail;
    }
  }

  // ---------------------------------------------------------------- pipes, child and clock

  function Delivered(log: seq<Read>): seq<Byte> {
    if log == [] then []
    else Delivered(log[..|log|-1]) + if log[|log|-1].Data? then log[|log|-1].bytes else []
  }

  lemma DeliveredSnoc(log: seq<Read>, read: Read)
    ensures Delivered(log + [read]) == Delivered(log) + if read.Data? then read.bytes else []
  {
    assert (log + [read])[..|log|] == log;
  }

  /** The end of the stream was read. */
  predicate AtEnd(log: seq<Read>) {
    log != [] && log[|log|-1].End?
  }

  /** The last attempt to read failed. */
  predicate IsBroken(log: seq<Read>) {
    log != [] && log[|log|-1].Broken?
  }

  /** A pipe remembers everything that was read from it, and whether it could not be configured. */
  class Pipe {
    ghost var log: seq<Read>
    ghost var refused: bool

    constructor ()
      ensures log == [] && !refused
    {
      log, refused := [], false;
    }

    method Configure() returns (ok: bool)
      modifies this`refused
      ensures refused <==> !ok
    {
      ok := *;
      refused := !ok;
    }

    method ReadAvailable() returns (r: Read)
      requires !AtEnd(log)
      modifies this`log
      ensures log == old(log) + [r]
      ensures r.Data? ==> 0 < |r.bytes| <= CHUNK_MAX
    {
      var choice: nat, bytes: seq<Byte> := *, *;
      r := if choice == 0 then End
        else if choice == 1 then Broken
        else if choice == 2 && 0 < |bytes| <= CHUNK_MAX then Data(bytes)
        else Nothing;
      log := log + [r];
    }
  }

  /** A child remembers how often it was looked at, the exit code it was seen with, and when. */
  class Child {
    ghost var exit: Option<int>
    ghost var exitAt: nat
    ghost var looks: nat
    ghost var waitFailed: bool
    ghost var terminated: bool

    constructor ()
      ensures exit == None && looks == 0 && !waitFailed && !terminated
    {
      exit, exitAt, looks, waitFailed, terminated := None, 0, 0, false, false;
    }

    method TryWait(clock: Clock) returns (r: Result<Option<int>, ProcessError>)
      requires exit == None
      modifies this`exit, this`exitAt, this`looks, this`waitFailed
      ensures looks == old(looks) + 1 && (waitFailed <==> r.Err?)
      ensures r.Ok? ==> exit == r.value && (exit.Some? ==> exitAt == clock.now)
      ensures r.Err? ==> r.error == Failed && exit == None
    {
      var choice: nat, code: int := *, *;
      r := if choice == 0 then Ok(Some(code)) else if choice == 1 then Err(Failed) else Ok(None);
      looks, waitFailed := looks + 1, r.Err?;
      if r.Ok? { exit, exitAt := r.value, clock.now; }
    }

    method Terminate()
      modifies this`terminated
      ensures terminated
    {
      terminated := true;
    }
  }

  /** The clock never goes back, and it goes on from round to round. */
  class Clock {
    var now: nat
    ghost var rounds: nat

    constructor (now: nat)
      ensures this.now == now && rounds == 0
    {
      this.now, rounds := now, 0;
    }

    method Read() returns (t: nat)
      modifies this`now
      ensures t == now >= old(now)
    {
      var d: nat := *;
      if d > 0 { now := now + d; }
      t := now;
    }

    /** The next round of a loop, after a pause. */
    method NextRound(pause: nat)
      modifies this
      ensures now > old(now) && now >= old(now) + pause && rounds == old(rounds) + 1
    {
      var d: nat := *;
      now := if d > 0 then now + pause + d else now + pause + 1;
      rounds := rounds + 1;
    }
  }

  // ---------------------------------------------------------------- the loop

  /** Reads what is there. The pipe is closed exactly when the end of its stream is read, and the buffer
      gets exactly the bytes that were read. */
  method PollPipe(open: bool, pipe: Pipe, buffer: BoundedOutputBuffer) returns (r: Result<bool, ProcessError>, stillOpen: bool)
    requires buffer.Valid() && buffer.stream == Delivered(pipe.log) && (open ==> !AtEnd(pipe.log))
    modifies pipe`log, buffer
    ensures buffer.Valid() && buffer.stream == Delivered(pipe.log)
    ensures !open ==> r == Ok(false) && !stillOpen && pipe.log == old(pipe.log)
    ensures open ==> |pipe.log| == |old(pipe.log)| + 1 && old(pipe.log) < pipe.log
    ensures open ==> var read := pipe.log[|old(pipe.log)|];
      && (stillOpen <==> !read.End?)
      && (read.Data? <==> r == Ok(true)) && (read.Broken? <==> r == Err(Failed)) && (read.Nothing? || read.End? <==> r == Ok(false))
  {
    if !open { return Ok(false), false; }
    ghost var before := pipe.log;
    var read := pipe.ReadAvailable();
    DeliveredSnoc(before, read);
    match read {
      case End => return Ok(false), false;
      case Data(bytes) =>
        buffer.Append(bytes);
        return Ok(true), true;
      case Nothing => return Ok(false), true;
      case Broken => return Err(Failed), true;
    }
  }

  /** Where polling one stream stands: the buffer holds what was read, and the pipe is open unless its end
      was read. */
  ghost predicate Tracks(open: bool, captured: bool, pipe: Pipe, buffer: BoundedOutputBuffer)
    reads pipe, buffer
  {
    && buffer.Valid() && buffer.stream == Delivered(pipe.log)
    && (open <==> captured && !AtEnd(pipe.log)) && (!captured ==> pipe.log == [])
  }

  /** An open pipe was read once more, a closed one was left alone. */
  predicate Polled(before: seq<Read>, after: seq<Read>, open: bool) {
    if open then |after| == |before| + 1 && before < after else after == before
  }

  predicate GotBytes(before: seq<Read>, after: seq<Read>) {
    |after| == |before| + 1 && after[|before|].Data?
  }

  /** One poll of a stream. The result says whether bytes came. */
  method PollStream(open: bool, ghost captured: bool, pipe: Pipe, buffer: BoundedOutputBuffer)
    returns (r: Result<bool, ProcessError>, stillOpen: bool)
    requires Tracks(open, captured, pipe, buffer) && !IsBroken(pipe.log)
    modifies pipe`log, buffer
    ensures Tracks(stillOpen, captured, pipe, buffer) && Polled(old(pipe.log), pipe.log, open)
    ensures r == if IsBroken(pipe.log) then Err(Failed) else Ok(GotBytes(old(pipe.log), pipe.log))
  {
    r, stillOpen := PollPipe(open, pipe, buffer);
  }

  /** Whether the child has exited, and the deadline for the rest of its output if it just has. A child that
      was seen to exit is not looked at again. */
  method LookAtChild(child: Child, clock: Clock, status: Option<int>, drainDeadline: nat)
    returns (r: Result<Option<int>, ProcessError>, deadline: nat, now: nat)
    requires status == child.exit && !child.waitFailed
    modifies child`exit, child`exitAt, child`looks, child`waitFailed, clock`now
    ensures now == clock.now >= old(clock.now)
    ensures r == if child.waitFailed then Err(Failed) else Ok(child.exit)
    ensures child.waitFailed ==> child.exit == None
    ensures status.Some? ==> child.exit == status && deadline == drainDeadline && child.exitAt == old(child.exitAt) && !child.waitFailed
    ensures status.None? ==> child.looks == old(child.looks) + 1
    ensures status.None? && child.exit.Some? ==>
      old(clock.now) <= child.exitAt <= clock.now && child.exitAt + DRAIN_MILLIS <= deadline <= clock.now + DRAIN_MILLIS
  {
    deadline := drainDeadline;
    r := Ok(status);
    if status.None? {
      r := child.TryWait(clock);
      if r.Ok? && r.value.Some? {
        var exited := clock.Read();
        deadline := exited + DRAIN_MILLIS;
      }
    }
    now := clock.Read();
  }

  /** One poll of both streams, standard output first. A failed poll of it ends the round. */
  method PollBoth(outOpen: bool, errOpen: bool, ghost outCaptured: bool, ghost errCaptured: bool,
                  outPipe: Pipe, errPipe: Pipe, stdout: BoundedOutputBuffer, stderr: BoundedOutputBuffer)
    returns (r: Result<bool, ProcessError>, outStill: bool, errStill: bool)
    requires outPipe != errPipe && stdout != stderr && !IsBroken(outPipe.log) && !IsBroken(errPipe.log)
    requires Tracks(outOpen, outCaptured, outPipe, stdout) && Tracks(errOpen, errCaptured, errPipe, stderr)
    modifies outPipe`log, errPipe`log, stdout, stderr
    ensures Tracks(outStill, outCaptured, outPipe, stdout) && Tracks(errStill, errCaptured, errPipe, stderr)
    ensures Polled(old(outPipe.log), outPipe.log, outOpen)
    ensures Polled(old(errPipe.log), errPipe.log, errOpen && !IsBroken(outPipe.log))
    ensures r == if IsBroken(outPipe.log) || IsBroken(errPipe.log) then Err(Failed)
                 else Ok(GotBytes(old(outPipe.log), outPipe.log) || GotBytes(old(errPipe.log), errPipe.log))
  {
    hide Tracks, IsBroken, Polled, GotBytes;
    errStill := errOpen;
    var outProgress;
    outProgress, outStill := PollStream(outOpen, outCaptured, outPipe, stdout);
    if outProgress.Err? {
      assert Polled(errPipe.log, errPipe.log, false) by { hide *; NotPolled(errPipe.log); }
      return outProgress, outStill, errStill;
    }
    var errProgress;
    errProgress, errStill := PollStream(errOpen, errCaptured, errPipe, stderr);
    if errProgress.Err? { return errProgress, outStill, errStill; }
    return Ok(outProgress.value || errProgress.value), outStill, errStill;
  }

  lemma NotPolled(log: seq<Read>)
    ensures Polled(log, log, false)
  {
  }

  method TakeOutput(status: int, ghost outCaptured: bool, ghost errCaptured: bool, outPipe: Pipe, errPipe: Pipe,
                    stdout: BoundedOutputBuffer, stderr: BoundedOutputBuffer)
    returns (o: Output)
    requires Tracks(false, outCaptured, outPipe, stdout) && Tracks(false, errCaptured, errPipe, stderr)
    ensures o.status == status
    ensures (outCaptured ==> AtEnd(outPipe.log)) && (errCaptured ==> AtEnd(errPipe.log))
    ensures o.stdout == Kept(Delivered(outPipe.log)) && o.stderr == Kept(Delivered(errPipe.log))
    ensures |o.stdout| <= MAX_BYTES && |o.stderr| <= MAX_BYTES
  {
    var keptOut := stdout.IntoBytes();
    var keptErr := stderr.IntoBytes();
    KeptIsBounded(stdout.stream);
    KeptIsBounded(stderr.stream);
    return Output(status, keptOut, keptErr);
  }

  /** The loop's flag says whether the stream is still to be read. */
  lemma OpenTells(open: bool, captured: bool, pipe: Pipe, buffer: BoundedOutputBuffer)
    requires Tracks(open, captured, pipe, buffer)
    ensures open <==> captured && !AtEnd(pipe.log)
    ensures !captured ==> pipe.log == []
  {
  }

  /** Where the loop stands in time: `rounds` rounds since `start`, the last one over before its deadline. */
  ghost predicate OnTime(start: nat, timeout: nat, now: nat, rounds: int, exited: bool, exitAt: nat, drainDeadline: nat) {
    && start <= now && 0 <= rounds
    && (!exited && rounds > 0 ==> now < start + timeout)
    && (!exited ==> rounds <= now - start)
    && (exited ==>
      exitAt + DRAIN_MILLIS <= drainDeadline && now < drainDeadline
      && rounds + (drainDeadline - now) <= timeout + 1 + DRAIN_MILLIS)
  }

  /** All that can be known of a wait after `rounds` rounds. */
  datatype Watch = Watch(
    exit: Option<int>, exitAt: nat, looks: nat, waitFailed: bool, terminated: bool, now: nat, rounds: int,
    out: seq<Read>, err: seq<Read>)

  ghost function Watched(child: Child, clock: Clock, since: nat, outPipe: Pipe, errPipe: Pipe): Watch
    reads child, clock, outPipe, errPipe
  {
    Watch(child.exit, child.exitAt, child.looks, child.waitFailed, child.terminated, clock.now, clock.rounds - since, outPipe.log, errPipe.log)
  }

  /** A captured stream is read once in every round until its end is read, and one that is not is never
      read. */
  predicate ReadEachRound(log: seq<Read>, captured: bool, rounds: int) {
    && |log| <= rounds && (!captured ==> log == [])
    && (captured && !AtEnd(log) ==> |log| == rounds)
  }

  predicate AllEnded(w: Watch, outCaptured: bool, errCaptured: bool) {
    (outCaptured ==> AtEnd(w.out)) && (errCaptured ==> AtEnd(w.err))
  }

  predicate SomethingFailed(w: Watch) {
    IsBroken(w.out) || IsBroken(w.err) || w.waitFailed
  }

  /** What the loop ends with. Success: the status the child was seen with and the kept ends of all that was
      read. A timeout: everything was looked at in every round, and a deadline has passed. Otherwise
      something failed. */
  predicate Finished(r: Result<Output, ProcessError>, w: Watch, outCaptured: bool, errCaptured: bool, commandDeadline: nat) {
    && (r.Ok? ==>
          && w.exit == Some(r.value.status) && AllEnded(w, outCaptured, errCaptured)
          && r.value.stdout == Kept(Delivered(w.out)) && r.value.stderr == Kept(Delivered(w.err))
          && |r.value.stdout| <= MAX_BYTES && |r.value.stderr| <= MAX_BYTES)
    && (r == Err(TimedOut) ==>
          && w.rounds > 0 && ReadEachRound(w.out, outCaptured, w.rounds) && ReadEachRound(w.err, errCaptured, w.rounds)
          && (if w.exit.None? then w.looks == w.rounds && w.now >= commandDeadline
              else w.now >= w.exitAt + DRAIN_MILLIS && !AllEnded(w, outCaptured, errCaptured)))
    && (r == Err(Failed) <==> SomethingFailed(w))
    && (w.terminated <==> r == Err(TimedOut) && w.exit.None?)
    && (!outCaptured ==> w.out == []) && (!errCaptured ==> w.err == [])
  }

  /** Nothing has failed so far, and everything was looked at in every round. */
  predicate GoingOn(w: Watch, outCaptured: bool, errCaptured: bool) {
    && !SomethingFailed(w) && !w.terminated && w.rounds >= 0
    && ReadEachRound(w.out, outCaptured, w.rounds) && ReadEachRound(w.err, errCaptured, w.rounds)
    && (w.exit.None? ==> w.looks == w.rounds)
  }

  lemma ReadOnceMore(before: seq<Read>, after: seq<Read>, open: bool, captured: bool, rounds: int)
    requires ReadEachRound(before, captured, rounds) && Polled(before, after, open) && (open <==> captured && !AtEnd(before))
    ensures ReadEachRound(after, captured, rounds + 1)
  {
  }

  // The five ways a round may end.

  ghost predicate KeptApart(w: Watch, outCaptured: bool, errCaptured: bool) {
    (!outCaptured ==> w.out == []) && (!errCaptured ==> w.err == [])
  }

  lemma WhatIsOpen(w: Watch, outOpen: bool, errOpen: bool, outCaptured: bool, errCaptured: bool)
    requires (outOpen <==> outCaptured && !AtEnd(w.out)) && (errOpen <==> errCaptured && !AtEnd(w.err))
    ensures AllEnded(w, outCaptured, errCaptured) <==> !outOpen && !errOpen
  {
  }

  function Pause(end: nat, now: nat): (pause: nat)
    requires now < end
    ensures 0 < pause <= POLL_MILLIS && now + pause <= end
  {
    if end - now < POLL_MILLIS then end - now else POLL_MILLIS
  }

  lemma EndsFailed(w: Watch, outCaptured: bool, errCaptured: bool, commandDeadline: nat)
    requires SomethingFailed(w) && !w.terminated && KeptApart(w, outCaptured, errCaptured)
    ensures Finished(Err(Failed), w, outCaptured, errCaptured, commandDeadline)
  {
  }

  lemma EndsWell(o: Output, w: Watch, outCaptured: bool, errCaptured: bool, commandDeadline: nat)
    requires GoingOn(w, outCaptured, errCaptured) && w.exit == Some(o.status)
    requires AllEnded(w, outCaptured, errCaptured)
    requires o.stdout == Kept(Delivered(w.out)) && o.stderr == Kept(Delivered(w.err))
    requires |o.stdout| <= MAX_BYTES && |o.stderr| <= MAX_BYTES
    ensures Finished(Ok(o), w, outCaptured, errCaptured, commandDeadline)
  {
    hide Kept, Delivered;
  }

  lemma EndsLate(w: Watch, outCaptured: bool, errCaptured: bool, commandDeadline: nat)
    requires GoingOn(w, outCaptured, errCaptured) && w.exit.Some? && w.rounds > 0 && w.now >= w.exitAt + DRAIN_MILLIS
    requires !AllEnded(w, outCaptured, errCaptured)
    ensures Finished(Err(TimedOut), w, outCaptured, errCaptured, commandDeadline)
  {
  }

  lemma EndsTerminated(w: Watch, w': Watch, outCaptured: bool, errCaptured: bool, commandDeadline: nat)
    requires GoingOn(w, outCaptured, errCaptured) && w.exit.None? && w.rounds > 0 && w.now >= commandDeadline
    requires w' == w.(terminated := true)
    ensures Finished(Err(TimedOut), w', outCaptured, errCaptured, commandDeadline)
  {
  }

  lemma GoesOn(w: Watch, w': Watch, outOpen: bool, errOpen: bool, outCaptured: bool, errCaptured: bool)
    requires GoingOn(w, outCaptured, errCaptured) && w'.rounds == w.rounds + 1
    requires (outOpen <==> outCaptured && !AtEnd(w.out)) && (errOpen <==> errCaptured && !AtEnd(w.err))
    requires Polled(w.out, w'.out, outOpen) && Polled(w.err, w'.err, errOpen && !IsBroken(w'.out))
    requires w'.terminated == w.terminated && (w'.exit.None? ==> w.exit.None? && w'.looks == w.looks + 1)
    requires !IsBroken(w'.out) && !IsBroken(w'.err) && !w'.waitFailed
    ensures GoingOn(w', outCaptured, errCaptured)
  {
    hide AtEnd;
    ReadOnceMore(w.out, w'.out, outOpen, outCaptured, w.rounds);
    ReadOnceMore(w.err, w'.err, errOpen, errCaptured, w.rounds);
  }

  /** The first half of a round: both streams, then the child, then the clock. */
  method LookAround(child: Child, clock: Clock, outPipe: Pipe, errPipe: Pipe, stdout: BoundedOutputBuffer, stderr: BoundedOutputBuffer,
                    ghost outCaptured: bool, ghost errCaptured: bool, outOpen: bool, errOpen: bool, status: Option<int>,
                    drainDeadline: nat, ghost since: nat, ghost commandDeadline: nat)
    returns (failed: bool, progress: bool, outStill: bool, errStill: bool, deadline: nat, now: nat, seen: Option<int>)
    requires outPipe != errPipe && stdout != stderr && status == child.exit
    requires Tracks(outOpen, outCaptured, outPipe, stdout) && Tracks(errOpen, errCaptured, errPipe, stderr)
    requires var w := Watched(child, clock, since, outPipe, errPipe); GoingOn(w.(rounds := w.rounds - 1), outCaptured, errCaptured)
    modifies child`exit, child`exitAt, child`looks, child`waitFailed, clock`now, outPipe`log, errPipe`log, stdout, stderr
    ensures Tracks(outStill, outCaptured, outPipe, stdout) && Tracks(errStill, errCaptured, errPipe, stderr)
    ensures clock.now >= old(clock.now)
    ensures failed ==> Finished(Err(Failed), Watched(child, clock, since, outPipe, errPipe), outCaptured, errCaptured, commandDeadline)
    ensures !failed ==> now == clock.now && seen == child.exit && GoingOn(Watched(child, clock, since, outPipe, errPipe), outCaptured, errCaptured)
    ensures !failed && status.Some? ==> seen == status && deadline == drainDeadline && child.exitAt == old(child.exitAt)
    ensures !failed && seen.Some? && status.None? ==>
      old(clock.now) <= child.exitAt <= clock.now && child.exitAt + DRAIN_MILLIS <= deadline <= clock.now + DRAIN_MILLIS
    ensures !failed ==> (progress <==> GotBytes(old(outPipe.log), outPipe.log) || GotBytes(old(errPipe.log), errPipe.log))
  {
    ghost var w := Watched(child, clock, since, outPipe, errPipe).(rounds := clock.rounds - since - 1);
    OpenTells(outOpen, outCaptured, outPipe, stdout);
    OpenTells(errOpen, errCaptured, errPipe, stderr);
    NothingFailed(w, outCaptured, errCaptured);
    hide Tracks, AtEnd, IsBroken, Polled, GotBytes, Finished, GoingOn;
    seen, deadline, now := status, drainDeadline, 0;
    var polled;
    polled, outStill, errStill := PollBoth(outOpen, errOpen, outCaptured, errCaptured, outPipe, errPipe, stdout, stderr);
    OpenTells(outStill, outCaptured, outPipe, stdout);
    OpenTells(errStill, errCaptured, errPipe, stderr);
    if polled.Err? {
      EndsFailed(Watched(child, clock, since, outPipe, errPipe), outCaptured, errCaptured, commandDeadline);
      return true, false, outStill, errStill, deadline, now, seen;
    }
    var waited;
    waited, deadline, now := LookAtChild(child, clock, status, drainDeadline);
    if waited.Err? {
      EndsFailed(Watched(child, clock, since, outPipe, errPipe), outCaptured, errCaptured, commandDeadline);
      return true, false, outStill, errStill, deadline, now, seen;
    }
    GoesOn(w, Watched(child, clock, since, outPipe, errPipe), outOpen, errOpen, outCaptured, errCaptured);
    return false, polled.value, outStill, errStill, deadline, now, waited.value;
  }

  /** The second half of a round: whether it is over. None if the loop goes on; it pauses exactly if
      nothing came, and not past the deadline. */
  method Decide(child: Child, ghost clock: Clock, commandDeadline: nat, outPipe: Pipe, errPipe: Pipe, stdout: BoundedOutputBuffer,
                stderr: BoundedOutputBuffer, ghost outCaptured: bool, ghost errCaptured: bool, outOpen: bool, errOpen: bool,
                seen: Option<int>, deadline: nat, now: nat, progress: bool, ghost since: nat)
    returns (r: Option<Result<Output, ProcessError>>, pause: nat)
    requires Tracks(outOpen, outCaptured, outPipe, stdout) && Tracks(errOpen, errCaptured, errPipe, stderr)
    requires GoingOn(Watched(child, clock, since, outPipe, errPipe), outCaptured, errCaptured)
    requires now == clock.now && clock.rounds > since && seen == child.exit
    requires seen.Some? ==> child.exitAt + DRAIN_MILLIS <= deadline
    modifies child`terminated
    ensures r.Some? ==> Finished(r.value, Watched(child, clock, since, outPipe, errPipe), outCaptured, errCaptured, commandDeadline)
    ensures r.None? ==> child.terminated == old(child.terminated) && if seen.Some? then now < deadline else now < commandDeadline
    ensures r.None? && seen.Some? ==> !AllEnded(Watched(child, clock, since, outPipe, errPipe), outCaptured, errCaptured)
    ensures r.None? ==> pause <= POLL_MILLIS && now + pause <= (if seen.Some? then deadline else commandDeadline) && (pause == 0 <==> progress)
  {
    OpenTells(outOpen, outCaptured, outPipe, stdout);
    OpenTells(errOpen, errCaptured, errPipe, stderr);
    ghost var watch := Watched(child, clock, since, outPipe, errPipe);
    WhatIsOpen(watch, outOpen, errOpen, outCaptured, errCaptured);
    hide Tracks, Kept, Delivered, AtEnd, Finished, GoingOn, AllEnded;
    if seen.Some? {
      if !outOpen && !errOpen {
        var o := TakeOutput(seen.value, outCaptured, errCaptured, outPipe, errPipe, stdout, stderr);
        EndsWell(o, watch, outCaptured, errCaptured, commandDeadline);
        return Some(Ok(o)), 0;
      }
      if now >= deadline {
        EndsLate(watch, outCaptured, errCaptured, commandDeadline);
        return Some(Err(TimedOut)), 0;
      }
    } else if now >= commandDeadline {
      child.Terminate();
      EndsTerminated(watch, Watched(child, clock, since, outPipe, errPipe), outCaptured, errCaptured, commandDeadline);
      return Some(Err(TimedOut)), 0;
    }
    return None, if progress then 0 else Pause(if seen.Some? then deadline else commandDeadline, now);
  }

  /** One round. None if the loop goes on. */
  method Round(child: Child, clock: Clock, commandDeadline: nat, outPipe: Pipe, errPipe: Pipe, stdout: BoundedOutputBuffer,
               stderr: BoundedOutputBuffer, ghost outCaptured: bool, ghost errCaptured: bool,
               outOpen: bool, errOpen: bool, status: Option<int>, drainDeadline: nat, ghost since: nat)
    returns (r: Option<Result<Output, ProcessError>>, outStill: bool, errStill: bool, seen: Option<int>, deadline: nat, pause: nat)
    requires outPipe != errPipe && stdout != stderr && status == child.exit && clock.rounds > since
    requires Tracks(outOpen, outCaptured, outPipe, stdout) && Tracks(errOpen, errCaptured, errPipe, stderr)
    requires var w := Watched(child, clock, since, outPipe, errPipe); GoingOn(w.(rounds := w.rounds - 1), outCaptured, errCaptured)
    requires status.Some? ==> child.exitAt + DRAIN_MILLIS <= drainDeadline
    modifies child, clock`now, outPipe`log, errPipe`log, stdout, stderr
    ensures Tracks(outStill, outCaptured, outPipe, stdout) && Tracks(errStill, errCaptured, errPipe, stderr)
    ensures clock.now >= old(clock.now)
    ensures r.Some? ==> Finished(r.value, Watched(child, clock, since, outPipe, errPipe), outCaptured, errCaptured, commandDeadline)
    ensures r.None? ==> seen == child.exit && GoingOn(Watched(child, clock, since, outPipe, errPipe), outCaptured, errCaptured)
    ensures r.None? && status.Some? ==> seen == status && deadline == drainDeadline && child.exitAt == old(child.exitAt)
    ensures r.None? ==> if seen.Some? then clock.now < deadline else clock.now < commandDeadline
    ensures r.None? && seen.Some? ==> !AllEnded(Watched(child, clock, since, outPipe, errPipe), outCaptured, errCaptured)
    ensures r.None? && seen.Some? && status.None? ==>
      old(clock.now) <= child.exitAt <= clock.now && child.exitAt + DRAIN_MILLIS <= deadline <= clock.now + DRAIN_MILLIS
    ensures r.None? ==> pause <= POLL_MILLIS && clock.now + pause <= (if seen.Some? then deadline else commandDeadline)
                        && (pause == 0 <==> GotBytes(old(outPipe.log), outPipe.log) || GotBytes(old(errPipe.log), errPipe.log))
  {
    hide Tracks, GoingOn, Finished, AllEnded, GotBytes;
    var failed, progress, now;
    failed, progress, outStill, errStill, deadline, now, seen :=
      LookAround(child, clock, outPipe, errPipe, stdout, stderr, outCaptured, errCaptured, outOpen, errOpen, status, drainDeadline,
                 since, commandDeadline);
    if failed { return Some(Err(Failed)), outStill, errStill, seen, deadline, 0; }
    r, pause := Decide(child, clock, commandDeadline, outPipe, errPipe, stdout, stderr, outCaptured, errCaptured,
                       outStill, errStill, seen, deadline, now, progress, since);
  }

  lemma NothingFailed(w: Watch, outCaptured: bool, errCaptured: bool)
    requires GoingOn(w, outCaptured, errCaptured)
    ensures !IsBroken(w.out) && !IsBroken(w.err) && !w.waitFailed && !w.terminated && w.rounds >= 0
  {
  }

  lemma OnTimeBounds(start: nat, timeout: nat, now: nat, rounds: int, exited: bool, exitAt: nat, drainDeadline: nat)
    requires OnTime(start, timeout, now, rounds, exited, exitAt, drainDeadline)
    ensures start <= now && 0 <= rounds <= timeout + DRAIN_MILLIS + 1
    ensures exited ==> exitAt + DRAIN_MILLIS <= drainDeadline
  {
  }

  /** A round that does not end the loop: time went on, but not past the deadline. */
  lemma OneMoreRound(start: nat, timeout: nat, before: nat, rounds: int, hadExited: bool, oldExitAt: nat, oldDeadline: nat,
                     now: nat, exited: bool, exitAt: nat, drainDeadline: nat)
    requires OnTime(start, timeout, before, rounds, hadExited, oldExitAt, oldDeadline) && before < now
    requires hadExited ==> exited && exitAt == oldExitAt && drainDeadline == oldDeadline
    requires !hadExited && exited ==> before < exitAt && exitAt + DRAIN_MILLIS <= drainDeadline <= now + DRAIN_MILLIS
    requires if exited then now < drainDeadline else now < start + timeout
    ensures OnTime(start, timeout, now, rounds + 1, exited, exitAt, drainDeadline)
  {
  }

  /** Round after round until it is over. */
  method Rounds(child: Child, clock: Clock, start: nat, timeout: nat, outPipe: Pipe, errPipe: Pipe,
                stdout: BoundedOutputBuffer, stderr: BoundedOutputBuffer, outCaptured: bool, errCaptured: bool)
    returns (r: Result<Output, ProcessError>)
    requires outPipe != errPipe && stdout != stderr && child.exit == None && clock.now == start
    requires Tracks(outCaptured, outCaptured, outPipe, stdout) && Tracks(errCaptured, errCaptured, errPipe, stderr)
    requires outPipe.log == [] && errPipe.log == [] && child.looks == 0 && !child.waitFailed && !child.terminated
    modifies child, clock, outPipe`log, errPipe`log, stdout, stderr
    ensures Finished(r, Watched(child, clock, old(clock.rounds), outPipe, errPipe), outCaptured, errCaptured, start + timeout)
    ensures clock.rounds - old(clock.rounds) <= timeout + DRAIN_MILLIS + 2
  {
    var outOpen, errOpen := outCaptured, errCaptured;
    var status: Option<int> := None;
    var drainDeadline: nat := 0;
    var pause: nat := 0;
    ghost var before := clock.rounds;
    assert OnTime(start, timeout, clock.now, 0, false, child.exitAt, 0);
    hide Tracks, Finished, OnTime, GoingOn, AllEnded, GotBytes, IsBroken, AtEnd, Delivered, Kept;
    assert GoingOn(Watched(child, clock, before, outPipe, errPipe), outCaptured, errCaptured) by {
      NothingYet(Watched(child, clock, before, outPipe, errPipe), outCaptured, errCaptured);
    }
    while true
      invariant Tracks(outOpen, outCaptured, outPipe, stdout) && Tracks(errOpen, errCaptured, errPipe, stderr)
      invariant status == child.exit && GoingOn(Watched(child, clock, before, outPipe, errPipe), outCaptured, errCaptured)
      invariant OnTime(start, timeout, clock.now, clock.rounds - before, status.Some?, child.exitAt, drainDeadline)
      decreases timeout + DRAIN_MILLIS + 2 - (clock.rounds - before)
    {
      OnTimeBounds(start, timeout, clock.now, clock.rounds - before, status.Some?, child.exitAt, drainDeadline);
      ghost var known, knownAt, knownDeadline, earlier, rounds := status.Some?, child.exitAt, drainDeadline, clock.now, clock.rounds - before;
      ghost var watch := Watched(child, clock, before, outPipe, errPipe);
      clock.NextRound(pause);
      TimeAside(watch, Watched(child, clock, before, outPipe, errPipe), outCaptured, errCaptured);
      var ended;
      ended, outOpen, errOpen, status, drainDeadline, pause :=
        Round(child, clock, start + timeout, outPipe, errPipe, stdout, stderr, outCaptured, errCaptured,
              outOpen, errOpen, status, drainDeadline, before);
      if ended.Some? { return ended.value; }
      OneMoreRound(start, timeout, earlier, rounds, known, knownAt, knownDeadline, clock.now, status.Some?, child.exitAt, drainDeadline);
    }
  }

  lemma NothingYet(w: Watch, outCaptured: bool, errCaptured: bool)
    requires w.out == [] && w.err == [] && w.looks == 0 && w.rounds == 0 && !w.waitFailed && !w.terminated
    ensures GoingOn(w, outCaptured, errCaptured)
  {
  }

  lemma TimeAside(w: Watch, w': Watch, outCaptured: bool, errCaptured: bool)
    requires GoingOn(w, outCaptured, errCaptured) && w' == w.(now := w'.now, rounds := w.rounds + 1)
    ensures GoingOn(w'.(rounds := w'.rounds - 1), outCaptured, errCaptured)
  {
  }

  /** Waits for the child to exit and both streams to end. A stream that was not captured is not read. */
  method WaitForChild(child: Child, clock: Clock, timeout: nat, outPipe: Pipe, errPipe: Pipe, outCaptured: bool, errCaptured: bool)
    returns (r: Result<Output, ProcessError>)
    requires outPipe != errPipe && outPipe.log == [] && errPipe.log == [] && !outPipe.refused && !errPipe.refused
    requires child.exit == None && child.looks == 0 && !child.waitFailed && !child.terminated
    modifies child, clock, outPipe, errPipe
    ensures r == Err(Failed) <==>
      outPipe.refused || errPipe.refused || IsBroken(outPipe.log) || IsBroken(errPipe.log) || child.waitFailed
    ensures outPipe.refused || errPipe.refused
      || Finished(r, Watched(child, clock, old(clock.rounds), outPipe, errPipe), outCaptured, errCaptured, old(clock.now) + timeout)
    ensures outPipe.refused || errPipe.refused ==> outPipe.log == [] && errPipe.log == [] && child.looks == 0 && !child.terminated
    ensures (outPipe.refused ==> outCaptured) && (errPipe.refused ==> errCaptured)
    ensures clock.rounds - old(clock.rounds) <= timeout + DRAIN_MILLIS + 2
  {
    var start := clock.Read();
    if outCaptured {
      var ok := outPipe.Configure();
      if !ok { return Err(Failed); }
    }
    if errCaptured {
      var ok := errPipe.Configure();
      if !ok { return Err(Failed); }
    }
    var stdout := new BoundedOutputBuffer();
    var stderr := new BoundedOutputBuffer();
    assert Tracks(outCaptured, outCaptured, outPipe, stdout) && Tracks(errCaptured, errCaptured, errPipe, stderr);
    hide Tracks, Finished, IsBroken, AtEnd, Delivered, Kept;
    r := Rounds(child, clock, start, timeout, outPipe, errPipe, stdout, stderr, outCaptured, errCaptured);
    DeadlineAside(r, Watched(child, clock, old(clock.rounds), outPipe, errPipe), outCaptured, errCaptured, start + timeout, old(clock.now) + timeout);
  }

  lemma DeadlineAside(r: Result<Output, ProcessError>, w: Watch, outCaptured: bool, errCaptured: bool, deadline: nat, earlier: nat)
    requires Finished(r, w, outCaptured, errCaptured, deadline) && earlier <= deadline
    ensures Finished(r, w, outCaptured, errCaptured, earlier)
    ensures r == Err(Failed) <==> IsBroken(w.out) || IsBroken(w.err) || w.waitFailed
  {
  }
}
