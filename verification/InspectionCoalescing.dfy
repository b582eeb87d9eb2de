/** Concurrent inspections of one repository share a single result.

    A call is a thread. The first call for a path becomes the leader and inspects; calls that come while
    its flight is registered follow it and wait on a condition variable. Each step below is one critical
    section of the source: the registry lock or the lock of one flight's result. Waiting gives up the
    result lock and goes to sleep in one step, as a condition variable does, and may end for no reason.
 */
module InspectionCoalescing {
  import opened Prelude

  type Path = string

  /** `CommandFailed` also stands for an inspection that panicked. */
  datatype Inspection = Inspected(summary: string) | CommandFailed

  datatype Phase =
    | Called(path: Path)
    | Inspecting(path: Path, flight: nat)
    | Publishing(path: Path, flight: nat, value: Inspection)
    | Retiring(path: Path, flight: nat, value: Inspection)
    | Following(path: Path, flight: nat)
    | Sleeping(path: Path, flight: nat)
    | Returned(path: Path, flight: nat, value: Inspection)

  /** `leader` is the thread that created the flight. */
  datatype Flight = Flight(path: Path, leader: nat, result: Option<Inspection>)

  datatype State = State(threads: seq<Phase>, inFlight: map<Path, nat>, flights: seq<Flight>)

  datatype Action =
    | Call(path: Path)
    | Take(thread: nat)
    | Finish(thread: nat, outcome: Option<Inspection>)
    | Publish(thread: nat)
    | Retire(thread: nat)
    | Look(thread: nat)
    | WakeForNoReason(thread: nat)

  // ---------------------------------------------------------------- the steps

  predicate Enabled(s: State, a: Action) {
    if a.Call? then true
    else
      && a.thread < |s.threads|
      && match a
         case Take(t) => s.threads[t].Called?
         case Finish(t, _) => s.threads[t].Inspecting?
         case Publish(t) => s.threads[t].Publishing? && s.threads[t].flight < |s.flights|
         case Retire(t) => s.threads[t].Retiring?
         case Look(t) => s.threads[t].Following? && s.threads[t].flight < |s.flights|
         case WakeForNoReason(t) => s.threads[t].Sleeping?
  }

  function Wake(p: Phase, flight: nat): Phase {
    if p.Sleeping? && p.flight == flight then Following(p.path, flight) else p
  }

  /** `notify_all` */
  function WakeAll(threads: seq<Phase>, flight: nat): seq<Phase> {
    seq(|threads|, i requires 0 <= i < |threads| => Wake(threads[i], flight))
  }

  function Next(s: State, a: Action): State
    requires Enabled(s, a)
  {
    match a
    case Call(path) => s.(threads := s.threads + [Called(path)])
    case Take(t) =>
      var path := s.threads[t].path;
      if path in s.inFlight then
        s.(threads := s.threads[t := Following(path, s.inFlight[path])])
      else
        State(s.threads[t := Inspecting(path, |s.flights|)], s.inFlight[path := |s.flights|], s.flights + [Flight(path, t, None)])
    case Finish(t, outcome) =>
      var value := if outcome.Some? then outcome.value else CommandFailed;
      s.(threads := s.threads[t := Publishing(s.threads[t].path, s.threads[t].flight, value)])
    case Publish(t) =>
      var p := s.threads[t];
      s.(threads := WakeAll(s.threads, p.flight)[t := Retiring(p.path, p.flight, p.value)],
         flights := s.flights[p.flight := s.flights[p.flight].(result := Some(p.value))])
    case Retire(t) =>
      var p := s.threads[t];
      s.(threads := s.threads[t := Returned(p.path, p.flight, p.value)],
         inFlight := if p.path in s.inFlight && s.inFlight[p.path] == p.flight then s.inFlight - {p.path} else s.inFlight)
    case Look(t) =>
      var p := s.threads[t];
      var result := s.flights[p.flight].result;
      s.(threads := s.threads[t := if result.Some? then Returned(p.path, p.flight, result.value) else Sleeping(p.path, p.flight)])
    case WakeForNoReason(t) =>
      s.(threads := s.threads[t := Following(s.threads[t].path, s.threads[t].flight)])
  }

  function Start(): State { State([], map[], []) }

  // ---------------------------------------------------------------- what every step keeps

  predicate Working(p: Phase) { p.Inspecting? || p.Publishing? || p.Retiring? }

  ghost predicate ThreadOk(s: State, t: nat)
    requires t < |s.threads|
  {
    var p := s.threads[t];
    p.Called? || (
      && p.flight < |s.flights| && s.flights[p.flight].path == p.path
      && (Working(p) ==> s.flights[p.flight].leader == t)
      && (p.Following? || p.Sleeping? ==> s.flights[p.flight].leader != t)
      && (p.Sleeping? ==> s.flights[p.flight].result == None)
      && (p.Returned? ==> s.flights[p.flight].result == Some(p.value)))
  }

  ghost predicate FlightOk(s: State, f: nat)
    requires f < |s.flights|
  {
    var flight := s.flights[f];
    && flight.leader < |s.threads|
    && var p := s.threads[flight.leader];
       && !p.Called? && p.flight == f && p.path == flight.path && (Working(p) || p.Returned?)
       && (flight.result.None? <==> p.Inspecting? || p.Publishing?)
       && (flight.result.Some? ==> flight.result.value == p.value)
       && (Working(p) <==> flight.path in s.inFlight && s.inFlight[flight.path] == f)
  }

  ghost predicate Inv(s: State) {
    && (forall t | 0 <= t < |s.threads| :: ThreadOk(s, t))
    && (forall f | 0 <= f < |s.flights| :: FlightOk(s, f))
    && (forall p | p in s.inFlight :: s.inFlight[p] < |s.flights| && s.flights[s.inFlight[p]].path == p)
  }

  lemma StepKeepsInv(s: State, a: Action)
    requires Inv(s) && Enabled(s, a)
    ensures Inv(Next(s, a))
  {
    var s' := Next(s, a);
    forall t | 0 <= t < |s'.threads| ensures ThreadOk(s', t) { StepKeepsThread(s, a, t); }
    forall f | 0 <= f < |s'.flights| ensures FlightOk(s', f) { StepKeepsFlight(s, a, f); }
  }

  lemma StepKeepsThread(s: State, a: Action, t: nat)
    requires Inv(s) && Enabled(s, a) && t < |Next(s, a).threads|
    ensures ThreadOk(Next(s, a), t)
  {
    if t < |s.threads| { assert ThreadOk(s, t); }
    if !a.Call? {
      assert ThreadOk(s, a.thread);
      if a.Take? && s.threads[a.thread].path in s.inFlight {
        assert FlightOk(s, s.inFlight[s.threads[a.thread].path]);
      }
      if (a.Publish? || a.Retire?) { assert FlightOk(s, s.threads[a.thread].flight); }
    }
  }

  lemma StepKeepsFlight(s: State, a: Action, f: nat)
    requires Inv(s) && Enabled(s, a) && f < |Next(s, a).flights|
    ensures FlightOk(Next(s, a), f)
  {
    if f < |s.flights| { assert FlightOk(s, f); }
    if !a.Call? {
      assert ThreadOk(s, a.thread);
    }
  }

  // ---------------------------------------------------------------- whole runs

  ghost predicate IsRun(states: seq<State>, actions: seq<Action>) {
    && |states| == |actions| + 1 && states[0] == Start()
    && forall i | 0 <= i < |actions| :: Enabled(states[i], actions[i]) && states[i+1] == Next(states[i], actions[i])
  }

  lemma {:induction false} RunKeepsInv(states: seq<State>, actions: seq<Action>, i: nat)
    requires IsRun(states, actions) && i < |states|
    ensures Inv(states[i])
  {
    if i > 0 {
      RunKeepsInv(states, actions, i - 1);
      StepKeepsInv(states[i-1], actions[i-1]);
    }
  }

  /** At most one inspection of a repository runs at any time. */
  lemma OneInspectionPerPath(states: seq<State>, actions: seq<Action>, i: nat, t: nat, u: nat)
    requires IsRun(states, actions) && i < |states| && t < |states[i].threads| && u < |states[i].threads|
    requires states[i].threads[t].Inspecting? && states[i].threads[u].Inspecting?
    requires states[i].threads[t].path == states[i].threads[u].path
    ensures t == u
  {
    var s := states[i];
    RunKeepsInv(states, actions, i);
    assert ThreadOk(s, t) && ThreadOk(s, u);
    assert FlightOk(s, s.threads[t].flight) && FlightOk(s, s.threads[u].flight);
  }

  /** When a leader comes to unregister its flight, the registered one is always its own. */
  lemma IdentityCheckHolds(states: seq<State>, actions: seq<Action>, i: nat, t: nat)
    requires IsRun(states, actions) && i < |states| && t < |states[i].threads| && states[i].threads[t].Retiring?
    ensures states[i].threads[t].path in states[i].inFlight
    ensures states[i].inFlight[states[i].threads[t].path] == states[i].threads[t].flight
  {
    RunKeepsInv(states, actions, i);
    assert ThreadOk(states[i], t);
    assert FlightOk(states[i], states[i].threads[t].flight);
  }

  lemma StepKeepsResults(s: State, a: Action, f: nat)
    requires Inv(s) && Enabled(s, a) && f < |s.flights|
    ensures f < |Next(s, a).flights| && Next(s, a).flights[f].leader == s.flights[f].leader
    ensures s.flights[f].result.Some? ==> Next(s, a).flights[f].result == s.flights[f].result
  {
    assert FlightOk(s, f);
    if a.Publish? { assert ThreadOk(s, a.thread); }
  }

  /** A result, once there, is never replaced. */
  lemma {:induction false} ResultsStay(states: seq<State>, actions: seq<Action>, i: nat, j: nat, f: nat)
    requires IsRun(states, actions) && i <= j < |states| && f < |states[i].flights|
    ensures f < |states[j].flights| && states[j].flights[f].leader == states[i].flights[f].leader
    ensures states[i].flights[f].result.Some? ==> states[j].flights[f].result == states[i].flights[f].result
    decreases j
  {
    if i < j {
      ResultsStay(states, actions, i, j - 1, f);
      RunKeepsInv(states, actions, j - 1);
      StepKeepsResults(states[j-1], actions[j-1], f);
    }
  }

  lemma StepKeepsReturned(s: State, a: Action, t: nat)
    requires Enabled(s, a) && t < |s.threads| && s.threads[t].Returned?
    ensures t < |Next(s, a).threads| && Next(s, a).threads[t] == s.threads[t]
  {
  }

  lemma {:induction false} ReturnedStays(states: seq<State>, actions: seq<Action>, i: nat, j: nat, t: nat)
    requires IsRun(states, actions) && i <= j < |states| && t < |states[i].threads| && states[i].threads[t].Returned?
    ensures t < |states[j].threads| && states[j].threads[t] == states[i].threads[t]
    decreases j
  {
    if i < j {
      ReturnedStays(states, actions, i, j - 1, t);
      StepKeepsReturned(states[j-1], actions[j-1], t);
    }
  }

  /** Whatever the order in which they return, a follower and the leader of its flight return the same
      value. */
  lemma FollowersReturnTheLeadersResult(states: seq<State>, actions: seq<Action>, i: nat, j: nat, t: nat, u: nat)
    requires IsRun(states, actions) && i < |states| && j < |states| && t < |states[i].threads| && u < |states[j].threads|
    requires states[i].threads[t].Returned? && states[j].threads[u].Returned?
    requires states[i].threads[t].flight == states[j].threads[u].flight
    ensures states[i].threads[t].value == states[j].threads[u].value
    ensures states[i].threads[t].path == states[j].threads[u].path
  {
    var last := |states| - 1;
    ReturnedStays(states, actions, i, last, t);
    ReturnedStays(states, actions, j, last, u);
    RunKeepsInv(states, actions, last);
    assert ThreadOk(states[last], t) && ThreadOk(states[last], u);
  }

  /** Nobody returns anything but the value of the one thread that inspected for its flight. */
  lemma ReturnedIsTheLeadersResult(states: seq<State>, actions: seq<Action>, i: nat, t: nat) returns (leader: nat)
    requires IsRun(states, actions) && i < |states| && t < |states[i].threads| && states[i].threads[t].Returned?
    ensures var p := states[i].threads[t];
      && p.flight < |states[i].flights| && leader == states[i].flights[p.flight].leader < |states[i].threads|
      && var q := states[i].threads[leader];
         (q.Retiring? || q.Returned?) && q.flight == p.flight && q.path == p.path && q.value == p.value
  {
    RunKeepsInv(states, actions, i);
    assert ThreadOk(states[i], t);
    assert FlightOk(states[i], states[i].threads[t].flight);
    leader := states[i].flights[states[i].threads[t].flight].leader;
  }

  // ---------------------------------------------------------------- nobody is left waiting

  predicate Done(s: State) { forall t | 0 <= t < |s.threads| :: s.threads[t].Returned? }

  /** A step other than a new call or a wake-up for no reason. */
  predicate Productive(a: Action) { !a.Call? && !a.WakeForNoReason? }

  /** In every reachable state a call that has not returned either has a step of its own, or sleeps while
      the leader of its flight has one. So no wake-up is ever lost. */
  lemma NobodyIsStuck(states: seq<State>, actions: seq<Action>, i: nat, t: nat)
    requires IsRun(states, actions) && i < |states| && t < |states[i].threads| && !states[i].threads[t].Returned?
    ensures var s := states[i];
      var mover := if s.threads[t].Sleeping? && s.threads[t].flight < |s.flights| then s.flights[s.threads[t].flight].leader else t;
      exists a :: Productive(a) && Enabled(s, a) && a.thread == mover
  {
    var s := states[i];
    RunKeepsInv(states, actions, i);
    assert ThreadOk(s, t);
    var p := s.threads[t];
    var mover := if p.Sleeping? then s.flights[p.flight].leader else t;
    if !p.Called? { assert FlightOk(s, p.flight); }
    var a := match s.threads[mover]
      case Called(_) => Take(mover)
      case Inspecting(_, _) => Finish(mover, None)
      case Publishing(_, _, _) => Publish(mover)
      case Retiring(_, _, _) => Retire(mover)
      case _ => Look(mover);
    assert ThreadOk(s, mover);
    assert Productive(a) && Enabled(s, a) && a.thread == mover;
  }

  /** Work left until the results of all known calls are published, and work left after that. */
  function Unpublished(threads: seq<Phase>): nat {
    if threads == [] then 0
    else Unpublished(threads[..|threads|-1]) + UnpublishedRank(threads[|threads|-1])
  }

  function UnpublishedRank(p: Phase): nat {
    if p.Called? then 3 else if p.Inspecting? then 2 else if p.Publishing? then 1 else 0
  }

  function Unreturned(threads: seq<Phase>): nat {
    if threads == [] then 0
    else Unreturned(threads[..|threads|-1]) + UnreturnedRank(threads[|threads|-1])
  }

  function UnreturnedRank(p: Phase): nat {
    if p.Following? then 2 else if p.Retiring? || p.Sleeping? then 1 else 0
  }

  function Distance(s: State): nat {
    Unpublished(s.threads) * (2 * |s.threads| + 1) + Unreturned(s.threads)
  }

  lemma {:induction false} UnpublishedUpdate(threads: seq<Phase>, t: nat, p: Phase)
    requires t < |threads|
    ensures Unpublished(threads[t := p]) + UnpublishedRank(threads[t]) == Unpublished(threads) + UnpublishedRank(p)
    ensures Unreturned(threads[t := p]) + UnreturnedRank(threads[t]) == Unreturned(threads) + UnreturnedRank(p)
  {
    var n := |threads| - 1;
    if t == n {
      assert threads[t := p][..n] == threads[..n];
    } else {
      assert threads[t := p][..n] == threads[..n][t := p];
      UnpublishedUpdate(threads[..n], t, p);
    }
  }

  lemma {:induction false} WakeAllKeepsUnpublished(threads: seq<Phase>, f: nat)
    ensures Unpublished(WakeAll(threads, f)) == Unpublished(threads)
  {
    if threads != [] {
      var n := |threads| - 1;
      assert WakeAll(threads, f)[..n] == WakeAll(threads[..n], f);
      WakeAllKeepsUnpublished(threads[..n], f);
    }
  }

  lemma {:induction false} UnreturnedBound(threads: seq<Phase>)
    ensures Unreturned(threads) <= 2 * |threads|
  {
    if threads != [] { UnreturnedBound(threads[..|threads|-1]); }
  }

  lemma PublishedLess(x: nat, x': nat, y: nat, y': nat, n: nat)
    requires x' < x && y' <= 2 * n
    ensures x' * (2 * n + 1) + y' < x * (2 * n + 1) + y
  {
    assert (x' + 1) * (2 * n + 1) <= x * (2 * n + 1);
  }

  /** Every productive step brings the end nearer; a wake-up for no reason takes it one step away. */
  lemma ProductiveStepsGetNearer(s: State, a: Action)
    requires Inv(s) && Enabled(s, a) && !a.Call?
    ensures Productive(a) ==> Distance(Next(s, a)) < Distance(s)
    ensures !Productive(a) ==> Distance(Next(s, a)) == Distance(s) + 1
  {
    var s' := Next(s, a);
    RanksChange(s, a);
    UnreturnedBound(s'.threads);
    hide Inv, Unpublished, Unreturned, Next, Enabled;
    if Unpublished(s'.threads) < Unpublished(s.threads) {
      PublishedLess(Unpublished(s.threads), Unpublished(s'.threads), Unreturned(s.threads), Unreturned(s'.threads), |s.threads|);
    }
  }

  /** A step publishes a result nearer, or else uses up a rank behind that; a wake-up for no reason gives
      one back. */
  lemma RanksChange(s: State, a: Action)
    requires Inv(s) && Enabled(s, a) && !a.Call?
    ensures |Next(s, a).threads| == |s.threads|
    ensures var x, x', y, y' := Unpublished(s.threads), Unpublished(Next(s, a).threads), Unreturned(s.threads), Unreturned(Next(s, a).threads);
      && (Productive(a) ==> x' < x || (x' == x && y' < y))
      && (!Productive(a) ==> x' == x && y' == y + 1)
  {
    var s' := Next(s, a);
    var t := a.thread;
    if a.Publish? {
      var woken := WakeAll(s.threads, s.threads[t].flight);
      WakeAllKeepsUnpublished(s.threads, s.threads[t].flight);
      UnpublishedUpdate(woken, t, s'.threads[t]);
    } else {
      UnpublishedUpdate(s.threads, t, s'.threads[t]);
    }
  }

  function Idle(actions: seq<Action>): nat {
    if actions == [] then 0 else Idle(actions[..|actions|-1]) + if Productive(actions[|actions|-1]) then 0 else 1
  }

  lemma {:induction false} StepsAreBounded(states: seq<State>, actions: seq<Action>, i: nat, j: nat)
    requires IsRun(states, actions) && i <= j < |states|
    requires forall k | i <= k < j :: !actions[k].Call?
    ensures Distance(states[j]) + (j - i) <= Distance(states[i]) + 2 * Idle(actions[i..j])
    decreases j
  {
    hide Inv, Next, Enabled, Distance;
    if i < j {
      StepsAreBounded(states, actions, i, j - 1);
      RunKeepsInv(states, actions, j - 1);
      ProductiveStepsGetNearer(states[j-1], actions[j-1]);
      assert actions[i..j][..j-1-i] == actions[i..j-1];
    }
  }

  /** Once no more calls come, every run is finite but for wake-ups for no reason: its length is bounded
      by the work at hand plus two steps for each of those. A run that cannot be continued has answered
      every call. */
  lemma EveryCallReturns(states: seq<State>, actions: seq<Action>, i: nat)
    requires IsRun(states, actions) && i < |states|
    requires forall k | i <= k < |actions| :: !actions[k].Call?
    ensures |actions| - i <= Distance(states[i]) + 2 * Idle(actions[i..])
    ensures (forall a | Productive(a) :: !Enabled(states[|actions|], a)) ==> Done(states[|actions|])
  {
    StepsAreBounded(states, actions, i, |actions|);
    assert actions[i..|actions|] == actions[i..];
    if !Done(states[|actions|]) {
      var t :| 0 <= t < |states[|actions|].threads| && !states[|actions|].threads[t].Returned?;
      NobodyIsStuck(states, actions, |actions|, t);
    }
  }

  // ---------------------------------------------------------------- the program

  class Inspections {
    var threads: seq<Phase>
    var inFlight: map<Path, nat>
    var flights: seq<Flight>

    constructor ()
      ensures Now() == Start()
    {
      threads, inFlight, flights := [], map[], [];
    }

    ghost function Now(): State
      reads this
    {
      State(threads, inFlight, flights)
    }

    /** The leader check: a registered flight is joined, otherwise a new one is registered. */
    method TakeOrCreate(t: nat) returns (flight: nat, isLeader: bool)
      requires Inv(Now()) && Enabled(Now(), Take(t))
      modifies this
      ensures Now() == Next(old(Now()), Take(t)) && Inv(Now())
      ensures isLeader <==> old(threads[t].path !in inFlight)
      ensures flight < |flights| && flights[flight].path == old(threads[t].path)
      ensures isLeader ==> flight == |old(flights)| && flights[flight].result == None
      ensures !isLeader ==> flights == old(flights)
    {
      StepKeepsInv(Now(), Take(t));
      var path := threads[t].path;
      if path in inFlight {
        flight, isLeader := inFlight[path], false;
        threads := threads[t := Following(path, flight)];
      } else {
        flight, isLeader := |flights|, true;
        flights := flights + [Flight(path, t, None)];
        inFlight := inFlight[path := flight];
        threads := threads[t := Inspecting(path, flight)];
      }
    }

    /** The inspection itself, run without any lock. A panic counts as a failed command. */
    method Inspect(t: nat, outcome: Option<Inspection>) returns (value: Inspection)
      requires Inv(Now()) && Enabled(Now(), Finish(t, outcome))
      modifies this
      ensures Now() == Next(old(Now()), Finish(t, outcome)) && Inv(Now())
      ensures value == if outcome.Some? then outcome.value else CommandFailed
    {
      StepKeepsInv(Now(), Finish(t, outcome));
      value := match outcome case Some(v) => v case None => CommandFailed;
      threads := threads[t := Publishing(threads[t].path, threads[t].flight, value)];
    }

    /** Stores the result and wakes every follower, both under the lock of the result. */
    method StoreResult(t: nat)
      requires Inv(Now()) && Enabled(Now(), Publish(t))
      modifies this
      ensures Now() == Next(old(Now()), Publish(t)) && Inv(Now())
      ensures old(flights[threads[t].flight].result) == None
      ensures forall u | 0 <= u < |threads| :: !(threads[u].Sleeping? && threads[u].flight == old(threads[t].flight))
    {
      StepKeepsInv(Now(), Publish(t));
      var p := threads[t];
      assert ThreadOk(Now(), t) && FlightOk(Now(), p.flight);
      flights := flights[p.flight := flights[p.flight].(result := Some(p.value))];
      var i := 0;
      ghost var before := threads;
      while i < |threads|
        invariant i <= |threads| == |before|
        invariant forall k | 0 <= k < |threads| :: threads[k] == if k < i then Wake(before[k], p.flight) else before[k]
        invariant flights == old(flights)[p.flight := old(flights)[p.flight].(result := Some(p.value))] && inFlight == old(inFlight)
      {
        if threads[i].Sleeping? && threads[i].flight == p.flight {
          threads := threads[i := Following(threads[i].path, p.flight)];
        }
        i := i + 1;
      }
      assert threads == WakeAll(before, p.flight);
      threads := threads[t := Retiring(p.path, p.flight, p.value)];
    }

    /** Unregisters the flight, but only if the registered one is the caller's own. */
    method Unregister(t: nat) returns (value: Inspection, removed: bool)
      requires Inv(Now()) && Enabled(Now(), Retire(t))
      modifies this
      ensures Now() == Next(old(Now()), Retire(t)) && Inv(Now())
      ensures removed && old(threads[t].path) !in inFlight
      ensures old(threads[t].flight) < |flights| && flights[old(threads[t].flight)].result == Some(value)
    {
      StepKeepsInv(Now(), Retire(t));
      var p := threads[t];
      assert ThreadOk(Now(), t) && FlightOk(Now(), p.flight);
      value := p.value;
      removed := p.path in inFlight && inFlight[p.path] == p.flight;
      if removed { inFlight := inFlight - {p.path}; }
      threads := threads[t := Returned(p.path, p.flight, p.value)];
    }

    /** One round of a follower's loop: return the result if it is there, go to sleep otherwise. */
    method LookOrWait(t: nat) returns (result: Option<Inspection>)
      requires Inv(Now()) && Enabled(Now(), Look(t))
      modifies this
      ensures Now() == Next(old(Now()), Look(t)) && Inv(Now())
      ensures result == flights[old(threads[t].flight)].result
      ensures result.Some? <==> threads[t].Returned?
    {
      StepKeepsInv(Now(), Look(t));
      var p := threads[t];
      result := flights[p.flight].result;
      match result {
        case Some(value) => threads := threads[t := Returned(p.path, p.flight, value)];
        case None => threads := threads[t := Sleeping(p.path, p.flight)];
      }
    }
  }
}
