/** Permits for queue runs: first one of the provider's, then one of the global ones.

    Each request is a thread. A semaphore keeps a line of waiting requests: a permit that is given back
    goes straight to the head of the line. A permit pair gives back the global permit first, then the
    provider's, and a request may be cancelled at any point; what it held or waited for is given up.
 */
module QueueLimits {
  import opened Prelude
  import opened Texts

  const GLOBAL_LIMIT := 4
  const PROVIDER_LIMIT := 2

  /** `ProviderHeld` has a provider permit and has not asked for a global one yet; `Releasing` has given
      back the global permit, or stopped waiting for it, and still holds the provider's. */
  datatype Phase =
    | Called(provider: string)
    | ProviderQueued(provider: string)
    | ProviderHeld(provider: string)
    | GlobalQueued(provider: string)
    | Holding(provider: string)
    | Releasing(provider: string)
    | Gone

  datatype Semaphore = Semaphore(free: nat, line: seq<nat>)

  datatype Limits = Limits(global: nat, provider: nat)

  datatype State = State(threads: seq<Phase>, global: Semaphore, providers: map<string, Semaphore>)

  datatype Action =
    | Call(name: string)
    | AskProvider(thread: nat)
    | AskGlobal(thread: nat)
    | Finish(thread: nat)
    | ReleaseProvider(thread: nat)
    | Cancel(thread: nat)

  // ---------------------------------------------------------------- provider names

  function Normalize(name: string): string {
    LowerText(Trim(name))
  }

  /** A normalised name is its own normal form, so providers are told apart by it. */
  lemma NormalizeTwice(name: string)
    ensures Normalize(Normalize(name)) == Normalize(name)
  {
    var trimmed := Trim(name);
    TrimStartDone(name);
    TrimEndDone(TrimStart(name));
    var low := LowerText(trimmed);
    if low != [] {
      assert !IsSpace(low[0]) && !IsSpace(low[|low|-1]);
      assert TrimStart(low) == low && TrimEnd(low) == low;
    }
    assert LowerText(low) == low;
  }

  /** Two names stand for one provider: without the spaces around them they have the same letters, ASCII
      case aside. */
  ghost predicate SameName(a: string, b: string) {
    exists x, y :: IsCore(a, x) && IsCore(b, y) && SameLetters(x, y)
  }

  lemma NormalizeIff(a: string, b: string)
    ensures Normalize(a) == Normalize(b) <==> SameName(a, b)
  {
    TrimIsCore(a);
    TrimIsCore(b);
    LowerTextIff(Trim(a), Trim(b));
    if SameName(a, b) {
      var x, y :| IsCore(a, x) && IsCore(b, y) && SameLetters(x, y);
      CoreIsUnique(a, x, Trim(a));
      CoreIsUnique(b, y, Trim(b));
    }
  }

  // ---------------------------------------------------------------- the steps

  predicate HasProvider(p: Phase) {
    p.ProviderHeld? || p.GlobalQueued? || p.Holding? || p.Releasing?
  }

  predicate Enabled(s: State, a: Action) {
    if a.Call? then true
    else
      && a.thread < |s.threads|
      && match a
         case AskProvider(t) => s.threads[t].Called?
         case AskGlobal(t) => s.threads[t].ProviderHeld?
         case Finish(t) => s.threads[t].Holding?
         case ReleaseProvider(t) => s.threads[t].Releasing?
         case Cancel(t) => !s.threads[t].Gone? && !s.threads[t].Releasing?
  }

  function Without(line: seq<nat>, t: nat): seq<nat> {
    if line == [] then []
    else if line[0] == t then line[1..]
    else [line[0]] + Without(line[1..], t)
  }

  function SemaphoreOf(s: State, l: Limits, name: string): Semaphore {
    if name in s.providers then s.providers[name] else Semaphore(l.provider, [])
  }

  /** Gives a permit back: to the head of the line if anyone waits. */
  function GiveBackGlobal(s: State): State {
    var line := s.global.line;
    if line == [] || line[0] >= |s.threads| || !s.threads[line[0]].GlobalQueued? then s.(global := s.global.(free := s.global.free + 1))
    else s.(global := s.global.(line := line[1..]), threads := s.threads[line[0] := Holding(s.threads[line[0]].provider)])
  }

  function GiveBackProvider(s: State, name: string): State
    requires name in s.providers
  {
    var sem := s.providers[name];
    if sem.line == [] || sem.line[0] >= |s.threads| then s.(providers := s.providers[name := sem.(free := sem.free + 1)])
    else s.(providers := s.providers[name := sem.(line := sem.line[1..])], threads := s.threads[sem.line[0] := ProviderHeld(name)])
  }

  function Next(s: State, l: Limits, a: Action): State
    requires Enabled(s, a)
  {
    match a
    case Call(name) => s.(threads := s.threads + [Called(name)])
    case AskProvider(t) =>
      var name := Normalize(s.threads[t].provider);
      var sem := SemaphoreOf(s, l, name);
      if sem.free > 0 && sem.line == [] then
        s.(providers := s.providers[name := sem.(free := sem.free - 1)], threads := s.threads[t := ProviderHeld(name)])
      else
        s.(providers := s.providers[name := sem.(line := sem.line + [t])], threads := s.threads[t := ProviderQueued(name)])
    case AskGlobal(t) =>
      var name := s.threads[t].provider;
      if s.global.free > 0 && s.global.line == [] then
        s.(global := s.global.(free := s.global.free - 1), threads := s.threads[t := Holding(name)])
      else
        s.(global := s.global.(line := s.global.line + [t]), threads := s.threads[t := GlobalQueued(name)])
    case Finish(t) => GiveBackGlobal(s.(threads := s.threads[t := Releasing(s.threads[t].provider)]))
    case ReleaseProvider(t) =>
      var name := s.threads[t].provider;
      var left := s.(threads := s.threads[t := Gone]);
      if name in s.providers then GiveBackProvider(left, name) else left
    case Cancel(t) =>
      match s.threads[t]
      case ProviderQueued(name) =>
        if name in s.providers then
          s.(threads := s.threads[t := Gone],
             providers := s.providers[name := s.providers[name].(line := Without(s.providers[name].line, t))])
        else s.(threads := s.threads[t := Gone])
      case ProviderHeld(name) => s.(threads := s.threads[t := Releasing(name)])
      case GlobalQueued(name) =>
        s.(threads := s.threads[t := Releasing(name)], global := s.global.(line := Without(s.global.line, t)))
      case Holding(name) => GiveBackGlobal(s.(threads := s.threads[t := Releasing(name)]))
      case _ => s.(threads := s.threads[t := Gone])
  }

  function Start(l: Limits): State { State([], Semaphore(l.global, []), map[]) }

  // ---------------------------------------------------------------- counting permits

  function Count(threads: seq<Phase>, f: Phase -> bool): nat {
    if threads == [] then 0 else Count(threads[..|threads|-1], f) + if f(threads[|threads|-1]) then 1 else 0
  }

  function Holders(name: string): Phase -> bool { (p: Phase) => HasProvider(p) && p.provider == name }

  function GlobalHolders(): Phase -> bool { (p: Phase) => p.Holding? }

  lemma {:induction false} CountUpdate(threads: seq<Phase>, t: nat, p: Phase, f: Phase -> bool)
    requires t < |threads|
    ensures Count(threads[t := p], f) + (if f(threads[t]) then 1 else 0) == Count(threads, f) + (if f(p) then 1 else 0)
  {
    var n := |threads| - 1;
    if t == n {
      assert threads[t := p][..n] == threads[..n];
    } else {
      assert threads[t := p][..n] == threads[..n][t := p];
      CountUpdate(threads[..n], t, p, f);
    }
  }

  lemma {:induction false} CountedExists(threads: seq<Phase>, f: Phase -> bool)
    requires Count(threads, f) > 0
    ensures exists t | 0 <= t < |threads| :: f(threads[t])
  {
    var n := |threads| - 1;
    if !f(threads[n]) {
      CountedExists(threads[..n], f);
      var t :| 0 <= t < n && f(threads[..n][t]);
      assert f(threads[t]);
    }
  }

  // ---------------------------------------------------------------- what every step keeps

  ghost predicate Distinct(line: seq<nat>) {
    forall i, j | 0 <= i < j < |line| :: line[i] != line[j]
  }

  /** Permits are conserved: the free ones and the held ones make the limit. The line holds exactly the
      requests that wait, and nobody waits while a permit is free. */
  ghost predicate SemaphoreOk(sem: Semaphore, limit: nat, threads: seq<Phase>, holds: Phase -> bool, waits: Phase -> bool) {
    && sem.free + Count(threads, holds) == limit
    && Distinct(sem.line) && (sem.free > 0 ==> sem.line == [])
    && (forall t: nat :: t in sem.line <==> t < |threads| && waits(threads[t]))
  }

  function GlobalWaits(): Phase -> bool { (p: Phase) => p.GlobalQueued? }

  function Waits(name: string): Phase -> bool { (p: Phase) => p == ProviderQueued(name) }

  ghost predicate GlobalOk(s: State, l: Limits) {
    SemaphoreOk(s.global, l.global, s.threads, GlobalHolders(), GlobalWaits())
  }

  ghost predicate ProviderOk(s: State, l: Limits, name: string)
    requires name in s.providers
  {
    SemaphoreOk(s.providers[name], l.provider, s.threads, Holders(name), Waits(name))
  }

  ghost predicate Known(s: State) {
    forall t | 0 <= t < |s.threads| && !s.threads[t].Called? && !s.threads[t].Gone? :: s.threads[t].provider in s.providers
  }

  ghost predicate Inv(s: State, l: Limits) {
    && Known(s) && GlobalOk(s, l)
    && forall name | name in s.providers :: ProviderOk(s, l, name)
  }

  lemma {:induction false} WithoutIs(line: seq<nat>, t: nat)
    requires Distinct(line)
    ensures Distinct(Without(line, t)) && (forall x :: x in Without(line, t) <==> x in line && x != t)
    ensures line == [] ==> Without(line, t) == []
  {
    if line != [] {
      var rest := line[1..];
      assert line == [line[0]] + rest;
      assert forall i | 0 <= i < |rest| :: rest[i] == line[i+1];
      WithoutIs(rest, t);
      if line[0] != t {
        var w := Without(rest, t);
        forall i, j | 0 <= i < j < |[line[0]] + w| ensures ([line[0]] + w)[i] != ([line[0]] + w)[j] {
          assert w[j-1] in rest;
          if i == 0 { assert w[j-1] != line[0]; }
        }
      }
    }
  }

  lemma HeadLeaves(line: seq<nat>)
    requires Distinct(line) && line != []
    ensures Distinct(line[1..]) && forall x :: x in line[1..] <==> x in line && x != line[0]
  {
    assert line == [line[0]] + line[1..];
    forall i, j | 0 <= i < j < |line[1..]| ensures line[1..][i] != line[1..][j] {
      assert line[1..][i] == line[i+1] && line[1..][j] == line[j+1];
    }
    forall i | 0 <= i < |line[1..]| ensures line[1..][i] != line[0] { assert line[1..][i] == line[i+1]; }
  }

  // What can happen to one semaphore when a thread changes its phase.

  lemma Unrelated(sem: Semaphore, limit: nat, threads: seq<Phase>, holds: Phase -> bool, waits: Phase -> bool, t: nat, p: Phase)
    requires SemaphoreOk(sem, limit, threads, holds, waits) && t < |threads|
    requires holds(p) == holds(threads[t]) && waits(p) == waits(threads[t])
    ensures SemaphoreOk(sem, limit, threads[t := p], holds, waits)
  {
    CountUpdate(threads, t, p, holds);
  }

  lemma Taken(sem: Semaphore, limit: nat, threads: seq<Phase>, holds: Phase -> bool, waits: Phase -> bool, t: nat, p: Phase)
    requires SemaphoreOk(sem, limit, threads, holds, waits) && t < |threads| && sem.free > 0
    requires !holds(threads[t]) && !waits(threads[t]) && holds(p) && !waits(p)
    ensures SemaphoreOk(sem.(free := sem.free - 1), limit, threads[t := p], holds, waits)
  {
    CountUpdate(threads, t, p, holds);
  }

  lemma LinedUp(sem: Semaphore, limit: nat, threads: seq<Phase>, holds: Phase -> bool, waits: Phase -> bool, t: nat, p: Phase)
    requires SemaphoreOk(sem, limit, threads, holds, waits) && t < |threads| && !(sem.free > 0 && sem.line == [])
    requires !holds(threads[t]) && !waits(threads[t]) && !holds(p) && waits(p)
    ensures SemaphoreOk(sem.(line := sem.line + [t]), limit, threads[t := p], holds, waits)
  {
    CountUpdate(threads, t, p, holds);
  }

  lemma LeftLine(sem: Semaphore, limit: nat, threads: seq<Phase>, holds: Phase -> bool, waits: Phase -> bool, t: nat, p: Phase)
    requires SemaphoreOk(sem, limit, threads, holds, waits) && t < |threads|
    requires waits(threads[t]) && !holds(threads[t]) && !holds(p) && !waits(p)
    ensures SemaphoreOk(sem.(line := Without(sem.line, t)), limit, threads[t := p], holds, waits)
  {
    WithoutIs(sem.line, t);
    CountUpdate(threads, t, p, holds);
  }

  /** A permit given back stays free, or goes to the head of the line. */
  lemma GivenBack(sem: Semaphore, limit: nat, threads: seq<Phase>, holds: Phase -> bool, waits: Phase -> bool, t: nat, p: Phase, q: Phase)
    requires SemaphoreOk(sem, limit, threads, holds, waits) && t < |threads|
    requires holds(threads[t]) && !waits(threads[t]) && !holds(p) && !waits(p)
    requires holds(q) && !waits(q) && forall x :: waits(x) ==> !holds(x)
    ensures if sem.line == [] then SemaphoreOk(sem.(free := sem.free + 1), limit, threads[t := p], holds, waits)
            else
              && sem.line[0] < |threads| && sem.line[0] != t && waits(threads[sem.line[0]])
              && SemaphoreOk(sem.(line := sem.line[1..]), limit, threads[t := p][sem.line[0] := q], holds, waits)
  {
    CountUpdate(threads, t, p, holds);
    if sem.line != [] {
      assert sem.line[0] in sem.line;
      HeadLeaves(sem.line);
      CountUpdate(threads[t := p], sem.line[0], q, holds);
    }
  }

  lemma Joined(sem: Semaphore, limit: nat, threads: seq<Phase>, holds: Phase -> bool, waits: Phase -> bool, p: Phase)
    requires SemaphoreOk(sem, limit, threads, holds, waits) && !holds(p) && !waits(p)
    ensures SemaphoreOk(sem, limit, threads + [p], holds, waits)
  {
    assert (threads + [p])[..|threads|] == threads;
  }

  // The steps.

  lemma GiveBackGlobalOk(s: State, l: Limits, t: nat, s': State)
    requires Inv(s, l) && t < |s.threads| && s.threads[t].Holding?
    requires s' == GiveBackGlobal(s.(threads := s.threads[t := Releasing(s.threads[t].provider)]))
    ensures Inv(s', l)
  {
    var mine := s.threads[t].provider;
    hide SemaphoreOk;
    var line := s.global.line;
    var other := if line != [] && line[0] < |s.threads| && s.threads[line[0]].GlobalQueued? then s.threads[line[0]].provider else "";
    GivenBack(s.global, l.global, s.threads, GlobalHolders(), GlobalWaits(), t, Releasing(mine), Holding(other));
    forall n | n in s.providers ensures ProviderOk(s', l, n) {
      assert ProviderOk(s, l, n);
      Unrelated(s.providers[n], l.provider, s.threads, Holders(n), Waits(n), t, Releasing(mine));
      if line != [] {
        Unrelated(s.providers[n], l.provider, s.threads[t := Releasing(mine)], Holders(n), Waits(n), line[0], Holding(other));
      }
    }
  }

  lemma GiveBackProviderOk(s: State, l: Limits, t: nat)
    requires Inv(s, l) && Enabled(s, ReleaseProvider(t))
    ensures Inv(Next(s, l, ReleaseProvider(t)), l)
  {
    var name := s.threads[t].provider;
    var s' := Next(s, l, ReleaseProvider(t));
    assert ProviderOk(s, l, name);
    hide SemaphoreOk;
    var line := s.providers[name].line;
    GivenBack(s.providers[name], l.provider, s.threads, Holders(name), Waits(name), t, Gone, ProviderHeld(name));
    Unrelated(s.global, l.global, s.threads, GlobalHolders(), GlobalWaits(), t, Gone);
    if line != [] { Unrelated(s.global, l.global, s.threads[t := Gone], GlobalHolders(), GlobalWaits(), line[0], ProviderHeld(name)); }
    forall n | n in s'.providers ensures ProviderOk(s', l, n) {
      assert ProviderOk(s, l, n);
      if n != name {
        Unrelated(s.providers[n], l.provider, s.threads, Holders(n), Waits(n), t, Gone);
        if line != [] { Unrelated(s.providers[n], l.provider, s.threads[t := Gone], Holders(n), Waits(n), line[0], ProviderHeld(name)); }
      }
    }
  }

  lemma SemaphoreOfOk(s: State, l: Limits, name: string)
    requires Inv(s, l)
    ensures SemaphoreOk(SemaphoreOf(s, l, name), l.provider, s.threads, Holders(name), Waits(name))
  {
    if name in s.providers {
      assert ProviderOk(s, l, name);
    } else {
      NobodyHolds(s, name);
    }
  }

  lemma AskProviderOk(s: State, l: Limits, t: nat)
    requires Inv(s, l) && Enabled(s, AskProvider(t))
    ensures Inv(Next(s, l, AskProvider(t)), l)
  {
    var name := Normalize(s.threads[t].provider);
    var s' := Next(s, l, AskProvider(t));
    var sem := SemaphoreOf(s, l, name);
    SemaphoreOfOk(s, l, name);
    hide SemaphoreOk, Normalize, SemaphoreOf;
    Unrelated(s.global, l.global, s.threads, GlobalHolders(), GlobalWaits(), t, s'.threads[t]);
    if sem.free > 0 && sem.line == [] {
      Taken(sem, l.provider, s.threads, Holders(name), Waits(name), t, ProviderHeld(name));
    } else {
      LinedUp(sem, l.provider, s.threads, Holders(name), Waits(name), t, ProviderQueued(name));
    }
    forall n | n in s'.providers && n != name ensures ProviderOk(s', l, n) {
      assert ProviderOk(s, l, n);
      Unrelated(s.providers[n], l.provider, s.threads, Holders(n), Waits(n), t, s'.threads[t]);
    }
  }

  lemma {:induction false} NobodyHolds(s: State, name: string)
    requires Known(s) && name !in s.providers
    ensures Count(s.threads, Holders(name)) == 0
  {
    if Count(s.threads, Holders(name)) > 0 {
      CountedExists(s.threads, Holders(name));
    }
  }

  lemma AskGlobalOk(s: State, l: Limits, t: nat)
    requires Inv(s, l) && Enabled(s, AskGlobal(t))
    ensures Inv(Next(s, l, AskGlobal(t)), l)
  {
    var s' := Next(s, l, AskGlobal(t));
    var name := s.threads[t].provider;
    hide SemaphoreOk;
    if s.global.free > 0 && s.global.line == [] {
      Taken(s.global, l.global, s.threads, GlobalHolders(), GlobalWaits(), t, Holding(name));
    } else {
      LinedUp(s.global, l.global, s.threads, GlobalHolders(), GlobalWaits(), t, GlobalQueued(name));
    }
    forall n | n in s'.providers ensures ProviderOk(s', l, n) {
      assert ProviderOk(s, l, n);
      Unrelated(s.providers[n], l.provider, s.threads, Holders(n), Waits(n), t, s'.threads[t]);
    }
  }

  /** A request that is cancelled while it does not hold a global permit. */
  lemma CancelOk(s: State, l: Limits, t: nat)
    requires Inv(s, l) && Enabled(s, Cancel(t)) && !s.threads[t].Holding?
    ensures Inv(Next(s, l, Cancel(t)), l)
  {
    var s' := Next(s, l, Cancel(t));
    var p := s.threads[t];
    hide SemaphoreOk, Without;
    if p.GlobalQueued? {
      LeftLine(s.global, l.global, s.threads, GlobalHolders(), GlobalWaits(), t, Releasing(p.provider));
    } else {
      Unrelated(s.global, l.global, s.threads, GlobalHolders(), GlobalWaits(), t, s'.threads[t]);
    }
    forall n | n in s'.providers ensures ProviderOk(s', l, n) {
      assert ProviderOk(s, l, n);
      if p == ProviderQueued(n) {
        LeftLine(s.providers[n], l.provider, s.threads, Holders(n), Waits(n), t, Gone);
      } else {
        Unrelated(s.providers[n], l.provider, s.threads, Holders(n), Waits(n), t, s'.threads[t]);
      }
    }
  }

  lemma CallOk(s: State, l: Limits, name: string)
    requires Inv(s, l)
    ensures Inv(Next(s, l, Call(name)), l)
  {
    var s' := Next(s, l, Call(name));
    hide SemaphoreOk;
    Joined(s.global, l.global, s.threads, GlobalHolders(), GlobalWaits(), Called(name));
    forall n | n in s'.providers ensures ProviderOk(s', l, n) {
      assert ProviderOk(s, l, n);
      Joined(s.providers[n], l.provider, s.threads, Holders(n), Waits(n), Called(name));
    }
  }

  lemma StepKeepsInv(s: State, l: Limits, a: Action)
    requires Inv(s, l) && Enabled(s, a)
    ensures Inv(Next(s, l, a), l)
  {
    hide Inv;
    match a
    case Call(name) => CallOk(s, l, name);
    case AskProvider(t) => AskProviderOk(s, l, t);
    case AskGlobal(t) => AskGlobalOk(s, l, t);
    case Finish(t) => GiveBackGlobalOk(s, l, t, Next(s, l, a));
    case ReleaseProvider(t) => GiveBackProviderOk(s, l, t);
    case Cancel(t) =>
      if s.threads[t].Holding? {
        GiveBackGlobalOk(s, l, t, Next(s, l, a));
      } else {
        CancelOk(s, l, t);
      }
  }

  // ---------------------------------------------------------------- whole runs

  ghost predicate IsRun(l: Limits, states: seq<State>, actions: seq<Action>) {
    && |states| == |actions| + 1 && states[0] == Start(l)
    && forall i | 0 <= i < |actions| :: Enabled(states[i], actions[i]) && states[i+1] == Next(states[i], l, actions[i])
  }

  lemma {:induction false} RunKeepsInv(l: Limits, states: seq<State>, actions: seq<Action>, i: nat)
    requires IsRun(l, states, actions) && i < |states|
    ensures Inv(states[i], l)
  {
    if i > 0 {
      hide Inv, Next;
      RunKeepsInv(l, states, actions, i - 1);
      StepKeepsInv(states[i-1], l, actions[i-1]);
    }
  }

  function WithProvider(name: string): Phase -> bool { (p: Phase) => p.Holding? && p.provider == name }

  lemma {:induction false} CountImplies(threads: seq<Phase>, f: Phase -> bool, g: Phase -> bool)
    requires forall p :: f(p) ==> g(p)
    ensures Count(threads, f) <= Count(threads, g)
  {
    if threads != [] { CountImplies(threads[..|threads|-1], f, g); }
  }

  /** At any moment of any run at most four runs go on, at most two of them with one provider, whatever
      was cancelled on the way; free and held permits always make the limits. */
  lemma AtMostTheLimits(states: seq<State>, actions: seq<Action>, i: nat, name: string)
    requires IsRun(Limits(GLOBAL_LIMIT, PROVIDER_LIMIT), states, actions) && i < |states|
    ensures Count(states[i].threads, GlobalHolders()) <= 4
    ensures Count(states[i].threads, WithProvider(Normalize(name))) <= 2
    ensures states[i].global.free + Count(states[i].threads, GlobalHolders()) == 4
    ensures Normalize(name) in states[i].providers ==>
      states[i].providers[Normalize(name)].free + Count(states[i].threads, Holders(Normalize(name))) == 2
  {
    var s, n := states[i], Normalize(name);
    RunKeepsInv(Limits(GLOBAL_LIMIT, PROVIDER_LIMIT), states, actions, i);
    CountImplies(s.threads, WithProvider(n), Holders(n));
    if n in s.providers {
      assert ProviderOk(s, Limits(GLOBAL_LIMIT, PROVIDER_LIMIT), n);
    } else {
      NobodyHolds(s, n);
    }
  }

  /** The names that were asked for, in the order of the threads. */
  function Requested(actions: seq<Action>): seq<string> {
    if actions == [] then []
    else
      var a := actions[|actions|-1];
      Requested(actions[..|actions|-1]) + if a.Call? then [a.name] else []
  }

  /** Every thread goes by the name it asked for, or by its normal form. */
  ghost predicate Remembers(threads: seq<Phase>, names: seq<string>) {
    |threads| == |names| && forall t | 0 <= t < |threads| :: GoesBy(threads[t], names[t])
  }

  predicate GoesBy(p: Phase, name: string) {
    p.Gone? || p.provider == if p.Called? then name else Normalize(name)
  }

  /** The phase changed, but not the name the thread goes by. */
  predicate SameCaller(p: Phase, q: Phase) {
    q.Gone? || (!p.Gone? && q.provider == p.provider && (q.Called? <==> p.Called?))
  }

  lemma RemembersOn(threads: seq<Phase>, threads': seq<Phase>, names: seq<string>)
    requires Remembers(threads, names) && |threads'| == |threads|
    requires forall t | 0 <= t < |threads| :: SameCaller(threads[t], threads'[t])
    ensures Remembers(threads', names)
  {
    hide Normalize;
    forall t | 0 <= t < |threads| ensures GoesBy(threads'[t], names[t]) { assert GoesBy(threads[t], names[t]); }
  }

  lemma AskRemembers(s: State, l: Limits, t: nat, names: seq<string>)
    requires Enabled(s, AskProvider(t)) && Remembers(s.threads, names)
    ensures Remembers(Next(s, l, AskProvider(t)).threads, names)
  {
    hide Normalize, SemaphoreOf;
    assert GoesBy(s.threads[t], names[t]);
  }

  lemma StepKeepsCallers(s: State, l: Limits, a: Action)
    requires Inv(s, l) && Enabled(s, a) && !a.Call? && !a.AskProvider?
    ensures var threads := Next(s, l, a).threads;
      |threads| == |s.threads| && forall t | 0 <= t < |threads| :: SameCaller(s.threads[t], threads[t])
  {
    hide Normalize, SemaphoreOf, Without, Count;
    if a.ReleaseProvider? {
      var name := s.threads[a.thread].provider;
      if name in s.providers && s.providers[name].line != [] {
        assert ProviderOk(s, l, name);
        HeadWaits(s.providers[name], l.provider, s.threads, Holders(name), Waits(name));
      }
    }
  }

  lemma StepRemembers(s: State, l: Limits, a: Action, names: seq<string>)
    requires Inv(s, l) && Enabled(s, a) && Remembers(s.threads, names)
    ensures Remembers(Next(s, l, a).threads, if a.Call? then names + [a.name] else names)
  {
    if a.AskProvider? {
      AskRemembers(s, l, a.thread, names);
    } else if !a.Call? {
      hide *;
      StepKeepsCallers(s, l, a);
      RemembersOn(s.threads, Next(s, l, a).threads, names);
    } else {
      hide Inv, Normalize;
    }
  }

  lemma {:induction false} RunRemembers(l: Limits, states: seq<State>, actions: seq<Action>, i: nat)
    requires IsRun(l, states, actions) && i < |states|
    ensures Remembers(states[i].threads, Requested(actions[..i]))
  {
    if i > 0 {
      RunRemembers(l, states, actions, i - 1);
      RunKeepsInv(l, states, actions, i - 1);
      assert actions[..i][..i-1] == actions[..i-1];
      StepRemembers(states[i-1], l, actions[i-1], Requested(actions[..i-1]));
    }
  }

  /** The requests that hold a permit of a provider, however they spelled its name when they asked. */
  ghost function HoldersOf(threads: seq<Phase>, names: seq<string>, name: string): set<nat>
    requires |threads| == |names|
  {
    set t: nat | t < |threads| && HasProvider(threads[t]) && SameName(names[t], name)
  }

  function Having(threads: seq<Phase>, f: Phase -> bool): set<nat> {
    set t: nat | t < |threads| && f(threads[t])
  }

  lemma HavingSnoc(threads: seq<Phase>, p: Phase, f: Phase -> bool)
    ensures Having(threads + [p], f) == Having(threads, f) + if f(p) then {|threads|} else {}
  {
  }

  lemma {:induction false} SetIsCounted(threads: seq<Phase>, f: Phase -> bool)
    ensures |Having(threads, f)| == Count(threads, f)
  {
    if threads != [] {
      var n := |threads| - 1;
      SetIsCounted(threads[..n], f);
      HavingSnoc(threads[..n], threads[n], f);
      assert threads == threads[..n] + [threads[n]];
      assert n !in Having(threads[..n], f);
      hide Having;
    }
  }

  lemma HoldersAreCounted(threads: seq<Phase>, names: seq<string>, name: string)
    requires Remembers(threads, names)
    ensures |HoldersOf(threads, names, name)| <= Count(threads, Holders(Normalize(name)))
  {
    var f := Holders(Normalize(name));
    SetIsCounted(threads, f);
    var all := Having(threads, f);
    var mine := HoldersOf(threads, names, name);
    hide Normalize, SameName;
    forall t | t in mine ensures t in all {
      NormalizeIff(names[t], name);
      assert GoesBy(threads[t], names[t]);
    }
    hide *;
    assert all == mine + (all - mine);
  }

  lemma HoldersAreLimited(s: State, l: Limits, n: string)
    requires Inv(s, l)
    ensures Count(s.threads, Holders(n)) <= l.provider
  {
    if n in s.providers {
      assert ProviderOk(s, l, n);
    } else {
      NobodyHolds(s, n);
    }
  }

  /** The limit in terms of what was asked for: whatever the spelling, at any moment of any run at most two
      requests that named the same provider hold a permit of it. */
  lemma AtMostTwoOfAName(states: seq<State>, actions: seq<Action>, i: nat, name: string)
    requires IsRun(Limits(GLOBAL_LIMIT, PROVIDER_LIMIT), states, actions) && i < |states|
    ensures |states[i].threads| == |Requested(actions[..i])|
    ensures |HoldersOf(states[i].threads, Requested(actions[..i]), name)| <= 2
  {
    var l := Limits(GLOBAL_LIMIT, PROVIDER_LIMIT);
    RunRemembers(l, states, actions, i);
    RunKeepsInv(l, states, actions, i);
    hide Inv, Count, Holders, Normalize, HoldersOf, Requested;
    HoldersAreLimited(states[i], l, Normalize(name));
    HoldersAreCounted(states[i].threads, Requested(actions[..i]), name);
  }

  // ---------------------------------------------------------------- no deadlock

  predicate Productive(a: Action) { !a.Call? && !a.Cancel? }

  predicate Done(s: State) { forall t | 0 <= t < |s.threads| :: s.threads[t].Gone? }

  /** A request that holds a provider permit can go on, or waits for a request that can. */
  lemma HolderMoves(s: State, l: Limits, t: nat) returns (a: Action)
    requires Inv(s, l) && l.global > 0 && t < |s.threads| && HasProvider(s.threads[t])
    ensures Productive(a) && Enabled(s, a)
  {
    match s.threads[t]
    case ProviderHeld(_) => a := AskGlobal(t);
    case Holding(_) => a := Finish(t);
    case Releasing(_) => a := ReleaseProvider(t);
    case GlobalQueued(_) =>
      assert t in s.global.line;
      CountedExists(s.threads, GlobalHolders());
      var h :| 0 <= h < |s.threads| && GlobalHolders()(s.threads[h]);
      a := Finish(h);
  }

  /** Asking for the provider first and the global permit second never deadlocks: while some request has
      not ended, some request has a step. */
  lemma NoDeadlock(l: Limits, states: seq<State>, actions: seq<Action>, i: nat, t: nat)
    requires IsRun(l, states, actions) && i < |states| && l.global > 0 && l.provider > 0
    requires t < |states[i].threads| && !states[i].threads[t].Gone?
    ensures exists a :: Productive(a) && Enabled(states[i], a)
  {
    var s := states[i];
    RunKeepsInv(l, states, actions, i);
    var p := s.threads[t];
    if p.Called? {
      assert Productive(AskProvider(t)) && Enabled(s, AskProvider(t));
    } else if p.ProviderQueued? {
      assert ProviderOk(s, l, p.provider) && t in s.providers[p.provider].line;
      CountedExists(s.threads, Holders(p.provider));
      var h :| 0 <= h < |s.threads| && Holders(p.provider)(s.threads[h]);
      var a := HolderMoves(s, l, h);
    } else {
      var a := HolderMoves(s, l, t);
    }
  }

  // ---------------------------------------------------------------- every request is served

  function Rank(p: Phase): nat {
    match p
    case Called(_) => 6
    case ProviderQueued(_) => 5
    case ProviderHeld(_) => 4
    case GlobalQueued(_) => 3
    case Holding(_) => 2
    case Releasing(_) => 1
    case Gone => 0
  }

  function Work(threads: seq<Phase>): nat {
    if threads == [] then 0 else Work(threads[..|threads|-1]) + Rank(threads[|threads|-1])
  }

  lemma {:induction false} WorkUpdate(threads: seq<Phase>, t: nat, p: Phase)
    requires t < |threads|
    ensures Work(threads[t := p]) + Rank(threads[t]) == Work(threads) + Rank(p)
  {
    var n := |threads| - 1;
    if t == n {
      assert threads[t := p][..n] == threads[..n];
    } else {
      assert threads[t := p][..n] == threads[..n][t := p];
      WorkUpdate(threads[..n], t, p);
    }
  }

  lemma HeadWaits(sem: Semaphore, limit: nat, threads: seq<Phase>, holds: Phase -> bool, waits: Phase -> bool)
    requires SemaphoreOk(sem, limit, threads, holds, waits) && sem.line != []
    ensures sem.line[0] < |threads| && waits(threads[sem.line[0]])
  {
    assert sem.line[0] in sem.line;
  }

  lemma WorkTwice(threads: seq<Phase>, t: nat, p: Phase, h: nat, q: Phase)
    requires t < |threads| && h < |threads| && h != t && Rank(p) < Rank(threads[t]) && Rank(q) <= Rank(threads[h])
    ensures Work(threads[t := p]) < Work(threads) && Work(threads[t := p][h := q]) < Work(threads)
  {
    WorkUpdate(threads, t, p);
    WorkUpdate(threads[t := p], h, q);
  }

  lemma GiveBackGlobalTakesWork(s: State, l: Limits, t: nat)
    requires GlobalOk(s, l) && t < |s.threads| && s.threads[t].Holding?
    ensures Work(GiveBackGlobal(s.(threads := s.threads[t := Releasing(s.threads[t].provider)])).threads) < Work(s.threads)
  {
    var p := s.threads[t];
    if s.global.line != [] {
      HeadWaits(s.global, l.global, s.threads, GlobalHolders(), GlobalWaits());
      var h := s.global.line[0];
      WorkTwice(s.threads, t, Releasing(p.provider), h, Holding(s.threads[h].provider));
    } else {
      WorkUpdate(s.threads, t, Releasing(p.provider));
    }
  }

  lemma ReleaseProviderTakesWork(s: State, l: Limits, t: nat)
    requires Inv(s, l) && Enabled(s, ReleaseProvider(t))
    ensures Work(Next(s, l, ReleaseProvider(t)).threads) < Work(s.threads)
  {
    var name := s.threads[t].provider;
    var sem := s.providers[name];
    assert ProviderOk(s, l, name);
    hide Inv, Work, Count;
    if sem.line != [] {
      HeadWaits(sem, l.provider, s.threads, Holders(name), Waits(name));
      WorkTwice(s.threads, t, Gone, sem.line[0], ProviderHeld(name));
    } else {
      WorkUpdate(s.threads, t, Gone);
    }
  }

  /** Any other step moves its own thread alone, and nearer to the end. */
  lemma OwnStepRanksLower(s: State, l: Limits, a: Action)
    requires Enabled(s, a) && !a.Call? && !a.Finish? && !a.ReleaseProvider? && !(a.Cancel? && s.threads[a.thread].Holding?)
    ensures var threads := Next(s, l, a).threads;
      && |threads| == |s.threads| && threads == s.threads[a.thread := threads[a.thread]]
      && Rank(threads[a.thread]) < Rank(s.threads[a.thread])
  {
    hide Without, Normalize, SemaphoreOf;
  }

  lemma GivingBackIsNext(s: State, l: Limits, a: Action)
    requires Enabled(s, a) && (a.Finish? || (a.Cancel? && s.threads[a.thread].Holding?))
    ensures s.threads[a.thread].Holding?
    ensures Next(s, l, a) == GiveBackGlobal(s.(threads := s.threads[a.thread := Releasing(s.threads[a.thread].provider)]))
  {
    hide GiveBackGlobal;
  }

  /** No step but a new call adds work, and each takes some away. */
  lemma StepsTakeWork(s: State, l: Limits, a: Action)
    requires Inv(s, l) && Enabled(s, a) && !a.Call?
    ensures Work(Next(s, l, a).threads) < Work(s.threads)
  {
    assert GlobalOk(s, l);
    hide Next, Inv, GlobalOk, Work, GiveBackGlobal, Rank;
    if a.Finish? || (a.Cancel? && s.threads[a.thread].Holding?) {
      GivingBackIsNext(s, l, a);
      GiveBackGlobalTakesWork(s, l, a.thread);
    } else if a.ReleaseProvider? {
      ReleaseProviderTakesWork(s, l, a.thread);
    } else {
      OwnStepRanksLower(s, l, a);
      WorkUpdate(s.threads, a.thread, Next(s, l, a).threads[a.thread]);
    }
  }

  lemma {:induction false} RunsAreShort(l: Limits, states: seq<State>, actions: seq<Action>, i: nat, j: nat)
    requires IsRun(l, states, actions) && i <= j < |states| && forall k | i <= k < j :: !actions[k].Call?
    ensures Work(states[j].threads) + (j - i) <= Work(states[i].threads)
    decreases j
  {
    if i < j {
      RunsAreShort(l, states, actions, i, j - 1);
      RunKeepsInv(l, states, actions, j - 1);
      StepsTakeWork(states[j-1], l, actions[j-1]);
    }
  }

  /** A request that ends without being cancelled has held both permits on the way. */
  ghost predicate Served(states: seq<State>, j: nat, t: nat) {
    exists i | 0 <= i <= j && i < |states| :: t < |states[i].threads| && states[i].threads[t].Holding?
  }

  lemma {:induction false} EndedMeansServed(l: Limits, states: seq<State>, actions: seq<Action>, j: nat, t: nat)
    requires IsRun(l, states, actions) && j < |states| && t < |states[j].threads|
    requires forall k | 0 <= k < j :: actions[k] != Cancel(t)
    requires states[j].threads[t].Gone? || states[j].threads[t].Releasing? || states[j].threads[t].Holding?
    ensures Served(states, j, t)
    decreases j
  {
    if states[j].threads[t].Holding? {
      assert Served(states, j, t);
    } else {
      RunKeepsInv(l, states, actions, j - 1);
      EndedStep(l, states[j-1], actions[j-1], t);
      EndedMeansServed(l, states, actions, j - 1, t);
      var i :| 0 <= i <= j - 1 && i < |states| && t < |states[i].threads| && states[i].threads[t].Holding?;
    }
  }

  lemma EndedStep(l: Limits, s: State, a: Action, t: nat)
    requires Inv(s, l) && Enabled(s, a) && a != Cancel(t) && t < |Next(s, l, a).threads|
    requires Next(s, l, a).threads[t].Gone? || Next(s, l, a).threads[t].Releasing?
    ensures t < |s.threads| && (s.threads[t].Gone? || s.threads[t].Releasing? || s.threads[t].Holding?)
  {
  }

  /** Once no more requests come, every run is finite, and a run that cannot be continued has served every
      request that was not cancelled. */
  lemma EveryRequestIsServed(l: Limits, states: seq<State>, actions: seq<Action>, i: nat, t: nat)
    requires IsRun(l, states, actions) && i < |states| && l.global > 0 && l.provider > 0
    requires forall k | i <= k < |actions| :: !actions[k].Call?
    ensures |actions| - i <= Work(states[i].threads)
    ensures (forall a | Productive(a) :: !Enabled(states[|actions|], a)) && t < |states[|actions|].threads|
            && (forall k | 0 <= k < |actions| :: actions[k] != Cancel(t))
            ==> Served(states, |actions|, t)
  {
    RunsAreShort(l, states, actions, i, |actions|);
    var last := states[|actions|];
    if (forall a | Productive(a) :: !Enabled(last, a)) && t < |last.threads| && (forall k | 0 <= k < |actions| :: actions[k] != Cancel(t)) {
      if !last.threads[t].Gone? { NoDeadlock(l, states, actions, |actions|, t); }
      EndedMeansServed(l, states, actions, |actions|, t);
    }
  }

  /** Nobody overtakes: whoever is ahead of a waiting request after a step was ahead of it before. */
  lemma NobodyOvertakes(s: State, l: Limits, a: Action, name: string, i: nat, j: nat)
    requires Inv(s, l) && Enabled(s, a) && name in s.providers && name in Next(s, l, a).providers
    requires i < j < |Next(s, l, a).providers[name].line|
    requires Next(s, l, a).providers[name].line[j] in s.providers[name].line
    ensures Before(s.providers[name].line, Next(s, l, a).providers[name].line[i], Next(s, l, a).providers[name].line[j])
  {
    var line, line' := s.providers[name].line, Next(s, l, a).providers[name].line;
    assert ProviderOk(s, l, name);
    if line' == line {
    } else if a.ReleaseProvider? {
      assert line'[i] == line[i+1] && line'[j] == line[j+1];
    } else if a.Cancel? {
      WithoutKeepsOrder(line, a.thread, i, j);
    } else {
      assert line' == line + [a.thread] && a.thread !in line;
      assert line'[|line|] == a.thread;
    }
  }

  /** The same for the line of the global semaphore. */
  lemma NobodyOvertakesGlobally(s: State, l: Limits, a: Action, i: nat, j: nat)
    requires Inv(s, l) && Enabled(s, a)
    requires i < j < |Next(s, l, a).global.line| && Next(s, l, a).global.line[j] in s.global.line
    ensures Before(s.global.line, Next(s, l, a).global.line[i], Next(s, l, a).global.line[j])
  {
    var line, line' := s.global.line, Next(s, l, a).global.line;
    if line' == line {
    } else if a.Finish? || (a.Cancel? && s.threads[a.thread].Holding?) {
      assert line'[i] == line[i+1] && line'[j] == line[j+1];
    } else if a.Cancel? {
      WithoutKeepsOrder(line, a.thread, i, j);
    } else {
      assert line' == line + [a.thread] && a.thread !in line;
      assert line'[|line|] == a.thread;
    }
  }

  ghost predicate Before(line: seq<nat>, x: nat, y: nat) {
    exists i, j | 0 <= i < j < |line| :: line[i] == x && line[j] == y
  }

  lemma {:induction false} WithoutKeepsOrder(line: seq<nat>, t: nat, i: nat, j: nat)
    requires i < j < |Without(line, t)|
    ensures Before(line, Without(line, t)[i], Without(line, t)[j])
  {
    var w := Without(line, t);
    if line[0] == t {
      assert w[i] == line[i+1] && w[j] == line[j+1];
    } else {
      var rest := Without(line[1..], t);
      if i > 0 {
        WithoutKeepsOrder(line[1..], t, i - 1, j - 1);
        var x, y :| 0 <= x < y < |line[1..]| && line[1..][x] == w[i] && line[1..][y] == w[j];
        assert line[x+1] == w[i] && line[y+1] == w[j];
      } else {
        WithoutMembers(line[1..], t, j - 1);
        var y :| 0 <= y < |line[1..]| && line[1..][y] == w[j];
        assert line[0] == w[i] && line[y+1] == w[j];
      }
    }
  }

  lemma {:induction false} WithoutMembers(line: seq<nat>, t: nat, j: nat)
    requires j < |Without(line, t)|
    ensures Without(line, t)[j] in line
  {
    if line[0] == t {
      assert Without(line, t)[j] == line[j+1];
    } else if j > 0 {
      WithoutMembers(line[1..], t, j - 1);
      assert Without(line, t)[j] == Without(line[1..], t)[j-1];
    }
  }

  // ---------------------------------------------------------------- the program

  lemma AskedProvider(s: State, l: Limits, t: nat)
    requires Enabled(s, AskProvider(t))
    ensures var name := Normalize(s.threads[t].provider);
      var sem := SemaphoreOf(s, l, name);
      && (name in s.providers ==> sem == s.providers[name]) && (name !in s.providers ==> sem == Semaphore(l.provider, []))
      && Next(s, l, AskProvider(t)) ==
           if sem.free > 0 && sem.line == []
           then State(s.threads[t := ProviderHeld(name)], s.global, s.providers[name := Semaphore(sem.free - 1, sem.line)])
           else State(s.threads[t := ProviderQueued(name)], s.global, s.providers[name := Semaphore(sem.free, sem.line + [t])])
  {
  }

  class QueueExecutionLimiter {
    const limits: Limits
    var threads: seq<Phase>
    var global: Semaphore
    var providers: map<string, Semaphore>

    constructor (globalLimit: nat, providerLimit: nat)
      ensures limits == Limits(globalLimit, providerLimit) && Now() == Start(limits)
    {
      limits := Limits(globalLimit, providerLimit);
      threads, global, providers := [], Semaphore(globalLimit, []), map[];
    }

    ghost function Now(): State
      reads this
    {
      State(threads, global, providers)
    }

    /** Finds or makes the semaphore of a normalised name. */
    method ProviderSemaphore(name: string) returns (sem: Semaphore)
      modifies this`providers
      ensures sem == SemaphoreOf(old(Now()), limits, name) && providers == old(providers)[name := sem]
    {
      if name !in providers {
        providers := providers[name := Semaphore(limits.provider, [])];
      }
      sem := providers[name];
    }

    /** Finds or makes the provider's semaphore, then takes a permit of it or gets in line. */
    method AcquireProvider(t: nat) returns (granted: bool)
      requires Inv(Now(), limits) && Enabled(Now(), AskProvider(t))
      modifies this
      ensures Now() == Next(old(Now()), limits, AskProvider(t)) && Inv(Now(), limits)
      ensures granted <==> threads[t].ProviderHeld?
    {
      StepKeepsInv(Now(), limits, AskProvider(t));
      AskedProvider(Now(), limits, t);
      hide Inv, Normalize, Next, SemaphoreOf;
      var name := Normalize(threads[t].provider);
      var sem := ProviderSemaphore(name);
      granted := sem.free > 0 && sem.line == [];
      if granted {
        providers := providers[name := Semaphore(sem.free - 1, sem.line)];
        threads := threads[t := ProviderHeld(name)];
      } else {
        providers := providers[name := Semaphore(sem.free, sem.line + [t])];
        threads := threads[t := ProviderQueued(name)];
      }
    }

    method AcquireGlobal(t: nat) returns (granted: bool)
      requires Inv(Now(), limits) && Enabled(Now(), AskGlobal(t))
      modifies this
      ensures Now() == Next(old(Now()), limits, AskGlobal(t)) && Inv(Now(), limits)
      ensures granted <==> threads[t].Holding?
    {
      StepKeepsInv(Now(), limits, AskGlobal(t));
      hide Inv;
      var name := threads[t].provider;
      granted := global.free > 0 && global.line == [];
      if granted {
        global := Semaphore(global.free - 1, global.line);
        threads := threads[t := Holding(name)];
      } else {
        global := Semaphore(global.free, global.line + [t]);
        threads := threads[t := GlobalQueued(name)];
      }
    }

    /** The first half of dropping a permit pair. */
    method DropGlobal(t: nat)
      requires Inv(Now(), limits) && Enabled(Now(), Finish(t))
      modifies this
      ensures Now() == Next(old(Now()), limits, Finish(t)) && Inv(Now(), limits)
    {
      StepKeepsInv(Now(), limits, Finish(t));
      if global.line != [] { HeadWaits(global, limits.global, threads, GlobalHolders(), GlobalWaits()); }
      hide Inv;
      threads := threads[t := Releasing(threads[t].provider)];
      if global.line == [] {
        global := Semaphore(global.free + 1, []);
      } else {
        threads := threads[global.line[0] := Holding(threads[global.line[0]].provider)];
        global := Semaphore(global.free, global.line[1..]);
      }
    }

    /** The second half. */
    method DropProvider(t: nat)
      requires Inv(Now(), limits) && Enabled(Now(), ReleaseProvider(t))
      modifies this
      ensures Now() == Next(old(Now()), limits, ReleaseProvider(t)) && Inv(Now(), limits)
    {
      StepKeepsInv(Now(), limits, ReleaseProvider(t));
      var name := threads[t].provider;
      var sem := providers[name];
      assert ProviderOk(Now(), limits, name);
      if sem.line != [] { HeadWaits(sem, limits.provider, threads, Holders(name), Waits(name)); }
      hide Inv;
      threads := threads[t := Gone];
      if sem.line == [] {
        providers := providers[name := Semaphore(sem.free + 1, [])];
      } else {
        threads := threads[sem.line[0] := ProviderHeld(name)];
        providers := providers[name := Semaphore(sem.free, sem.line[1..])];
      }
    }
  }
}
