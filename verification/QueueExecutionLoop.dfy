/** One queue execution: its runs are registered, started and awaited in order, and whatever way it ends,
    no run of it goes on and its registry entry is gone.

    Its abort handles are the numbers from `first` on. Between any two steps other executions come and go
    and anyone may cancel this one.
 */
module QueueExecutionLoop {
  import opened Prelude
  import opened QueueExecutions
  import opened Texts

  /** How a run ended. `Stopped` is the outcome of a run that was aborted before it finished. */
  datatype RunOutcome = Success(text: string) | Failure(code: string) | Stopped

  /** What waiting for a run gave: its outcome, or that its task broke off. */
  datatype Join = Ended(outcome: RunOutcome) | Broken

  datatype ExecutionError =
    | NoTask
    | VaultLocked
    | NotPlanned
    | NoClient
    | NotRegistered
    | Interrupted
    | Cancelled
    | NoReport
    | Refused(error: Error)
    | NotBegun
    | NotCompleted
    | NotMarked

  /** What an execution meets: whether the vault is open, how many runs its plan has if it can be planned,
      whether there is a client, of which outcomes a report can be made, and whether the work order's file
      can be begun, completed and marked as failed. */
  datatype World = World(
    vaultOpen: bool, planned: Option<nat>, clientOk: bool, reports: seq<RunOutcome> -> bool,
    begins: bool, completes: bool, marks: bool)

  /** What became of the work order's file. */
  datatype OrderState = Queued | Begun | Archived | MarkedFailed

  // ---------------------------------------------------------------- what others may do

  /** The handle of run `k`. */
  function Handle(first: nat, k: nat): nat { first + k }

  function OwnHandles(first: nat, n: nat): set<nat> {
    set k | 0 <= k < n :: Handle(first, k)
  }

  predicate OwnHandlesOnlyByCancel(s: State, s': State, g: nat, first: nat, n: nat)
    requires g in s.guards && Mine(s, s', g)
  {
    forall k | 0 <= k < n ::
      Handle(first, k) in s'.aborted ==> Handle(first, k) in s.aborted || s'.executions[s.guards[g]].cancelRequested
  }

  /** Any step of the registry but the drop of this guard is one others may take, as long as they abort
      directly only handles of their own. */
  lemma OthersKeepMine(s: State, a: Action, g: nat, first: nat, n: nat)
    requires Inv(s) && Enabled(s, a) && g in s.guards && a != Drop(g)
    requires a.Abort? ==> forall k | 0 <= k < n :: Handle(first, k) !in a.handles
    requires forall id, k | id in s.executions && id != s.guards[g] && 0 <= k < n :: Handle(first, k) !in s.executions[id].handles
    requires a.Register? && a.id != s.guards[g] ==> forall k | 0 <= k < n :: Handle(first, k) != a.handle
    ensures Mine(s, Next(s, a), g) && OwnHandlesOnlyByCancel(s, Next(s, a), g, first, n)
  {
    StepKeepsMine(s, a, g);
    if a.Cancel? && a.id in s.executions && a.id != s.guards[g] {
      forall k | 0 <= k < n ensures Handle(first, k) !in HandleSet(s.executions[a.id].handles) {
        assert Handle(first, k) !in s.executions[a.id].handles;
      }
    }
  }

  method OthersAct(reg: Registry, g: nat, first: nat, n: nat)
    requires Inv(reg.Now()) && g in reg.guards
    modifies reg
    ensures Inv(reg.Now()) && Mine(old(reg.Now()), reg.Now(), g)
    ensures OwnHandlesOnlyByCancel(old(reg.Now()), reg.Now(), g, first, n)
  {
    var s: State := *;
    hide Inv;
    MineSelf(reg.Now(), g);
    if Inv(s) && Mine(reg.Now(), s, g) && OwnHandlesOnlyByCancel(reg.Now(), s, g, first, n) {
      reg.executions, reg.guards, reg.aborted := s.executions, s.guards, s.aborted;
    }
  }

  lemma MineSelf(s: State, g: nat)
    requires Inv(s) && g in s.guards
    ensures Mine(s, s, g)
  {
  }

  // ---------------------------------------------------------------- the loops

  ghost predicate AllRegistered(s: State, g: nat, first: nat, n: nat) {
    && g in s.guards && s.guards[g] in s.executions
    && forall k | 0 <= k < n :: Handle(first, k) in s.executions[s.guards[g]].handles
  }

  /** None of the handles was aborted, unless the execution was cancelled. */
  ghost predicate AbortedOnlyByCancel(s: State, g: nat, first: nat, n: nat) {
    && g in s.guards && s.guards[g] in s.executions
    && forall k | 0 <= k < n :: Handle(first, k) in s.aborted ==> s.executions[s.guards[g]].cancelRequested
  }

  lemma OthersKeepRuns(s: State, s': State, g: nat, first: nat, m: nat, n: nat)
    requires g in s.guards && Mine(s, s', g) && OwnHandlesOnlyByCancel(s, s', g, first, n) && m <= n
    requires AllRegistered(s, g, first, m) && AbortedOnlyByCancel(s, g, first, n)
    ensures AllRegistered(s', g, first, m) && AbortedOnlyByCancel(s', g, first, n)
  {
  }

  lemma RegisteredOneMore(s: State, g: nat, first: nat, m: nat, n: nat)
    requires Inv(s) && m < n && AllRegistered(s, g, first, m) && AbortedOnlyByCancel(s, g, first, n)
    ensures var s' := Next(s, Register(s.guards[g], Handle(first, m)));
      g in s'.guards && AllRegistered(s', g, first, m + 1) && AbortedOnlyByCancel(s', g, first, n)
  {
  }

  // ---------------------------------------------------------------- the runs

  /** The runs of one execution: the handles of those that were started, in order, and what waiting for
      them gave. */
  class Runs {
    var spawned: seq<nat>
    var joins: map<nat, Join>

    constructor ()
      ensures spawned == [] && joins == map[]
    {
      spawned, joins := [], map[];
    }

    /** Starts the run of a handle. The handle has to be registered by then. */
    method Spawn(reg: Registry, g: nat, handle: nat)
      requires IsRegistered(reg.Now(), g, handle)
      modifies this`spawned
      ensures spawned == old(spawned) + [handle]
    {
      spawned := spawned + [handle];
    }

    /** Waits for one run. Only a run that was aborted ends as stopped. */
    method AwaitRun(reg: Registry, g: nat, first: nat, n: nat, k: nat) returns (join: Join)
      requires Inv(reg.Now()) && g in reg.guards && k < n && SpawnedAre(spawned, first, n)
      requires AllRegistered(reg.Now(), g, first, n) && AbortedOnlyByCancel(reg.Now(), g, first, n)
      modifies reg, this`joins
      ensures Inv(reg.Now()) && g in reg.guards && reg.guards[g] == old(reg.guards[g])
      ensures AllRegistered(reg.Now(), g, first, n) && AbortedOnlyByCancel(reg.Now(), g, first, n)
      ensures joins == old(joins)[spawned[k] := join]
      ensures join == Ended(Stopped) ==> reg.guards[g] in reg.executions && reg.executions[reg.guards[g]].cancelRequested
    {
      OthersAct(reg, g, first, n);
      OthersKeepRuns(old(reg.Now()), reg.Now(), g, first, n, n);
      var ends: bool, outcome: RunOutcome := *, *;
      join := if !ends || (outcome.Stopped? && spawned[k] !in reg.aborted) then Broken else Ended(outcome);
      joins := joins[spawned[k] := join];
    }
  }

  ghost predicate IsRegistered(s: State, g: nat, handle: nat) {
    g in s.guards && s.guards[g] in s.executions && handle in s.executions[s.guards[g]].handles
  }

  ghost predicate SpawnedAre(spawned: seq<nat>, first: nat, m: nat) {
    |spawned| == m && forall k | 0 <= k < m :: spawned[k] == Handle(first, k)
  }

  ghost predicate AllAborted(spawned: seq<nat>, aborted: set<nat>) {
    forall h | h in spawned :: h in aborted
  }

  /** One of the runs ended as `join`. */
  ghost predicate Saw(joins: map<nat, Join>, join: Join) {
    exists h | h in joins :: joins[h] == join
  }

  /** Exactly the started runs were waited for, and `outputs` are their outcomes in order. */
  ghost predicate AllEnded(spawned: seq<nat>, joins: map<nat, Join>, outputs: seq<RunOutcome>) {
    && |outputs| == |spawned| && joins.Keys == set h | h in spawned
    && forall k | 0 <= k < |spawned| :: spawned[k] in joins && joins[spawned[k]] == Ended(outputs[k])
  }

  /** The first `|outputs|` runs were waited for, and none of them was stopped. */
  ghost predicate EndedSoFar(first: nat, joins: map<nat, Join>, outputs: seq<RunOutcome>) {
    && joins.Keys == OwnHandles(first, |outputs|) && Stopped !in outputs
    && forall k | 0 <= k < |outputs| :: Handle(first, k) in joins && joins[Handle(first, k)] == Ended(outputs[k])
  }

  lemma NothingBadSoFar(first: nat, joins: map<nat, Join>, outputs: seq<RunOutcome>)
    requires EndedSoFar(first, joins, outputs)
    ensures !Saw(joins, Broken) && !Saw(joins, Ended(Stopped))
  {
    forall h | h in joins ensures joins[h] != Broken && joins[h] != Ended(Stopped) {
      var k :| 0 <= k < |outputs| && Handle(first, k) == h;
      assert joins[Handle(first, k)] == Ended(outputs[k]);
    }
  }

  /** One more run was waited for. */
  lemma OneMoreJoin(first: nat, joins: map<nat, Join>, outputs: seq<RunOutcome>, join: Join)
    requires EndedSoFar(first, joins, outputs)
    ensures var joins' := joins[Handle(first, |outputs|) := join];
      && (join.Ended? && !join.outcome.Stopped? ==> EndedSoFar(first, joins', outputs + [join.outcome]))
      && (Saw(joins', Broken) <==> join.Broken?) && (Saw(joins', Ended(Stopped)) <==> join == Ended(Stopped))
  {
    var joins' := joins[Handle(first, |outputs|) := join];
    NothingBadSoFar(first, joins, outputs);
    assert joins'[Handle(first, |outputs|)] == join;
    if join.Ended? && !join.outcome.Stopped? {
      assert joins'.Keys == OwnHandles(first, |outputs| + 1);
    }
  }

  lemma AllWereAwaited(spawned: seq<nat>, first: nat, joins: map<nat, Join>, outputs: seq<RunOutcome>)
    requires SpawnedAre(spawned, first, |outputs|) && EndedSoFar(first, joins, outputs)
    ensures AllEnded(spawned, joins, outputs)
  {
    forall h ensures h in joins.Keys <==> h in spawned {
      if h in joins.Keys {
        var k :| 0 <= k < |outputs| && Handle(first, k) == h;
        assert spawned[k] == h;
      }
    }
  }

  /** Registers a handle for each run, then starts the run. While the guard lives no handle is refused. */
  method StartRuns(reg: Registry, runs: Runs, g: nat, id: string, first: nat, n: nat) returns (r: Outcome<ExecutionError>)
    requires Inv(reg.Now()) && g in reg.guards && NormalizeId(id) == Ok(reg.guards[g]) && runs.spawned == []
    requires AllRegistered(reg.Now(), g, first, 0) && AbortedOnlyByCancel(reg.Now(), g, first, n)
    modifies reg, runs`spawned
    ensures Inv(reg.Now()) && g in reg.guards && reg.guards[g] == old(reg.guards[g])
    ensures |runs.spawned| <= n && SpawnedAre(runs.spawned, first, |runs.spawned|)
    ensures AllRegistered(reg.Now(), g, first, |runs.spawned|) && AbortedOnlyByCancel(reg.Now(), g, first, n)
    ensures r.Pass? && |runs.spawned| == n
  {
    var started := 0;
    hide Inv, Mine, AllRegistered, AbortedOnlyByCancel, OwnHandlesOnlyByCancel, Next, NormalizeId, IsRegistered;
    while started < n
      invariant Inv(reg.Now()) && g in reg.guards && reg.guards[g] == old(reg.guards[g])
      invariant started <= n && SpawnedAre(runs.spawned, first, started)
      invariant AllRegistered(reg.Now(), g, first, started) && AbortedOnlyByCancel(reg.Now(), g, first, n)
    {
      label before:
      OthersAct(reg, g, first, n);
      MineGuard(old@before(reg.Now()), reg.Now(), g);
      OthersKeepRuns(old@before(reg.Now()), reg.Now(), g, first, started, n);
      RegisteredOneMore(reg.Now(), g, first, started, n);
      RegisteredEntry(reg.Now(), g, first, started);
      label middle:
      var registered := reg.RegisterHandle(id, Handle(first, started));
      NextRegisterKeepsGuards(old@middle(reg.Now()), old@middle(reg.guards[g]), Handle(first, started));
      if registered.Fail? {
        assert false;
        return Fail(NotRegistered);
      }
      LastIsRegistered(reg.Now(), g, first, started);
      runs.Spawn(reg, g, Handle(first, started));
      started := started + 1;
    }
    return Pass;
  }

  lemma MineGuard(s: State, s': State, g: nat)
    requires g in s.guards && Mine(s, s', g)
    ensures g in s'.guards && s'.guards[g] == s.guards[g]
  {
  }

  lemma RegisteredEntry(s: State, g: nat, first: nat, m: nat)
    requires AllRegistered(s, g, first, m)
    ensures g in s.guards && s.guards[g] in s.executions
  {
  }

  lemma LastIsRegistered(s: State, g: nat, first: nat, m: nat)
    requires AllRegistered(s, g, first, m + 1)
    ensures IsRegistered(s, g, Handle(first, m))
  {
  }

  lemma NextRegisterKeepsGuards(s: State, id: string, handle: nat)
    ensures Next(s, Register(id, handle)).guards == s.guards
  {
  }

  lemma NothingAwaited(first: nat)
    ensures EndedSoFar(first, map[], [])
  {
  }

  /** Waits for the runs in their order, and stops at the first that broke off or was stopped. */
  method AwaitRuns(reg: Registry, runs: Runs, g: nat, first: nat, n: nat) returns (r: Result<seq<RunOutcome>, ExecutionError>)
    requires Inv(reg.Now()) && g in reg.guards && SpawnedAre(runs.spawned, first, n) && EndedSoFar(first, runs.joins, [])
    requires AllRegistered(reg.Now(), g, first, n) && AbortedOnlyByCancel(reg.Now(), g, first, n)
    modifies reg, runs`joins
    ensures Inv(reg.Now()) && g in reg.guards && reg.guards[g] == old(reg.guards[g])
    ensures r.Ok? ==> AllEnded(runs.spawned, runs.joins, r.value) && Stopped !in r.value
    ensures Saw(runs.joins, Ended(Stopped)) <==> r == Err(Cancelled)
    ensures Saw(runs.joins, Broken) <==> r == Err(Interrupted)
    ensures r == Err(Cancelled) ==> reg.guards[g] in reg.executions && reg.executions[reg.guards[g]].cancelRequested
    ensures r.Err? ==> r.error in {Interrupted, Cancelled}
  {
    var outputs: seq<RunOutcome> := [];
    hide Inv, AllRegistered, AbortedOnlyByCancel, EndedSoFar, AllEnded, Saw;
    for k := 0 to n
      invariant Inv(reg.Now()) && g in reg.guards && reg.guards[g] == old(reg.guards[g])
      invariant AllRegistered(reg.Now(), g, first, n) && AbortedOnlyByCancel(reg.Now(), g, first, n)
      invariant |outputs| == k && EndedSoFar(first, runs.joins, outputs)
    {
      ghost var before := runs.joins;
      var join := runs.AwaitRun(reg, g, first, n, k);
      OneMoreJoin(first, before, outputs, join);
      if join.Broken? { return Err(Interrupted); }
      if join.outcome.Stopped? { return Err(Cancelled); }
      outputs := outputs + [join.outcome];
    }
    AllWereAwaited(runs.spawned, first, runs.joins, outputs);
    NothingBadSoFar(first, runs.joins, outputs);
    NoneStopped(first, runs.joins, outputs);
    return Ok(outputs);
  }

  lemma NoneStopped(first: nat, joins: map<nat, Join>, outputs: seq<RunOutcome>)
    requires EndedSoFar(first, joins, outputs)
    ensures Stopped !in outputs
  {
  }

  predicate Starts(tasks: nat, w: World) {
    tasks > 0 && w.vaultOpen && w.planned.Some? && w.clientOk
  }

  /** What keeps an execution from starting runs, in the order of the checks. */
  predicate KeptBack(tasks: nat, w: World, error: ExecutionError) {
    match error
    case NoTask => tasks == 0
    case VaultLocked => tasks > 0 && !w.vaultOpen
    case NotPlanned => tasks > 0 && w.vaultOpen && w.planned.None?
    case NoClient => tasks > 0 && w.vaultOpen && w.planned.Some? && !w.clientOk
    case _ => false
  }

  /** How an execution that began its work order ends: with the outcomes of all planned runs if they all
      came to an end, none was stopped and a report can be made of them; otherwise with what went wrong. */
  ghost predicate EndsAs(r: Result<seq<RunOutcome>, ExecutionError>, tasks: nat, w: World, spawned: seq<nat>, joins: map<nat, Join>) {
    match r
    case Ok(outputs) =>
      && Starts(tasks, w) && |spawned| == w.planned.value
      && AllEnded(spawned, joins, outputs) && Stopped !in outputs && w.reports(outputs)
    case Err(Cancelled) => Starts(tasks, w) && |spawned| == w.planned.value && Saw(joins, Ended(Stopped)) && !Saw(joins, Broken)
    case Err(Interrupted) => Starts(tasks, w) && |spawned| == w.planned.value && Saw(joins, Broken) && !Saw(joins, Ended(Stopped))
    case Err(NoReport) =>
      && Starts(tasks, w) && |spawned| == w.planned.value
      && exists outputs: seq<RunOutcome> :: AllEnded(spawned, joins, outputs) && Stopped !in outputs && !w.reports(outputs)
    case Err(error) => KeptBack(tasks, w, error) && spawned == [] && joins == map[]
  }

  /** Runs everything and collects the outcomes in the order of the runs. */
  method ExecuteInner(reg: Registry, runs: Runs, g: nat, id: string, tasks: nat, w: World, first: nat)
    returns (r: Result<seq<RunOutcome>, ExecutionError>)
    requires Inv(reg.Now()) && g in reg.guards && NormalizeId(id) == Ok(reg.guards[g]) && runs.spawned == [] && runs.joins == map[]
    requires AllRegistered(reg.Now(), g, first, 0)
    requires w.planned.Some? ==> AbortedOnlyByCancel(reg.Now(), g, first, w.planned.value)
    modifies reg, runs
    ensures Inv(reg.Now()) && g in reg.guards && reg.guards[g] == old(reg.guards[g])
    ensures AllAborted(runs.spawned, reg.aborted)
    ensures EndsAs(r, tasks, w, runs.spawned, runs.joins)
    ensures r == Err(Cancelled) ==> reg.guards[g] in reg.executions && reg.executions[reg.guards[g]].cancelRequested
  {
    NotStarted(tasks, w, reg.aborted);
    hide Inv, AllRegistered, AbortedOnlyByCancel, NormalizeId, EndedSoFar, AllAborted, AllEnded, Saw, EndsAs;
    if tasks == 0 { return Err(NoTask); }
    if !w.vaultOpen { return Err(VaultLocked); }
    if w.planned.None? { return Err(NotPlanned); }
    if !w.clientOk { return Err(NoClient); }
    var n := w.planned.value;
    var begun := StartRuns(reg, runs, g, id, first, n);
    if begun.Fail? {
      assert false;
      return Err(NotRegistered);
    }
    NothingAwaited(first);
    r := AwaitRuns(reg, runs, g, first, n);
    DropLocalHandles(reg, runs, g, first, n);
    AfterAwaiting(r, tasks, w, runs.spawned, runs.joins);
    if r.Ok? && !w.reports(r.value) { r := Err(NoReport); }
  }

  lemma NotStarted(tasks: nat, w: World, aborted: set<nat>)
    ensures AllAborted([], aborted)
    ensures forall error | KeptBack(tasks, w, error) :: EndsAs(Err(error), tasks, w, [], map[])
  {
  }

  lemma AfterAwaiting(r: Result<seq<RunOutcome>, ExecutionError>, tasks: nat, w: World, spawned: seq<nat>, joins: map<nat, Join>)
    requires Starts(tasks, w) && |spawned| == w.planned.value
    requires r.Ok? ==> AllEnded(spawned, joins, r.value) && Stopped !in r.value
    requires (Saw(joins, Ended(Stopped)) <==> r == Err(Cancelled)) && (Saw(joins, Broken) <==> r == Err(Interrupted))
    requires r.Err? ==> r.error in {Interrupted, Cancelled}
    ensures EndsAs(if r.Ok? && !w.reports(r.value) then Err(NoReport) else r, tasks, w, spawned, joins)
  {
  }

  /** What happens on every way out: all local handles are aborted. */
  method DropLocalHandles(reg: Registry, ghost runs: Runs, ghost g: nat, first: nat, n: nat)
    requires Inv(reg.Now()) && g in reg.guards && SpawnedAre(runs.spawned, first, n)
    modifies reg`aborted
    ensures Inv(reg.Now()) && reg.aborted == old(reg.aborted) + OwnHandles(first, n)
    ensures AllAborted(runs.spawned, reg.aborted)
  {
    for i := 0 to n
      invariant reg.aborted == old(reg.aborted) + OwnHandles(first, i)
    {
      reg.aborted := reg.aborted + {Handle(first, i)};
    }
    StepKeepsInv(old(reg.Now()), Abort(OwnHandles(first, n)));
    forall h | h in runs.spawned ensures h in reg.aborted {
      var k :| 0 <= k < n && runs.spawned[k] == h;
      assert Handle(first, k) in OwnHandles(first, n);
    }
  }

  /** It came to an end, but that could not be noted in the work order's file. */
  ghost predicate StaysBegun(r: Result<seq<RunOutcome>, ExecutionError>, tasks: nat, w: World, spawned: seq<nat>, joins: map<nat, Join>) {
    exists inner | EndsAs(inner, tasks, w, spawned, joins) ::
      if inner.Ok? then r == Err(NotCompleted) && !w.completes else r == Err(NotMarked) && !w.marks
  }

  /** The whole command. The guard is taken first and dropped last. */
  method ExecuteWorkOrder(reg: Registry, runs: Runs, g: nat, id: string, workspace: string, workOrder: string,
                          tasks: nat, w: World, first: nat)
    returns (r: Result<seq<RunOutcome>, ExecutionError>, order: OrderState)
    requires Inv(reg.Now()) && g !in reg.guards && runs.spawned == [] && runs.joins == map[]
    requires forall k: nat :: Handle(first, k) !in reg.aborted
    modifies reg, runs
    ensures Inv(reg.Now()) && g !in reg.guards
    ensures AllAborted(runs.spawned, reg.aborted)
    ensures order == Queued <==> !CanAcquire(old(reg.Now()), id, workspace, workOrder) || !w.begins
    ensures order == Queued ==>
      && r.Err? && runs.spawned == []
      && (r.error.Refused? <==> !CanAcquire(old(reg.Now()), id, workspace, workOrder)) && (r.error.Refused? || r.error == NotBegun)
    ensures order == Archived ==> w.completes && r.Ok? && EndsAs(r, tasks, w, runs.spawned, runs.joins)
    ensures order == MarkedFailed ==> w.marks && r.Err? && EndsAs(r, tasks, w, runs.spawned, runs.joins)
    ensures order == Begun ==> StaysBegun(r, tasks, w, runs.spawned, runs.joins)
  {
    hide Inv, NormalizeId, Refusal, AbortedOnlyByCancel, NormalizeWorkOrder, EndsAs;
    var acquired := reg.AcquireExecution(id, workspace, workOrder, g);
    if acquired.Fail? {
      return Err(Refused(acquired.error)), Queued;
    }
    NewEntry(old(reg.Now()), reg.Now(), id, workspace, workOrder, g, first, w.planned);
    if !w.begins {
      reg.DropGuard(g);
      return Err(NotBegun), Queued;
    }
    r := ExecuteInner(reg, runs, g, id, tasks, w, first);
    if r.Ok? {
      if w.completes {
        order := Archived;
      } else {
        order := Begun;
        r := Err(NotCompleted);
      }
    } else if w.marks {
      order := MarkedFailed;
    } else {
      order := Begun;
      r := Err(NotMarked);
    }
    reg.DropGuard(g);
  }

  ghost predicate CanAcquire(s: State, id: string, workspace: string, workOrder: string) {
    && IsExecutionId(Trim(id)) && Trim(workOrder) != "" && Trim(id) !in s.executions
    && !IsWorking(s, workspace, Trim(workOrder))
  }

  lemma NewEntry(s: State, s': State, id: string, workspace: string, workOrder: string, g: nat, first: nat, planned: Option<nat>)
    requires Inv(s) && g !in s.guards && NormalizeId(id).Ok? && NormalizeWorkOrder(workOrder).Ok?
    requires s' == Next(s, Acquire(NormalizeId(id).value, workspace, NormalizeWorkOrder(workOrder).value, g))
    requires g in s'.guards && forall k: nat :: Handle(first, k) !in s.aborted
    ensures s'.guards[g] == NormalizeId(id).value && AllRegistered(s', g, first, 0)
    ensures planned.Some? ==> AbortedOnlyByCancel(s', g, first, planned.value)
  {
  }
}
