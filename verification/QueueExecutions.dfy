/** Which queue executions run, how they are cancelled, and how one of them ends.

    Every step on the registry is one critical section. A guard stands for a running execution; dropping it
    ends the entry. An abort handle stops one run; aborting cannot be taken back.
 */
module QueueExecutions {
  import opened Prelude
  import opened Texts

  const ID_LENGTH := 36

  datatype Running = Running(workspace: string, workOrder: string, handles: seq<nat>, cancelRequested: bool)

  /** `guards` are the live guards with their execution ids, `aborted` the handles that were aborted. */
  datatype State = State(executions: map<string, Running>, guards: map<nat, string>, aborted: set<nat>)

  datatype Error = IdInvalid | WorkOrderInvalid | IdRunning | WorkOrderRunning | NotRunning

  datatype Action =
    | Acquire(id: string, workspace: string, workOrder: string, guard: nat)
    | Register(id: string, handle: nat)
    | Cancel(id: string)
    | Drop(guard: nat)
    | Abort(handles: set<nat>)

  // ---------------------------------------------------------------- ids

  predicate IsHexDigit(c: char) {
    '0' <= c <= '9' || 'a' <= c <= 'f' || 'A' <= c <= 'F'
  }

  predicate IsExecutionId(id: string) {
    && |id| == ID_LENGTH
    && forall i | 0 <= i < |id| :: if i in {8, 13, 18, 23} then id[i] == '-' else IsHexDigit(id[i])
  }

  const HEX_DIGITS := "0123456789abcdefABCDEF"

  ghost predicate AllHex(s: string) { forall c | c in s :: c in HEX_DIGITS }

  /** Five groups of hexadecimal digits. */
  ghost predicate AreGroups(g: seq<string>) {
    && |g| == 5 && |g[0]| == 8 && |g[1]| == 4 && |g[2]| == 4 && |g[3]| == 4 && |g[4]| == 12
    && AllHex(g[0]) && AllHex(g[1]) && AllHex(g[2]) && AllHex(g[3]) && AllHex(g[4])
  }

  function Joined(g: seq<string>): string
    requires |g| == 5
  {
    g[0] + "-" + g[1] + "-" + g[2] + "-" + g[3] + "-" + g[4]
  }

  lemma HexDigitIff(c: char)
    ensures IsHexDigit(c) <==> c in HEX_DIGITS
  {
  }

  /** The shape check accepts five groups of hexadecimal digits with hyphens between them, and nothing else. */
  lemma ExecutionIdIff(id: string)
    ensures IsExecutionId(id) <==> exists g: seq<string> :: AreGroups(g) && id == Joined(g)
  {
    hide IsHexDigit;
    if IsExecutionId(id) {
      var g := [id[0..8], id[9..13], id[14..18], id[19..23], id[24..36]];
      forall i | 0 <= i < |id| && i !in {8, 13, 18, 23} ensures id[i] in HEX_DIGITS { HexDigitIff(id[i]); }
      assert AreGroups(g) && id == Joined(g);
    }
    if g: seq<string> :| AreGroups(g) && id == Joined(g) {
      JoinedIsId(g);
    }
  }

  lemma JoinedIsId(g: seq<string>)
    requires AreGroups(g)
    ensures IsExecutionId(Joined(g))
  {
    var id := Joined(g);
    assert |id| == ID_LENGTH && id[8] == '-' && id[13] == '-' && id[18] == '-' && id[23] == '-';
    assert id[..8] == g[0] && id[9..13] == g[1] && id[14..18] == g[2] && id[19..23] == g[3] && id[24..] == g[4];
    forall i | 0 <= i < |id| && i !in {8, 13, 18, 23} ensures IsHexDigit(id[i]) {
      HexDigitIff(id[i]);
      assert i < 8 ==> id[i] == id[..8][i];
      assert 9 <= i < 13 ==> id[i] == id[9..13][i-9];
      assert 14 <= i < 18 ==> id[i] == id[14..18][i-14];
      assert 19 <= i < 23 ==> id[i] == id[19..23][i-19];
      assert 24 <= i ==> id[i] == id[24..][i-24];
    }
  }

  function NormalizeId(id: string): Result<string, Error> {
    if IsExecutionId(Trim(id)) then Ok(Trim(id)) else Err(IdInvalid)
  }

  function NormalizeWorkOrder(id: string): Result<string, Error> {
    if Trim(id) != [] then Ok(Trim(id)) else Err(WorkOrderInvalid)
  }

  lemma NormalizedIs(id: string, workOrder: string)
    ensures NormalizeId(id) == if IsExecutionId(Trim(id)) then Ok(Trim(id)) else Err(IdInvalid)
    ensures NormalizeWorkOrder(workOrder) == if Trim(workOrder) != "" then Ok(Trim(workOrder)) else Err(WorkOrderInvalid)
  {
  }

  // ---------------------------------------------------------------- the steps

  predicate SameWork(r: Running, workspace: string, workOrder: string) {
    r.workspace == workspace && r.workOrder == workOrder
  }

  /** Why an acquire is refused, if it is. */
  function Refusal(s: State, id: string, workspace: string, workOrder: string): Option<Error> {
    if id in s.executions then Some(IdRunning)
    else if exists other | other in s.executions :: SameWork(s.executions[other], workspace, workOrder) then Some(WorkOrderRunning)
    else None
  }

  predicate Enabled(s: State, a: Action) {
    match a
    case Acquire(_, _, _, guard) => guard !in s.guards
    case Drop(guard) => guard in s.guards
    case _ => true
  }

  function Next(s: State, a: Action): State
    requires Enabled(s, a)
  {
    match a
    case Acquire(id, workspace, workOrder, guard) =>
      if Refusal(s, id, workspace, workOrder).Some? then s
      else s.(executions := s.executions[id := Running(workspace, workOrder, [], false)], guards := s.guards[guard := id])
    case Register(id, handle) =>
      if id !in s.executions then s
      else
        var r := s.executions[id];
        s.(executions := s.executions[id := r.(handles := r.handles + [handle])],
           aborted := if r.cancelRequested then s.aborted + {handle} else s.aborted)
    case Cancel(id) =>
      if id !in s.executions then s
      else
        var r := s.executions[id];
        s.(executions := s.executions[id := r.(cancelRequested := true)], aborted := s.aborted + HandleSet(r.handles))
    case Drop(guard) =>
      s.(executions := s.executions - {s.guards[guard]}, guards := s.guards - {guard})
    case Abort(handles) => s.(aborted := s.aborted + handles)
  }

  function HandleSet(handles: seq<nat>): set<nat> {
    set h | h in handles
  }

  const START := State(map[], map[], {})

  // ---------------------------------------------------------------- what every step keeps

  /** No two executions work on the same order, every entry has exactly one live guard, and the handles of
      a cancelled execution are all aborted. */
  predicate Inv(s: State) {
    WorkDistinct(s.executions) && GuardsMatch(s.executions, s.guards) && CancelledAborted(s.executions, s.aborted)
  }

  predicate WorkDistinct(executions: map<string, Running>) {
    forall a, b | a in executions && b in executions && a != b ::
      executions[a].workspace != executions[b].workspace || executions[a].workOrder != executions[b].workOrder
  }

  predicate GuardsMatch(executions: map<string, Running>, guards: map<nat, string>) {
    && (forall g | g in guards :: guards[g] in executions)
    && (forall g, h | g in guards && h in guards && g != h :: guards[g] != guards[h])
    && AllGuarded(guards, executions.Keys)
  }

  predicate IsGuarded(guards: map<nat, string>, id: string) {
    exists g | g in guards :: guards[g] == id
  }

  predicate CancelledAborted(executions: map<string, Running>, aborted: set<nat>) {
    forall id | id in executions && executions[id].cancelRequested :: HandleSet(executions[id].handles) <= aborted
  }

  lemma StepKeepsInv(s: State, a: Action)
    requires Inv(s) && Enabled(s, a)
    ensures Inv(Next(s, a))
  {
    StepKeepsWork(s, a);
    StepKeepsGuards(s, a);
    StepKeepsCancelled(s, a);
  }

  lemma StepKeepsWork(s: State, a: Action)
    requires WorkDistinct(s.executions) && Enabled(s, a)
    ensures WorkDistinct(Next(s, a).executions)
  {
    if a.Acquire? && Refusal(s, a.id, a.workspace, a.workOrder).None? {
      assert forall other | other in s.executions :: !SameWork(s.executions[other], a.workspace, a.workOrder);
    }
  }

  lemma StepKeepsGuards(s: State, a: Action)
    requires GuardsMatch(s.executions, s.guards) && Enabled(s, a)
    ensures GuardsMatch(Next(s, a).executions, Next(s, a).guards)
  {
    var s' := Next(s, a);
    if a.Acquire? && s' != s {
      GuardAdded(s.guards, a.guard, a.id, s.executions.Keys);
    } else if a.Drop? {
      GuardRemoved(s.guards, a.guard, s.executions.Keys);
    }
  }

  predicate AllGuarded(guards: map<nat, string>, ids: set<string>) {
    forall id | id in ids :: IsGuarded(guards, id)
  }

  lemma GuardAdded(guards: map<nat, string>, g: nat, id: string, ids: set<string>)
    requires g !in guards && AllGuarded(guards, ids)
    ensures AllGuarded(guards[g := id], ids + {id})
  {
    forall x | x in ids + {id} ensures IsGuarded(guards[g := id], x) {
      if x != id {
        assert IsGuarded(guards, x);
        var h :| h in guards && guards[h] == x;
        assert h in guards[g := id] && guards[g := id][h] == x;
      } else {
        assert guards[g := id][g] == id;
      }
    }
  }

  lemma GuardRemoved(guards: map<nat, string>, g: nat, ids: set<string>)
    requires g in guards && AllGuarded(guards, ids)
    ensures AllGuarded(guards - {g}, ids - {guards[g]})
  {
    forall x | x in ids - {guards[g]} ensures IsGuarded(guards - {g}, x) {
      assert IsGuarded(guards, x);
      var h :| h in guards && guards[h] == x;
      assert h in guards - {g} && (guards - {g})[h] == x;
    }
  }

  lemma StepKeepsCancelled(s: State, a: Action)
    requires CancelledAborted(s.executions, s.aborted) && Enabled(s, a)
    ensures CancelledAborted(Next(s, a).executions, Next(s, a).aborted)
  {
  }

  // ---------------------------------------------------------------- whole runs

  ghost predicate IsRun(states: seq<State>, actions: seq<Action>) {
    && |states| == |actions| + 1 && states[0] == START
    && forall i | 0 <= i < |actions| :: Enabled(states[i], actions[i]) && states[i+1] == Next(states[i], actions[i])
  }

  lemma {:induction false} RunKeepsInv(states: seq<State>, actions: seq<Action>, i: nat)
    requires IsRun(states, actions) && i < |states|
    ensures Inv(states[i])
  {
    if i > 0 {
      RunKeepsInv(states, actions, i - 1);
      StepKeepsInv(states[i-1], actions[i-1]);
    }
  }

  /** The guard holds on to its entry: while it lives, the entry keeps its work, loses no handle, and a
      request to cancel stays. */
  lemma StepKeepsMine(s: State, a: Action, g: nat)
    requires Inv(s) && Enabled(s, a) && g in s.guards && a != Drop(g)
    ensures Mine(s, Next(s, a), g)
  {
  }

  predicate Mine(s: State, s': State, g: nat)
    requires g in s.guards
  {
    && g in s'.guards && s'.guards[g] == s.guards[g]
    && s.guards[g] in s.executions && s.guards[g] in s'.executions
    && var r, r' := s.executions[s.guards[g]], s'.executions[s.guards[g]];
       && r'.workspace == r.workspace && r'.workOrder == r.workOrder && r.handles <= r'.handles
       && (r.cancelRequested ==> r'.cancelRequested)
       && s.aborted <= s'.aborted
  }

  /** Once cancelling was requested, every handle the execution has registered or ever will register is
      aborted, for as long as its guard lives. */
  lemma {:induction false} CancelSticks(states: seq<State>, actions: seq<Action>, i: nat, j: nat, g: nat)
    requires IsRun(states, actions) && i <= j < |states| && g in states[i].guards
    requires states[i].guards[g] in states[i].executions && states[i].executions[states[i].guards[g]].cancelRequested
    requires forall k | i <= k < j :: actions[k] != Drop(g)
    ensures g in states[j].guards && states[j].guards[g] == states[i].guards[g]
    ensures states[i].guards[g] in states[j].executions
    ensures var r := states[j].executions[states[i].guards[g]];
      && r.cancelRequested && HandleSet(r.handles) <= states[j].aborted
      && states[i].executions[states[i].guards[g]].handles <= r.handles
    decreases j
  {
    RunKeepsInv(states, actions, j);
    if i < j {
      CancelSticks(states, actions, i, j - 1, g);
      RunKeepsInv(states, actions, j - 1);
      StepKeepsMine(states[j-1], actions[j-1], g);
    }
  }

  /** While a guard lives, nobody else gets the same work order of the same workspace, nor the same id. */
  lemma NobodyElseGetsIt(states: seq<State>, actions: seq<Action>, i: nat, g: nat)
    requires IsRun(states, actions) && i < |actions| && g in states[i].guards && actions[i].Acquire?
    requires states[i].guards[g] in states[i].executions
    requires var mine := states[i].executions[states[i].guards[g]];
      || (mine.workspace == actions[i].workspace && mine.workOrder == actions[i].workOrder)
      || states[i].guards[g] == actions[i].id
    ensures states[i+1] == states[i]
  {
  }

  // ---------------------------------------------------------------- the registry

  class Registry {
    var executions: map<string, Running>
    var guards: map<nat, string>
    var aborted: set<nat>

    constructor ()
      ensures Now() == START && Inv(Now())
    {
      executions, guards, aborted := map[], map[], {};
    }

    function Now(): State
      reads this
    {
      State(executions, guards, aborted)
    }

    method AcquireExecution(id: string, workspace: string, workOrder: string, guard: nat) returns (r: Outcome<Error>)
      requires Inv(Now()) && guard !in guards
      modifies this
      ensures Inv(Now())
      ensures NormalizeId(id).Err? ==> r == Fail(IdInvalid) && Now() == old(Now())
      ensures NormalizeId(id).Ok? && NormalizeWorkOrder(workOrder).Err? ==> r == Fail(WorkOrderInvalid) && Now() == old(Now())
      ensures NormalizeId(id).Ok? && NormalizeWorkOrder(workOrder).Ok? ==>
        var refusal := Refusal(old(Now()), NormalizeId(id).value, workspace, NormalizeWorkOrder(workOrder).value);
        && Now() == Next(old(Now()), Acquire(NormalizeId(id).value, workspace, NormalizeWorkOrder(workOrder).value, guard))
        && r == (if refusal.Some? then Fail(refusal.value) else Pass)
        && (r.Pass? ==> guard in guards && guards[guard] == NormalizeId(id).value)
      ensures r.Pass? <==>
        && IsExecutionId(Trim(id)) && Trim(workOrder) != "" && Trim(id) !in old(executions)
        && !IsWorking(old(Now()), workspace, Trim(workOrder))
      ensures r == Fail(IdRunning) ==> Trim(id) in old(executions)
      ensures r.Pass? ==>
        && executions == old(executions)[Trim(id) := Running(workspace, Trim(workOrder), [], false)]
        && guards == old(guards)[guard := Trim(id)]
      ensures r.Fail? ==> Now() == old(Now())
    {
      var executionId := NormalizeId(id);
      if executionId.Err? { return Fail(executionId.error); }
      var orderId := NormalizeWorkOrder(workOrder);
      if orderId.Err? { return Fail(orderId.error); }
      StepKeepsInv(Now(), Acquire(executionId.value, workspace, orderId.value, guard));
      NormalizedIs(id, workOrder);
      hide Inv, NormalizeId, NormalizeWorkOrder, IsExecutionId, Trim;
      if executionId.value in executions { return Fail(IdRunning); }
      if exists other | other in executions :: SameWork(executions[other], workspace, orderId.value) {
        return Fail(WorkOrderRunning);
      }
      executions := executions[executionId.value := Running(workspace, orderId.value, [], false)];
      guards := guards[guard := executionId.value];
      return Pass;
    }

    method RegisterHandle(id: string, handle: nat) returns (r: Outcome<Error>)
      requires Inv(Now())
      modifies this
      ensures Inv(Now())
      ensures NormalizeId(id).Err? ==> r == Fail(IdInvalid) && Now() == old(Now())
      ensures NormalizeId(id).Ok? ==>
        && Now() == Next(old(Now()), Register(NormalizeId(id).value, handle))
        && r == (if NormalizeId(id).value in old(executions) then Pass else Fail(NotRunning))
      ensures r.Pass? <==> IsExecutionId(Trim(id)) && Trim(id) in old(executions)
    {
      var executionId := NormalizeId(id);
      if executionId.Err? { return Fail(executionId.error); }
      StepKeepsInv(Now(), Register(executionId.value, handle));
      hide Inv, NormalizeId;
      if executionId.value !in executions { return Fail(NotRunning); }
      var running := executions[executionId.value];
      if running.cancelRequested {
        aborted := aborted + {handle};
      }
      executions := executions[executionId.value := running.(handles := running.handles + [handle])];
      return Pass;
    }

    method CancelExecution(id: string) returns (r: Outcome<Error>)
      requires Inv(Now())
      modifies this
      ensures Inv(Now())
      ensures NormalizeId(id).Err? ==> r == Fail(IdInvalid) && Now() == old(Now())
      ensures NormalizeId(id).Ok? ==>
        && Now() == Next(old(Now()), Cancel(NormalizeId(id).value))
        && r == (if NormalizeId(id).value in old(executions) then Pass else Fail(NotRunning))
      ensures r.Pass? <==> IsExecutionId(Trim(id)) && Trim(id) in old(executions)
    {
      var executionId := NormalizeId(id);
      if executionId.Err? { return Fail(executionId.error); }
      StepKeepsInv(Now(), Cancel(executionId.value));
      hide Inv, NormalizeId;
      if executionId.value !in executions { return Fail(NotRunning); }
      var running := executions[executionId.value];
      executions := executions[executionId.value := running.(cancelRequested := true)];
      AbortAll(running.handles);
      return Pass;
    }

    method AbortAll(handles: seq<nat>)
      modifies this`aborted
      ensures aborted == old(aborted) + HandleSet(handles)
    {
      for i := 0 to |handles|
        invariant aborted == old(aborted) + HandleSet(handles[..i])
      {
        assert handles[..i+1] == handles[..i] + [handles[i]];
        aborted := aborted + {handles[i]};
      }
      assert handles[..|handles|] == handles;
    }

    method DropGuard(guard: nat)
      requires Inv(Now()) && guard in guards
      modifies this
      ensures Now() == Next(old(Now()), Drop(guard)) && Inv(Now())
      ensures old(guards[guard]) !in executions
    {
      StepKeepsInv(Now(), Drop(guard));
      executions := executions - {guards[guard]};
      guards := guards - {guard};
    }

    /** The requested work orders that are running, each once, in the order of the request. */
    method RunningWorkOrders(workspace: string, ids: seq<string>) returns (running: seq<string>)
      ensures forall w :: w in running <==> w != [] && (exists i | 0 <= i < |ids| :: Trim(ids[i]) == w) && IsWorking(Now(), workspace, w)
      ensures forall i, j | 0 <= i < j < |running| :: running[i] != running[j]
    {
      running := [];
      for i := 0 to |ids|
        invariant forall w :: w in running <==> w != [] && (exists k | 0 <= k < i :: Trim(ids[k]) == w) && IsWorking(Now(), workspace, w)
        invariant forall j, k | 0 <= j < k < |running| :: running[j] != running[k]
      {
        var w := Trim(ids[i]);
        if w == [] || w in running || !(exists id | id in executions :: SameWork(executions[id], workspace, w)) {
          continue;
        }
        running := running + [w];
      }
    }
  }

  ghost predicate IsWorking(s: State, workspace: string, workOrder: string) {
    exists id | id in s.executions :: s.executions[id].workspace == workspace && s.executions[id].workOrder == workOrder
  }
}
