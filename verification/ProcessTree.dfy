/** Which processes descend from a task's terminal, on parent maps that may hold cycles. */
module ProcessTree {
  import opened Prelude

  type Pid = nat

  /** `terminalHost`: the command line is that of a terminal and not of the task itself. */
  datatype Process = Process(pid: Pid, parent: Option<Pid>, terminalHost: bool)

  // ---------------------------------------------------------------- the chain of parents

  /** The process reached after `n` steps to the parent, if the chain is that long. */
  function Ancestor(parents: map<Pid, Pid>, start: Pid, n: nat): Option<Pid> {
    if n == 0 then Some(start)
    else match Ancestor(parents, start, n - 1)
      case None => None
      case Some(p) => if p in parents then Some(parents[p]) else None
  }

  /** Climbing from `start`, the ancestor is met after one step or more, and process 0 is not met before. */
  ghost predicate Descends(parents: map<Pid, Pid>, start: Pid, ancestor: Pid) {
    exists n | n >= 1 :: ReachedAt(parents, start, ancestor, n)
  }

  ghost predicate ReachedAt(parents: map<Pid, Pid>, start: Pid, ancestor: Pid, n: nat) {
    && Ancestor(parents, start, n) == Some(ancestor)
    && forall k | 1 <= k < n :: Ancestor(parents, start, k) != Some(0)
  }

  lemma {:induction false} ChainHasNoGaps(parents: map<Pid, Pid>, start: Pid, i: nat, j: nat)
    requires i <= j && Ancestor(parents, start, j).Some?
    ensures Ancestor(parents, start, i).Some?
    decreases j
  {
    if i < j { ChainHasNoGaps(parents, start, i, j - 1); }
  }

  /** Two equal places on the chain continue alike. */
  lemma {:induction false} ChainRepeats(parents: map<Pid, Pid>, start: Pid, i: nat, j: nat, d: nat)
    requires Ancestor(parents, start, i) == Ancestor(parents, start, j)
    ensures Ancestor(parents, start, i + d) == Ancestor(parents, start, j + d)
  {
    if d > 0 { ChainRepeats(parents, start, i, j, d - 1); }
  }

  /** Once the chain has come back to a place it has been at, it meets nothing new. */
  lemma {:induction false} NothingNewOnACycle(parents: map<Pid, Pid>, start: Pid, i: nat, j: nat, n: nat)
    requires i < j && Ancestor(parents, start, i) == Ancestor(parents, start, j)
    ensures exists k: nat | k < j :: Ancestor(parents, start, k) == Ancestor(parents, start, n) && (n >= 1 && i >= 1 ==> k >= 1)
    decreases n
  {
    if n < j {
    } else {
      ChainRepeats(parents, start, i, j, n - j);
      NothingNewOnACycle(parents, start, i, j, i + (n - j));
    }
  }

  /** The walk: one step at a time, remembering every parent it has seen. */
  method IsDescendant(process: Pid, ancestor: Pid, parents: map<Pid, Pid>) returns (r: bool)
    ensures r <==> Descends(parents, process, ancestor)
  {
    var current := process;
    var seen: set<Pid> := {};
    ghost var n := 0;
    while current in parents
      invariant Ancestor(parents, process, n) == Some(current)
      invariant SeenSoFar(parents, process, ancestor, seen, n)
      decreases parents.Values - seen
    {
      var parent := parents[current];
      assert Ancestor(parents, process, n + 1) == Some(parent);
      hide Ancestor, SeenSoFar, Descends;
      if parent == ancestor {
        AncestorMet(parents, process, ancestor, seen, n);
        return true;
      }
      if parent == 0 || parent in seen {
        WalkFails(parents, process, ancestor, seen, n);
        return false;
      }
      SeenOneMore(parents, process, ancestor, seen, n, parent);
      seen := seen + {parent};
      current := parent;
      n := n + 1;
    }
    ChainEnds(parents, process, ancestor, seen, n);
    return false;
  }

  /** The places seen are the first `n` parents; none of them is the ancestor or process 0. */
  ghost predicate SeenSoFar(parents: map<Pid, Pid>, start: Pid, ancestor: Pid, seen: set<Pid>, n: nat) {
    && (forall p | p in seen :: p in parents.Values && p != ancestor && p != 0 && exists k | 1 <= k <= n :: Ancestor(parents, start, k) == Some(p))
    && (forall k | 1 <= k <= n :: Ancestor(parents, start, k).Some? && Ancestor(parents, start, k).value in seen)
  }

  lemma AncestorMet(parents: map<Pid, Pid>, start: Pid, ancestor: Pid, seen: set<Pid>, n: nat)
    requires SeenSoFar(parents, start, ancestor, seen, n) && Ancestor(parents, start, n + 1) == Some(ancestor)
    ensures Descends(parents, start, ancestor)
  {
    assert ReachedAt(parents, start, ancestor, n + 1);
  }

  lemma SeenOneMore(parents: map<Pid, Pid>, start: Pid, ancestor: Pid, seen: set<Pid>, n: nat, next: Pid)
    requires SeenSoFar(parents, start, ancestor, seen, n) && Ancestor(parents, start, n + 1) == Some(next)
    requires next != ancestor && next != 0
    ensures SeenSoFar(parents, start, ancestor, seen + {next}, n + 1) && next in parents.Values
  {
    forall p | p in seen + {next} ensures exists k | 1 <= k <= n + 1 :: Ancestor(parents, start, k) == Some(p) {
      if p in seen {
        var k :| 1 <= k <= n && Ancestor(parents, start, k) == Some(p);
      } else {
        assert Ancestor(parents, start, n + 1) == Some(p);
      }
    }
  }

  lemma ChainEnds(parents: map<Pid, Pid>, start: Pid, ancestor: Pid, seen: set<Pid>, n: nat)
    requires SeenSoFar(parents, start, ancestor, seen, n) && Ancestor(parents, start, n + 1) == None
    ensures !Descends(parents, start, ancestor)
  {
    forall m | m >= 1 ensures !ReachedAt(parents, start, ancestor, m) {
      if m > n && Ancestor(parents, start, m).Some? {
        ChainHasNoGaps(parents, start, n + 1, m);
      }
    }
  }

  lemma WalkFails(parents: map<Pid, Pid>, start: Pid, ancestor: Pid, seen: set<Pid>, n: nat)
    requires SeenSoFar(parents, start, ancestor, seen, n)
    requires var next := Ancestor(parents, start, n + 1);
      next.Some? && next.value != ancestor && (next.value == 0 || next.value in seen)
    ensures !Descends(parents, start, ancestor)
  {
    var next := Ancestor(parents, start, n + 1).value;
    forall m | m >= 1 ensures !ReachedAt(parents, start, ancestor, m) {
      if next != 0 {
        var i :| 1 <= i <= n && Ancestor(parents, start, i) == Some(next);
        NothingNewOnACycle(parents, start, i, n + 1, m);
      }
    }
  }

  // ---------------------------------------------------------------- live descendants

  /** The parents as the program collects them: of two entries for one process the later one counts. */
  function ParentMap(processes: seq<Process>): map<Pid, Pid> {
    if processes == [] then map[]
    else
      var rest := ParentMap(processes[..|processes|-1]);
      var p := processes[|processes|-1];
      if p.parent.Some? then rest[p.pid := p.parent.value] else rest
  }

  /** The map holds exactly the last parent that is listed for each process. */
  lemma {:induction false} ParentMapIs(processes: seq<Process>, pid: Pid)
    ensures pid in ParentMap(processes) <==> exists i | 0 <= i < |processes| :: processes[i].pid == pid && processes[i].parent.Some?
    ensures pid in ParentMap(processes) ==> exists i | 0 <= i < |processes| ::
      && processes[i].pid == pid && processes[i].parent == Some(ParentMap(processes)[pid])
      && forall j | i < j < |processes| && processes[j].pid == pid :: processes[j].parent.None?
  {
    if processes != [] {
      var n := |processes| - 1;
      var before := processes[..n];
      ParentMapIs(before, pid);
      if processes[n].pid == pid && processes[n].parent.Some? {
      } else {
        if pid in ParentMap(before) {
          var i :| 0 <= i < |before| && before[i].pid == pid && before[i].parent == Some(ParentMap(before)[pid])
                   && forall j | i < j < |before| && before[j].pid == pid :: before[j].parent.None?;
          assert processes[i] == before[i];
          assert forall j | i < j < |processes| && processes[j].pid == pid :: processes[j].parent.None? by {
            assert forall j | i < j < n :: processes[j] == before[j];
          }
        }
        if exists i | 0 <= i < |processes| :: processes[i].pid == pid && processes[i].parent.Some? {
          var i :| 0 <= i < |processes| && processes[i].pid == pid && processes[i].parent.Some?;
          assert before[i] == processes[i];
        }
      }
    }
  }

  ghost predicate HasLiveDescendant(processes: seq<Process>, ancestor: Pid) {
    exists p | p in processes :: p.pid != ancestor && !p.terminalHost && Descends(ParentMap(processes), p.pid, ancestor)
  }

  /** Whether some process other than a terminal descends from `ancestor`. */
  method FindLiveDescendant(ancestor: Pid, processes: seq<Process>) returns (r: bool)
    ensures r <==> HasLiveDescendant(processes, ancestor)
  {
    var parents: map<Pid, Pid> := map[];
    for i := 0 to |processes|
      invariant parents == ParentMap(processes[..i])
    {
      assert processes[..i+1][..i] == processes[..i];
      if processes[i].parent.Some? {
        parents := parents[processes[i].pid := processes[i].parent.value];
      }
    }
    assert processes[..|processes|] == processes;
    for i := 0 to |processes|
      invariant forall k | 0 <= k < i ::
        !(processes[k].pid != ancestor && !processes[k].terminalHost && Descends(parents, processes[k].pid, ancestor))
    {
      var p := processes[i];
      if p.pid != ancestor && !p.terminalHost {
        var descends := IsDescendant(p.pid, ancestor, parents);
        if descends { return true; }
      }
    }
    return false;
  }
}
