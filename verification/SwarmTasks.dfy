/** The swarm task graph: validation, and the depth-first search that rejects cyclic graphs. */
module SwarmTasks {
  import opened Wrappers
  import opened Ordering

  datatype AgentRole = Planner | Builder | Verifier | Auditor | ReleaseGuardian

  datatype TaskStatus = Pending | Running | Completed | Blocked

  class SwarmTask {
    const taskId: string
    const role: AgentRole
    const dependsOn: seq<string>
    var status: TaskStatus

    constructor (taskId: string, role: AgentRole, dependsOn: seq<string>, status: TaskStatus)
      ensures this.taskId == taskId && this.role == role && this.dependsOn == dependsOn
      ensures this.status == status
    {
      this.taskId, this.role, this.dependsOn, this.status := taskId, role, dependsOn, status;
    }
  }

  /** A task id maps to the ids it depends on. */
  type Edges = map<string, seq<string>>

  ghost predicate Closed(edges: Edges) {
    forall t, d :: t in edges && d in edges[t] ==> d in edges
  }

  predicate DependsOn(edges: Edges, t: string, d: string) {
    t in edges && d in edges[t]
  }

  /** `p` follows dependencies: each element depends on the next one. */
  ghost predicate IsPath(edges: Edges, p: seq<string>) {
    && |p| > 0
    && (forall i :: 0 <= i < |p| ==> p[i] in edges)
    && (forall i, j :: 0 <= i && j == i + 1 && j < |p| ==> DependsOn(edges, p[i], p[j]))
  }

  ghost predicate ReachesItself(edges: Edges, t: string) {
    exists p :: IsPath(edges, p) && |p| >= 2 && p[0] == t && p[|p| - 1] == t
  }

  ghost predicate Cyclic(edges: Edges) {
    exists t :: ReachesItself(edges, t)
  }

  /** Every listed task comes after all of its dependencies, and none is listed twice. */
  ghost predicate DependencyOrder(edges: Edges, order: seq<string>) {
    && NoDuplicates(order)
    && (forall i :: 0 <= i < |order| ==> order[i] in edges)
    && (forall i, d :: 0 <= i < |order| && d in edges[order[i]] ==> d in order[..i])
  }

  ghost predicate TopologicalOrder(edges: Edges, order: seq<string>) {
    DependencyOrder(edges, order) && forall t :: t in edges ==> t in order
  }

  /** Along a path the position in a topological order strictly decreases. */
  lemma {:induction false} PathDescends(edges: Edges, order: seq<string>, p: seq<string>, k: nat)
    requires TopologicalOrder(edges, order)
    requires IsPath(edges, p) && |p| >= 2
    requires k < |order| && order[k] == p[0]
    ensures p[|p| - 1] in order[..k]
  {
    assert DependsOn(edges, p[0], p[1]);
    var k1 :| 0 <= k1 < k && order[k1] == p[1];
    if |p| > 2 {
      var q := p[1..];
      assert forall i, j :: 0 <= i && j == i + 1 && j < |q| ==> q[i] == p[i + 1] && q[j] == p[j + 1];
      PathDescends(edges, order, q, k1);
      assert p[|p| - 1] in order[..k1];
    }
  }

  lemma OrderExcludesCycles(edges: Edges, order: seq<string>)
    requires TopologicalOrder(edges, order)
    ensures !Cyclic(edges)
  {
    forall t ensures !ReachesItself(edges, t) {
      if ReachesItself(edges, t) {
        var p :| IsPath(edges, p) && |p| >= 2 && p[0] == t && p[|p| - 1] == t;
        var k :| 0 <= k < |order| && order[k] == t;
        PathDescends(edges, order, p, k);
      }
    }
  }

  /** The path that a depth-first search is on when it meets a task it is still visiting. */
  lemma ClosePath(edges: Edges, stack: seq<string>, t: string)
    requires IsPath(edges, stack + [t])
    requires t in stack
    ensures ReachesItself(edges, t)
  {
    var i :| 0 <= i < |stack| && stack[i] == t;
    var whole := stack + [t];
    var p := whole[i..];
    forall k, j | 0 <= k && j == k + 1 && j < |p| ensures DependsOn(edges, p[k], p[j]) {
      assert DependsOn(edges, whole[i + k], whole[i + j]);
    }
    assert IsPath(edges, p) && p[0] == t && p[|p| - 1] == t;
  }

  lemma ExtendPath(edges: Edges, stack: seq<string>, t: string, d: string)
    requires IsPath(edges, stack + [t]) && DependsOn(edges, t, d) && d in edges
    ensures IsPath(edges, stack + [t] + [d])
  {
    var q := stack + [t];
    var p := q + [d];
    forall k, j | 0 <= k && j == k + 1 && j < |p| ensures DependsOn(edges, p[k], p[j]) {
      if j < |q| {
        assert DependsOn(edges, q[k], q[j]);
      }
    }
  }

  lemma AppendToOrder(edges: Edges, order: seq<string>, t: string)
    requires DependencyOrder(edges, order) && t in edges && t !in order
    requires forall d :: d in edges[t] ==> d in order
    ensures DependencyOrder(edges, order + [t])
  {
    var r := order + [t];
    forall i, d | 0 <= i < |r| && d in edges[r[i]] ensures d in r[..i] {
      if i < |order| {
        assert d in order[..i] && r[..i] == order[..i];
      } else {
        assert r[..i] == order;
      }
    }
  }

  /** The two sets shared by the recursive visits.  `finished` records in which order tasks
      entered `visited`. */
  class CycleSearch {
    var visiting: set<string>
    var visited: set<string>
    ghost var finished: seq<string>

    constructor ()
      ensures visiting == {} && visited == {} && finished == []
    {
      visiting, visited, finished := {}, {}, [];
    }

    ghost predicate Valid(edges: Edges)
      reads this
    {
      && Closed(edges)
      && visiting !! visited
      && visiting <= edges.Keys
      && (forall t :: t in visited <==> t in finished)
      && DependencyOrder(edges, finished)
    }

    /** Depth-first visit.  A returned task is one at which a cycle was detected. */
    method Visit(edges: Edges, taskId: string, ghost stack: seq<string>) returns (cycle: Option<string>)
      requires Valid(edges) && taskId in edges
      requires IsPath(edges, stack + [taskId]) && forall t :: t in visiting <==> t in stack
      modifies this
      ensures cycle.Some? ==> ReachesItself(edges, cycle.value)
      ensures cycle.None? ==> Valid(edges) && visiting == old(visiting) && taskId in visited
      ensures cycle.None? ==> old(visited) <= visited
      decreases edges.Keys - visiting
    {
      if taskId in visiting {
        ClosePath(edges, stack, taskId);
        return Some(taskId);
      }
      if taskId in visited {
        return None;
      }
      visiting := visiting + {taskId};
      ghost var entered := visiting;
      var dependencies := edges[taskId];
      for i := 0 to |dependencies|
        invariant Valid(edges) && visiting == entered && old(visited) <= visited
        invariant forall k :: 0 <= k < i ==> dependencies[k] in visited
      {
        assert DependsOn(edges, taskId, dependencies[i]);
        ExtendPath(edges, stack, taskId, dependencies[i]);
        cycle := Visit(edges, dependencies[i], stack + [taskId]);
        if cycle.Some? {
          return;
        }
      }
      visiting := visiting - {taskId};
      visited := visited + {taskId};
      AppendToOrder(edges, finished, taskId);
      finished := finished + [taskId];
      return None;
    }
  }

  /** `_reject_cycles`: the ValueError names the task at which the cycle was met. */
  method RejectCycles(edges: Edges, ids: seq<string>) returns (cycle: Option<string>)
    requires Closed(edges) && forall t :: t in ids <==> t in edges
    ensures cycle.Some? <==> Cyclic(edges)
    ensures cycle.Some? ==> ReachesItself(edges, cycle.value)
    ensures cycle.None? <==> exists order :: TopologicalOrder(edges, order)
  {
    if order :| TopologicalOrder(edges, order) {
      OrderExcludesCycles(edges, order);
    }
    var search := new CycleSearch();
    for i := 0 to |ids|
      invariant search.Valid(edges) && search.visiting == {}
      invariant forall k :: 0 <= k < i ==> ids[k] in search.visited
    {
      assert [] + [ids[i]] == [ids[i]];
      cycle := search.Visit(edges, ids[i], []);
      if cycle.Some? {
        return;
      }
    }
    assert TopologicalOrder(edges, search.finished);
    OrderExcludesCycles(edges, search.finished);
    return None;
  }

  // ---------------------------------------------------------------------------------------------
  // Graph validation

  datatype GraphError =
    | DuplicateTaskIds
    | UnknownDependency(taskId: string)
    | CycleDetected(taskId: string)

  ghost predicate UniqueIds(tasks: seq<SwarmTask>) {
    forall i, j :: 0 <= i < j < |tasks| ==> tasks[i].taskId != tasks[j].taskId
  }

  predicate KnownDependencies(task: SwarmTask, ids: set<string>) {
    forall d :: d in task.dependsOn ==> d in ids
  }

  function TaskIds(tasks: seq<SwarmTask>): (ids: seq<string>)
    ensures |ids| == |tasks|
    ensures forall i :: 0 <= i < |ids| ==> ids[i] == tasks[i].taskId
  {
    seq(|tasks|, i requires 0 <= i < |tasks| => tasks[i].taskId)
  }

  /** `{task.task_id: task.depends_on for task in tasks}` */
  function EdgesOf(tasks: seq<SwarmTask>): Edges {
    if tasks == [] then map[]
    else
      var n := |tasks| - 1;
      EdgesOf(tasks[..n])[tasks[n].taskId := tasks[n].dependsOn]
  }

  lemma {:induction false} EdgesOfIds(tasks: seq<SwarmTask>)
    ensures forall t :: t in EdgesOf(tasks) <==> t in TaskIds(tasks)
  {
    if tasks != [] {
      var n := |tasks| - 1;
      EdgesOfIds(tasks[..n]);
      assert TaskIds(tasks) == TaskIds(tasks[..n]) + [tasks[n].taskId];
    }
  }

  lemma {:induction false} EdgesOfTask(tasks: seq<SwarmTask>, i: nat)
    requires UniqueIds(tasks) && i < |tasks|
    ensures tasks[i].taskId in EdgesOf(tasks) && EdgesOf(tasks)[tasks[i].taskId] == tasks[i].dependsOn
  {
    var n := |tasks| - 1;
    if i < n {
      EdgesOfTask(tasks[..n], i);
    }
  }

  ghost predicate WellReferenced(tasks: seq<SwarmTask>) {
    && UniqueIds(tasks)
    && (forall i :: 0 <= i < |tasks| ==> KnownDependencies(tasks[i], set t | t in TaskIds(tasks)))
  }

  /** A graph that can be executed: ids unique, dependencies known, and an execution order exists. */
  ghost predicate Accepted(tasks: seq<SwarmTask>) {
    WellReferenced(tasks) && exists order :: TopologicalOrder(EdgesOf(tasks), order)
  }

  lemma KnownMeansClosed(tasks: seq<SwarmTask>)
    requires WellReferenced(tasks)
    ensures Closed(EdgesOf(tasks))
  {
    var edges := EdgesOf(tasks);
    var ids := TaskIds(tasks);
    EdgesOfIds(tasks);
    forall t, d | t in edges && d in edges[t] ensures d in edges {
      var i :| 0 <= i < |ids| && ids[i] == t;
      EdgesOfTask(tasks, i);
      assert KnownDependencies(tasks[i], set t | t in ids);
    }
  }

  /** `SwarmTaskGraph.validate_graph` */
  method ValidateGraph(tasks: seq<SwarmTask>) returns (error: Option<GraphError>)
    ensures error.None? <==> Accepted(tasks)
    ensures error.None? <==> WellReferenced(tasks) && !Cyclic(EdgesOf(tasks))
    ensures error == Some(DuplicateTaskIds) <==> !UniqueIds(tasks)
    ensures error.Some? && error.value.CycleDetected? ==> ReachesItself(EdgesOf(tasks), error.value.taskId)
  {
    var ids := TaskIds(tasks);
    var taskIds := set t | t in ids;
    DistinctCount(ids);
    assert NoDuplicates(ids) <==> UniqueIds(tasks) by {
      if NoDuplicates(ids) {
        forall i, j | 0 <= i < j < |tasks| ensures tasks[i].taskId != tasks[j].taskId {
          assert ids[i] != ids[j];
        }
      }
    }
    if |ids| != |taskIds| {
      return Some(DuplicateTaskIds);
    }
    for i := 0 to |tasks|
      invariant forall k :: 0 <= k < i ==> KnownDependencies(tasks[k], taskIds)
    {
      if !KnownDependencies(tasks[i], taskIds) {
        return Some(UnknownDependency(tasks[i].taskId));
      }
    }
    KnownMeansClosed(tasks);
    EdgesOfIds(tasks);
    var cycle := RejectCycles(EdgesOf(tasks), ids);
    error := if cycle.Some? then Some(CycleDetected(cycle.value)) else None;
  }
}
