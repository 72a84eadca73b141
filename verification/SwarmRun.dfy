/** The local coordinator and the loop that drives a task graph round by round. */
module SwarmRun {
  import opened Wrappers
  import opened Ordering
  import opened SwarmTasks

  datatype AgentCard = AgentCard(agentId: string, role: AgentRole)

  datatype Message = Message(senderId: string, senderRole: AgentRole, messageType: string, taskId: string)

  datatype SwarmError =
    | NoAgentForRole(role: AgentRole)
    | MessageNotAllowed(role: AgentRole, messageType: string)

  datatype RoundResult = RoundResult(messages: seq<Message>, completed: seq<string>)

  predicate HasAgent(agents: seq<AgentCard>, role: AgentRole) {
    exists a :: a in agents && a.role == role
  }

  function MessageTypeFor(role: AgentRole): string {
    match role
    case Planner => "task_planned"
    case Builder => "build_completed"
    case Verifier => "verification_completed"
    case Auditor => "audit_completed"
    case ReleaseGuardian => "release_decision"
  }

  /** `ALLOWED_MESSAGE_TYPES`, a table of its own. */
  function AllowedMessageTypes(role: AgentRole): set<string> {
    match role
    case Planner => {"task_planned"}
    case Builder => {"build_completed"}
    case Verifier => {"verification_completed"}
    case Auditor => {"audit_completed"}
    case ReleaseGuardian => {"release_decision"}
  }

  /** Every role may publish the one message that the coordinator sends for it. */
  lemma OwnMessageIsAllowed(role: AgentRole, messageType: string)
    ensures messageType in AllowedMessageTypes(role) <==> messageType == MessageTypeFor(role)
  {
  }

  // ---------------------------------------------------------------------------------------------
  // Ready tasks

  predicate IsReady(task: SwarmTask, completed: set<string>)
    reads task
  {
    task.status == Pending && forall d :: d in task.dependsOn ==> d in completed
  }

  function ReadyAmong(tasks: seq<SwarmTask>, completed: set<string>): (ready: seq<SwarmTask>)
    reads tasks
    ensures forall t :: t in ready ==> t in tasks && IsReady(t, completed)
    ensures forall t :: t in tasks && IsReady(t, completed) ==> t in ready
    ensures UniqueIds(tasks) ==> UniqueIds(ready)
  {
    if tasks == [] then []
    else
      var n := |tasks| - 1;
      var front := ReadyAmong(tasks[..n], completed);
      assert tasks == tasks[..n] + [tasks[n]];
      assert forall i :: 0 <= i < |front| ==> front[i] in tasks[..n];
      if IsReady(tasks[n], completed) then front + [tasks[n]] else front
  }

  function ReadyTasks(tasks: seq<SwarmTask>): (ready: seq<SwarmTask>)
    reads tasks
  {
    ReadyAmong(tasks, set t | t in tasks && t.status == Completed :: t.taskId)
  }

  // ---------------------------------------------------------------------------------------------
  // One round

  predicate Publishes(agents: seq<AgentCard>, task: SwarmTask, m: Message) {
    && m.taskId == task.taskId && m.senderRole == task.role && m.messageType == MessageTypeFor(task.role)
    && exists i :: 0 <= i < |agents| && agents[i] == AgentCard(m.senderId, task.role)
                   && forall k :: 0 <= k < i ==> agents[k].role != task.role
  }

  class Coordinator {
    const agents: seq<AgentCard>
    var messages: seq<Message>

    constructor (agents: seq<AgentCard>)
      ensures this.agents == agents && messages == []
    {
      this.agents, messages := agents, [];
    }

    method AgentForRole(role: AgentRole) returns (agent: Option<AgentCard>)
      ensures agent.Some? <==> HasAgent(agents, role)
      ensures agent.Some? ==> agent.value.role == role
      ensures agent.Some? ==>
        exists i :: 0 <= i < |agents| && agents[i] == agent.value && forall k :: 0 <= k < i ==> agents[k].role != role
    {
      for i := 0 to |agents|
        invariant forall k :: 0 <= k < i ==> agents[k].role != role
      {
        if agents[i].role == role {
          return Some(agents[i]);
        }
      }
      return None;
    }

    method Publish(sender: AgentCard, messageType: string, taskId: string) returns (r: Result<Message, SwarmError>)
      modifies this`messages
      ensures r.Failure? <==> messageType !in AllowedMessageTypes(sender.role)
      ensures r.Failure? ==> messages == old(messages)
      ensures r.Success? ==> r.value == Message(sender.agentId, sender.role, messageType, taskId)
      ensures r.Success? ==> messages == old(messages) + [r.value]
    {
      if messageType !in AllowedMessageTypes(sender.role) {
        return Failure(MessageNotAllowed(sender.role, messageType));
      }
      var m := Message(sender.agentId, sender.role, messageType, taskId);
      messages := messages + [m];
      return Success(m);
    }

    /** The loop body of `run_ready_tasks`. */
    method CompleteTask(task: SwarmTask) returns (r: Result<Message, SwarmError>)
      modifies `messages, task`status
      ensures r.Success? <==> HasAgent(agents, task.role)
      ensures r.Success? ==> Publishes(agents, task, r.value) && messages == old(messages) + [r.value]
      ensures r.Success? ==> task.status == Completed
      ensures r.Failure? ==> r.error == NoAgentForRole(task.role) && task.status == old(task.status)
      ensures r.Failure? ==> messages == old(messages)
    {
      var agent := AgentForRole(task.role);
      if agent.None? {
        return Failure(NoAgentForRole(task.role));
      }
      OwnMessageIsAllowed(task.role, MessageTypeFor(task.role));
      r := Publish(agent.value, MessageTypeFor(task.role), task.taskId);
      if r.Success? {
        task.status := Completed;
      }
    }

    /** Completes tasks in order, up to the first whose role has no agent. */
    method CompleteInOrder(due: seq<SwarmTask>)
      returns (r: Result<RoundResult, SwarmError>, ghost count: nat)
      requires UniqueIds(due)
      modifies `messages, due`status
      ensures count <= |due|
      ensures forall k :: 0 <= k < count ==> HasAgent(agents, due[k].role)
      ensures forall k :: 0 <= k < |due| ==> due[k].status == if k < count then Completed else old(due[k].status)
      ensures r.Success? ==>
        && count == |due| && r.value.completed == TaskIds(due)
        && |r.value.messages| == |due| && messages == old(messages) + r.value.messages
        && forall i :: 0 <= i < |due| ==> Publishes(agents, due[i], r.value.messages[i])
      ensures r.Failure? ==>
        count < |due| && !HasAgent(agents, due[count].role) && r.error == NoAgentForRole(due[count].role)
    {
      var published, completed := [], [];
      for i := 0 to |due|
        invariant |published| == |completed| == i && messages == old(messages) + published
        invariant forall k :: 0 <= k < i ==> completed[k] == due[k].taskId
        invariant forall k :: 0 <= k < i ==> Publishes(agents, due[k], published[k])
        invariant forall k :: 0 <= k < i ==> HasAgent(agents, due[k].role)
        invariant forall k :: 0 <= k < |due| ==> due[k].status == if k < i then Completed else old(due[k].status)
      {
        var m := CompleteTask(due[i]);
        if m.Failure? {
          return Failure(m.error), i;
        }
        published, completed := published + [m.value], completed + [due[i].taskId];
      }
      return Success(RoundResult(published, completed)), |due|;
    }

    /** Completes the tasks that are ready at the start of the round, in graph order; a role
        without an agent stops the round at the first task that needs it.  `count` tasks complete. */
    method RunReadyTasks(tasks: seq<SwarmTask>)
      returns (r: Result<RoundResult, SwarmError>, ghost ready: seq<SwarmTask>, ghost count: nat)
      requires UniqueIds(tasks)
      modifies `messages, tasks`status
      ensures ready == old(ReadyTasks(tasks)) && count <= |ready|
      ensures forall k :: 0 <= k < count ==> HasAgent(agents, ready[k].role)
      ensures forall k :: 0 <= k < count ==> ready[k].status == Completed
      ensures forall t :: t in tasks && t !in ready[..count] ==> t.status == old(t.status)
      ensures r.Success? ==>
        && count == |ready| && r.value.completed == TaskIds(ready)
        && |r.value.messages| == |ready| && messages == old(messages) + r.value.messages
        && forall i :: 0 <= i < |ready| ==> Publishes(agents, ready[i], r.value.messages[i])
      ensures r.Failure? ==>
        count < |ready| && !HasAgent(agents, ready[count].role) && r.error == NoAgentForRole(ready[count].role)
    {
      var due := ReadyTasks(tasks);
      assert forall k :: 0 <= k < |due| ==> due[k] in due;
      ready := due;
      r, count := CompleteInOrder(due);
    }
  }

  /** Finished work is announced by the first agent of its role, in the word for that role. */
  lemma WorkIsAnnounced(agents: seq<AgentCard>, task: SwarmTask, m: Message)
    requires Publishes(agents, task, m)
    ensures m.taskId == task.taskId && m.senderRole == task.role
    ensures m.messageType == if task.role == Planner then "task_planned"
                             else if task.role == Builder then "build_completed"
                             else if task.role == Verifier then "verification_completed"
                             else if task.role == Auditor then "audit_completed" else "release_decision"
    ensures exists i :: 0 <= i < |agents| && agents[i].agentId == m.senderId && agents[i].role == task.role
                        && forall k :: 0 <= k < i ==> agents[k].role != task.role
  {
  }

  // ---------------------------------------------------------------------------------------------
  // Which tasks a run can complete

  type StatusTable = map<string, TaskStatus>

  ghost function StatusesOf(tasks: seq<SwarmTask>): StatusTable
    reads tasks
  {
    if tasks == [] then map[]
    else
      var n := |tasks| - 1;
      StatusesOf(tasks[..n])[tasks[n].taskId := tasks[n].status]
  }

  lemma {:induction false} StatusesOfIds(tasks: seq<SwarmTask>)
    ensures forall t :: t in StatusesOf(tasks) <==> t in TaskIds(tasks)
  {
    if tasks != [] {
      var n := |tasks| - 1;
      StatusesOfIds(tasks[..n]);
      assert TaskIds(tasks) == TaskIds(tasks[..n]) + [tasks[n].taskId];
    }
  }

  lemma {:induction false} StatusesOfTask(tasks: seq<SwarmTask>, i: nat)
    requires UniqueIds(tasks) && i < |tasks|
    ensures tasks[i].taskId in StatusesOf(tasks) && StatusesOf(tasks)[tasks[i].taskId] == tasks[i].status
  {
    var n := |tasks| - 1;
    if i < n {
      StatusesOfTask(tasks[..n], i);
    }
  }

  /** A chain of dependencies whose elements, except possibly the last, are pending. */
  ghost predicate PendingChain(edges: Edges, st: StatusTable, p: seq<string>) {
    && IsPath(edges, p)
    && (forall i :: 0 <= i < |p| ==> p[i] in st)
    && (forall i :: 0 <= i < |p| - 1 ==> st[p[i]] == Pending)
  }

  ghost predicate Stuck(edges: Edges, st: StatusTable, t: string) {
    exists p :: PendingChain(edges, st, p) && p[0] == t && st[p[|p| - 1]] in {Running, Blocked}
  }

  /** A pending task from which no chain of pending dependencies ends in a running or blocked one. */
  ghost predicate Runnable(edges: Edges, st: StatusTable, t: string) {
    t in edges && t in st && st[t] == Pending && !Stuck(edges, st, t)
  }

  /** Every finished task was pending, and its dependencies are finished or were completed. */
  ghost predicate DependencyClosed(edges: Edges, st: StatusTable, done: set<string>) {
    && edges.Keys == st.Keys && Closed(edges)
    && (forall t :: t in done ==> t in edges && st[t] == Pending)
    && (forall t, d :: t in done && d in edges[t] ==> d in done || st[d] == Completed)
  }

  lemma {:induction false} ChainStaysDone(edges: Edges, st: StatusTable, done: set<string>, p: seq<string>)
    requires DependencyClosed(edges, st, done)
    requires PendingChain(edges, st, p) && p[0] in done
    ensures st[p[|p| - 1]] !in {Running, Blocked}
  {
    if |p| > 1 {
      assert DependsOn(edges, p[0], p[1]);
      if st[p[1]] != Completed {
        var q := p[1..];
        assert forall i, j :: 0 <= i && j == i + 1 && j < |q| ==> q[i] == p[i + 1] && q[j] == p[j + 1];
        ChainStaysDone(edges, st, done, q);
      } else {
        assert |p| == 2;
      }
    }
  }

  lemma DoneIsRunnable(edges: Edges, st: StatusTable, done: set<string>, t: string)
    requires DependencyClosed(edges, st, done) && t in done
    ensures Runnable(edges, st, t)
  {
    forall p | PendingChain(edges, st, p) && p[0] == t ensures st[p[|p| - 1]] !in {Running, Blocked} {
      ChainStaysDone(edges, st, done, p);
    }
  }

  /** Nothing is ready any more: each pending, unfinished task waits for something. */
  ghost predicate NothingReady(edges: Edges, st: StatusTable, done: set<string>) {
    forall t :: t in edges && t in st && st[t] == Pending && t !in done ==>
      exists d :: d in edges[t] && d !in done && d in st && st[d] != Completed
  }

  lemma ExtendChain(edges: Edges, st: StatusTable, t: string, p: seq<string>)
    requires PendingChain(edges, st, p) && t in edges && t in st && st[t] == Pending && DependsOn(edges, t, p[0])
    ensures PendingChain(edges, st, [t] + p)
  {
    var q := [t] + p;
    forall i, j | 0 <= i && j == i + 1 && j < |q| ensures DependsOn(edges, q[i], q[j]) {
      if i > 0 {
        assert DependsOn(edges, p[i - 1], p[j - 1]);
      }
    }
  }

  lemma StuckUpstream(edges: Edges, st: StatusTable, t: string, d: string)
    requires t in edges && t in st && st[t] == Pending && DependsOn(edges, t, d) && Stuck(edges, st, d)
    ensures Stuck(edges, st, t)
  {
    var p :| PendingChain(edges, st, p) && p[0] == d && st[p[|p| - 1]] in {Running, Blocked};
    ExtendChain(edges, st, t, p);
    var q := [t] + p;
    assert q[0] == t && q[|q| - 1] == p[|p| - 1];
  }

  lemma {:induction false} UnfinishedIsStuck(edges: Edges, st: StatusTable, done: set<string>,
                                             order: seq<string>, k: nat)
    requires TopologicalOrder(edges, order) && edges.Keys == st.Keys && Closed(edges)
    requires NothingReady(edges, st, done)
    requires k < |order| && st[order[k]] == Pending && order[k] !in done
    ensures Stuck(edges, st, order[k])
  {
    var t := order[k];
    var d :| d in edges[t] && d !in done && d in st && st[d] != Completed;
    assert d in order[..k];
    if st[d] == Pending {
      var j :| 0 <= j < k && order[j] == d;
      UnfinishedIsStuck(edges, st, done, order, j);
    } else {
      assert PendingChain(edges, st, [d]) && [d][0] == d;
    }
    StuckUpstream(edges, st, t, d);
  }

  /** When nothing is ready, the finished tasks are exactly the runnable ones. */
  lemma RunCompletesTheRunnable(edges: Edges, st: StatusTable, done: set<string>, order: seq<string>)
    requires TopologicalOrder(edges, order)
    requires DependencyClosed(edges, st, done) && NothingReady(edges, st, done)
    ensures forall t :: t in done <==> Runnable(edges, st, t)
  {
    forall t ensures t in done <==> Runnable(edges, st, t) {
      if t in done {
        DoneIsRunnable(edges, st, done, t);
      } else if t in edges && st[t] == Pending {
        var k :| 0 <= k < |order| && order[k] == t;
        UnfinishedIsStuck(edges, st, done, order, k);
      }
    }
  }

  /** In a graph whose tasks are all pending, every task is runnable. */
  lemma AllPendingAllRunnable(edges: Edges, st: StatusTable)
    requires edges.Keys == st.Keys && forall t :: t in st ==> st[t] == Pending
    ensures forall t :: t in edges ==> Runnable(edges, st, t)
  {
    forall t | t in edges ensures Runnable(edges, st, t) {
      forall p | PendingChain(edges, st, p) && p[0] == t ensures st[p[|p| - 1]] == Pending {
      }
    }
  }

  // ---------------------------------------------------------------------------------------------
  // The run

  lemma AllListed(done: seq<string>, ids: seq<string>)
    requires NoDuplicates(done) && (forall x :: x in done ==> x in ids) && |done| >= |ids|
    ensures forall x :: x in ids ==> x in done
  {
    DistinctCount(done);
    DistinctCount(ids);
    var d, s := set x | x in done, set x | x in ids;
    SubsetOfSameSize(d, s);
    assert forall x :: x in ids ==> x in s;
  }

  lemma SubsetOfSameSize(a: set<string>, b: set<string>)
    requires a <= b && |a| >= |b|
    ensures a == b
  {
    assert |b| == |a| + |b - a| by {
      assert b == a + (b - a);
    }
  }

  /** Finished tasks were pending, none finished twice, and each finished after its dependencies. */
  ghost predicate CompletionOrder(edges: Edges, st: StatusTable, done: seq<string>) {
    && NoDuplicates(done)
    && (forall i :: 0 <= i < |done| ==> done[i] in edges && done[i] in st && st[done[i]] == Pending)
    && (forall i, d :: 0 <= i < |done| && d in edges[done[i]] ==> d in done[..i] || (d in st && st[d] == Completed))
  }

  /** `edges` is the dependency table of a well-formed task list. */
  ghost predicate Tabulates(tasks: seq<SwarmTask>, edges: Edges) {
    && UniqueIds(tasks) && Closed(edges)
    && (forall t :: t in tasks ==> t.taskId in edges && edges[t.taskId] == t.dependsOn)
    && (forall t :: t in edges <==> t in TaskIds(tasks))
  }

  lemma GraphIsTabulated(tasks: seq<SwarmTask>)
    requires WellReferenced(tasks)
    ensures Tabulates(tasks, EdgesOf(tasks))
  {
    KnownMeansClosed(tasks);
    EdgesOfIds(tasks);
    forall t | t in tasks ensures t.taskId in EdgesOf(tasks) && EdgesOf(tasks)[t.taskId] == t.dependsOn {
      var i :| 0 <= i < |tasks| && tasks[i] == t;
      EdgesOfTask(tasks, i);
    }
  }

  lemma StatusesAreTabulated(tasks: seq<SwarmTask>)
    requires UniqueIds(tasks)
    ensures StatusesOf(tasks).Keys == EdgesOf(tasks).Keys
    ensures forall t :: t in tasks ==> t.taskId in StatusesOf(tasks) && StatusesOf(tasks)[t.taskId] == t.status
  {
    EdgesOfIds(tasks);
    StatusesOfIds(tasks);
    forall t | t in tasks ensures t.taskId in StatusesOf(tasks) && StatusesOf(tasks)[t.taskId] == t.status {
      var i :| 0 <= i < |tasks| && tasks[i] == t;
      StatusesOfTask(tasks, i);
    }
  }

  /** What the run has done so far: `done` in completion order, `st` the initial statuses. */
  ghost predicate Progress(tasks: seq<SwarmTask>, edges: Edges, st: StatusTable, done: seq<string>)
    reads tasks
  {
    && st.Keys == edges.Keys
    && CompletionOrder(edges, st, done)
    && (forall t :: t in tasks ==> t.taskId in st && t.status == if t.taskId in done then Completed else st[t.taskId])
  }

  lemma ReadyMeansDependenciesDone(tasks: seq<SwarmTask>, edges: Edges, st: StatusTable, done: seq<string>,
                                   task: SwarmTask)
    requires Tabulates(tasks, edges) && Progress(tasks, edges, st, done) && task in tasks
    ensures task in ReadyTasks(tasks) <==>
      && task.taskId !in done && st[task.taskId] == Pending
      && forall d :: d in task.dependsOn ==> d in done || (d in st && st[d] == Completed)
    ensures edges[task.taskId] == task.dependsOn
  {
    var ids := TaskIds(tasks);
    var completed := set t | t in tasks && t.status == Completed :: t.taskId;
    forall d ensures d in completed <==> d in done || (d in st && st[d] == Completed) {
      if d in done || (d in st && st[d] == Completed) {
        assert d in ids;
        var i :| 0 <= i < |ids| && ids[i] == d;
        assert tasks[i].status == Completed;
      }
    }
    var i :| 0 <= i < |tasks| && tasks[i] == task;
  }

  /** The tasks that one round completes extend the completion order. */
  lemma ExtendCompletionOrder(edges: Edges, st: StatusTable, done: seq<string>, ids: seq<string>)
    requires CompletionOrder(edges, st, done) && NoDuplicates(ids)
    requires forall i :: 0 <= i < |ids| ==>
      && ids[i] in edges && ids[i] !in done && ids[i] in st && st[ids[i]] == Pending
      && forall d :: d in edges[ids[i]] ==> d in done || (d in st && st[d] == Completed)
    ensures CompletionOrder(edges, st, done + ids)
  {
    var next := done + ids;
    forall i, d | 0 <= i < |next| && d in edges[next[i]] ensures d in next[..i] || (d in st && st[d] == Completed) {
      if i < |done| {
        assert next[..i] == done[..i];
      } else {
        assert next[i] == ids[i - |done|];
        assert next[..i] == done + ids[..i - |done|];
      }
    }
  }

  ghost predicate ReadyAfter(edges: Edges, st: StatusTable, done: seq<string>, t: string) {
    && t in edges && t in st && t !in done && st[t] == Pending
    && forall d :: d in edges[t] ==> d in done || (d in st && st[d] == Completed)
  }

  lemma ReadyIds(tasks: seq<SwarmTask>, ready: seq<SwarmTask>)
    requires UniqueIds(tasks) && forall t :: t in ready ==> t in tasks
    ensures forall t :: t in tasks ==> (t.taskId in TaskIds(ready) <==> t in ready)
  {
    var ids := TaskIds(ready);
    forall t | t in tasks ensures t.taskId in ids <==> t in ready {
      if t.taskId in ids {
        var i :| 0 <= i < |ids| && ids[i] == t.taskId;
        assert ready[i] in tasks;
      }
    }
  }

  lemma RoundKeepsProgress(tasks: seq<SwarmTask>, edges: Edges, st: StatusTable, done: seq<string>,
                           ready: seq<SwarmTask>)
    requires st.Keys == edges.Keys && UniqueIds(ready)
    requires CompletionOrder(edges, st, done)
    requires forall i :: 0 <= i < |ready| ==>
      ready[i].status == Completed && ReadyAfter(edges, st, done, ready[i].taskId)
    requires UniqueIds(tasks) && forall t :: t in ready ==> t in tasks
    requires forall t :: t in tasks ==> t.taskId in st
    requires forall t :: t in tasks && t !in ready ==> t.status == if t.taskId in done then Completed else st[t.taskId]
    ensures Progress(tasks, edges, st, done + TaskIds(ready))
  {
    ExtendCompletionOrder(edges, st, done, TaskIds(ready));
    ReadyIds(tasks, ready);
  }

  lemma ProgressIsClosed(tasks: seq<SwarmTask>, edges: Edges, st: StatusTable, done: seq<string>)
    requires Tabulates(tasks, edges) && Progress(tasks, edges, st, done)
    ensures DependencyClosed(edges, st, set t | t in done)
  {
  }

  /** A stop with nothing ready, or with as many tasks finished as there are tasks. */
  lemma StopMeansNothingReady(tasks: seq<SwarmTask>, edges: Edges, st: StatusTable, done: seq<string>)
    requires Tabulates(tasks, edges) && Progress(tasks, edges, st, done)
    requires ReadyTasks(tasks) == [] || |done| >= |tasks|
    ensures NothingReady(edges, st, set t | t in done)
  {
    var ids := TaskIds(tasks);
    forall t | t in edges && st[t] == Pending && t !in done
      ensures exists d :: d in edges[t] && d !in (set x | x in done) && d in st && st[d] != Completed
    {
      var i :| 0 <= i < |ids| && ids[i] == t;
      if |done| >= |tasks| {
        AllListed(done, ids);
      } else {
        ReadyMeansDependenciesDone(tasks, edges, st, done, tasks[i]);
        assert tasks[i] !in ReadyTasks(tasks);
        var d :| d in edges[t] && !(d in done || (d in st && st[d] == Completed));
        assert d in edges;
      }
    }
  }

  /** Once the loop stops, exactly the runnable tasks are done. */
  lemma StopCompletesTheRunnable(tasks: seq<SwarmTask>, edges: Edges, st: StatusTable, done: seq<string>)
    requires Tabulates(tasks, edges) && Progress(tasks, edges, st, done)
    requires exists order :: TopologicalOrder(edges, order)
    requires ReadyTasks(tasks) == [] || |done| >= |tasks|
    ensures forall t :: t in done <==> Runnable(edges, st, t)
  {
    var order :| TopologicalOrder(edges, order);
    ProgressIsClosed(tasks, edges, st, done);
    StopMeansNothingReady(tasks, edges, st, done);
    RunCompletesTheRunnable(edges, st, (set t | t in done), order);
  }

  lemma CompletedCannotExceed(tasks: seq<SwarmTask>, edges: Edges, st: StatusTable, done: seq<string>)
    requires Tabulates(tasks, edges) && Progress(tasks, edges, st, done)
    ensures |done| <= |tasks|
    ensures |done| == |tasks| ==> forall t :: t in TaskIds(tasks) ==> t in done
  {
    DistinctCount(done);
    DistinctCount(TaskIds(tasks));
    var d, s := set x | x in done, set x | x in TaskIds(tasks);
    assert d <= s;
    assert s == d + (s - d);
    assert |s| == |d| + |s - d|;
    if |done| == |tasks| {
      AllListed(done, TaskIds(tasks));
    }
  }

  ghost predicate Staffed(agents: seq<AgentCard>, tasks: seq<SwarmTask>, ids: seq<string>) {
    forall t :: t in tasks && t.taskId in ids ==> HasAgent(agents, t.role)
  }

  ghost predicate Unstaffed(agents: seq<AgentCard>, tasks: seq<SwarmTask>, edges: Edges, st: StatusTable) {
    exists t :: t in tasks && Runnable(edges, st, t.taskId) && !HasAgent(agents, t.role)
  }

  lemma ReadyIsRunnable(tasks: seq<SwarmTask>, edges: Edges, st: StatusTable, done: seq<string>, t: string)
    requires Tabulates(tasks, edges) && Progress(tasks, edges, st, done)
    requires ReadyAfter(edges, st, done, t)
    ensures Runnable(edges, st, t)
  {
    var finished := (set x | x in done) + {t};
    assert DependencyClosed(edges, st, finished);
    DoneIsRunnable(edges, st, finished, t);
  }

  /** What each round keeps: `done` lists the tasks finished so far. */
  ghost predicate Kept(agents: seq<AgentCard>, tasks: seq<SwarmTask>, edges: Edges, st: StatusTable, done: seq<string>)
    reads tasks
  {
    Progress(tasks, edges, st, done) && Staffed(agents, tasks, done) && |done| <= |tasks|
  }

  /** One round of the driving loop, seen from the statuses `st` at the start of the run. */
  method RunRound(coordinator: Coordinator, tasks: seq<SwarmTask>,
                  ghost edges: Edges, ghost st: StatusTable, ghost done: seq<string>)
    returns (r: Result<RoundResult, SwarmError>)
    requires Tabulates(tasks, edges) && Kept(coordinator.agents, tasks, edges, st, done)
    modifies coordinator`messages, tasks`status
    ensures r.Success? ==> Kept(coordinator.agents, tasks, edges, st, done + r.value.completed)
    ensures r.Success? ==> coordinator.messages == old(coordinator.messages) + r.value.messages
    ensures r.Success? && r.value.completed == [] ==> ReadyTasks(tasks) == [] && r.value.messages == []
    ensures r.Failure? ==> Unstaffed(coordinator.agents, tasks, edges, st)
  {
    ghost var ready := ReadyTasks(tasks);
    forall t | t in ready
      ensures t in tasks && ReadyAfter(edges, st, done, t.taskId) && Runnable(edges, st, t.taskId)
    {
      ReadyMeansDependenciesDone(tasks, edges, st, done, t);
      ReadyIsRunnable(tasks, edges, st, done, t.taskId);
    }
    ghost var found, count;
    r, found, count := coordinator.RunReadyTasks(tasks);
    if r.Success? {
      assert found[..count] == found;
      RoundKeepsProgress(tasks, edges, st, done, ready);
      ReadyIds(tasks, ready);
      CompletedCannotExceed(tasks, edges, st, done + r.value.completed);
    } else {
      assert ready[count] in ready;
    }
  }

  /** The driving loop: rounds until every task is done or a round completes nothing.  `rounds`
      counts the rounds that completed something, `gaveUp` tells whether the `break` was taken. */
  method RunRounds(coordinator: Coordinator, tasks: seq<SwarmTask>, ghost edges: Edges, ghost st: StatusTable)
    returns (r: Result<RoundResult, SwarmError>, ghost rounds: nat, ghost gaveUp: bool)
    requires Tabulates(tasks, edges) && Kept(coordinator.agents, tasks, edges, st, [])
    requires exists order :: TopologicalOrder(edges, order)
    modifies coordinator`messages, tasks`status
    ensures r.Success? ==>
      && Kept(coordinator.agents, tasks, edges, st, r.value.completed)
      && (forall t :: t in r.value.completed <==> Runnable(edges, st, t))
      && coordinator.messages == old(coordinator.messages) + r.value.messages
    ensures r.Failure? ==> Unstaffed(coordinator.agents, tasks, edges, st)
    ensures rounds <= |tasks|
    ensures gaveUp ==> r.Success? && |r.value.completed| < |tasks|
  {
    var published, done := [], [];
    rounds, gaveUp := 0, false;
    while |done| < |tasks|
      invariant Kept(coordinator.agents, tasks, edges, st, done)
      invariant rounds <= |done|
      invariant coordinator.messages == old(coordinator.messages) + published
      invariant !gaveUp
      decreases |tasks| - |done|
    {
      var round := RunRound(coordinator, tasks, edges, st, done);
      if round.Failure? {
        r := Failure(round.error);
        return;
      }
      if round.value.completed == [] {
        gaveUp := true;
        break;
      }
      published, done := published + round.value.messages, done + round.value.completed;
      rounds := rounds + 1;
    }
    StopCompletesTheRunnable(tasks, edges, st, done);
    return Success(RoundResult(published, done)), rounds, gaveUp;
  }

  /** A run over an accepted graph completes exactly the runnable tasks, in dependency order, and
      fails exactly when one of them has a role that no agent plays. */
  method RunToCompletion(coordinator: Coordinator, tasks: seq<SwarmTask>)
    returns (r: Result<RoundResult, SwarmError>, ghost rounds: nat, ghost gaveUp: bool)
    requires Accepted(tasks)
    modifies coordinator`messages, tasks`status
    ensures r.Success? ==> Progress(tasks, EdgesOf(tasks), old(StatusesOf(tasks)), r.value.completed)
    ensures r.Success? ==>
      forall t :: t in r.value.completed <==> Runnable(EdgesOf(tasks), old(StatusesOf(tasks)), t)
    ensures r.Success? ==> coordinator.messages == old(coordinator.messages) + r.value.messages
    ensures r.Success? <==> !Unstaffed(coordinator.agents, tasks, EdgesOf(tasks), old(StatusesOf(tasks)))
    ensures rounds <= |tasks|
    ensures gaveUp ==> r.Success? && |r.value.completed| < |tasks|
  {
    GraphIsTabulated(tasks);
    StatusesAreTabulated(tasks);
    r, rounds, gaveUp := RunRounds(coordinator, tasks, EdgesOf(tasks), StatusesOf(tasks));
  }

  /** When every task starts pending, the run (if no role is missing) finishes all of them: the
      completion list is a permutation of the ids with each dependency strictly before its dependent. */
  lemma AllPendingRunFinishes(tasks: seq<SwarmTask>, edges: Edges, st: StatusTable, done: seq<string>)
    requires Tabulates(tasks, edges) && Progress(tasks, edges, st, done)
    requires forall t :: t in st ==> st[t] == Pending
    requires forall t :: t in done <==> Runnable(edges, st, t)
    ensures |done| == |tasks| && multiset(done) == multiset(TaskIds(tasks))
    ensures forall i, d :: 0 <= i < |done| && d in edges[done[i]] ==> d in done[..i]
    ensures forall t :: t in tasks ==> t.status == Completed
  {
    AllPendingAllRunnable(edges, st);
    var ids := TaskIds(tasks);
    DistinctIds(tasks);
    assert forall x :: x in done <==> x in ids;
    SamePermutation(done, ids);
    forall i, d | 0 <= i < |done| && d in edges[done[i]] ensures d in done[..i] {
      assert d in edges && st[d] == Pending;
    }
    forall t | t in tasks ensures t.status == Completed {
      assert t.taskId in edges;
    }
  }

  lemma DistinctIds(tasks: seq<SwarmTask>)
    requires UniqueIds(tasks)
    ensures NoDuplicates(TaskIds(tasks))
  {
  }

  lemma {:induction false} SamePermutation(a: seq<string>, b: seq<string>)
    requires NoDuplicates(a) && NoDuplicates(b) && forall x :: x in a <==> x in b
    ensures multiset(a) == multiset(b) && |a| == |b|
  {
    forall x ensures multiset(a)[x] == multiset(b)[x] {
      OccursOnce(a, x);
      OccursOnce(b, x);
    }
    SameElements(a, b);
  }

  lemma {:induction false} OccursOnce(a: seq<string>, x: string)
    requires NoDuplicates(a)
    ensures multiset(a)[x] == if x in a then 1 else 0
  {
    if a != [] {
      OccursOnce(a[1..], x);
      assert a == [a[0]] + a[1..];
    }
  }
}
