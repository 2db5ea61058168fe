// The in-memory task store: a list of task objects with create, assign,
// status update and snapshot. Lookups take the first task with the id, as
// `FirstOrDefault` does; ids are not assumed to be distinct.

module AgentManagement {
  import opened Wrappers
  import opened Entities

  /** The first index at or after `from` whose task has this id. */
  function FindFrom(ts: seq<TaskView>, id: Guid, from: nat): (r: Option<nat>)
    requires from <= |ts|
    ensures r.Some? ==> from <= r.value < |ts| && ts[r.value].id == id
    ensures r.Some? ==> forall k :: from <= k < r.value ==> ts[k].id != id
    ensures r.None? ==> forall k :: from <= k < |ts| ==> ts[k].id != id
    decreases |ts| - from
  {
    if from == |ts| then None
    else if ts[from].id == id then Some(from)
    else FindFrom(ts, id, from + 1)
  }

  /** `FirstOrDefault(t => t.Id == id)`, as an index. */
  function FindFirst(ts: seq<TaskView>, id: Guid): Option<nat> {
    FindFrom(ts, id, 0)
  }

  predicate HasId(ts: seq<TaskView>, id: Guid) {
    exists k :: 0 <= k < |ts| && ts[k].id == id
  }

  predicate DistinctIds(ts: seq<TaskView>) {
    forall a, b :: 0 <= a < b < |ts| ==> ts[a].id != ts[b].id
  }

  /** The tasks after `task.Status = status` on the first task with the id, if there is one. */
  function WithStatus(ts: seq<TaskView>, id: Guid, status: TaskStatus): (r: seq<TaskView>)
    ensures |r| == |ts|
    ensures forall k :: 0 <= k < |ts| ==> r[k].id == ts[k].id
  {
    match FindFirst(ts, id)
    case None => ts
    case Some(i) => ts[i := ts[i].(status := status)]
  }

  /** The tasks after `task.AssignedAgentId = agentId` on the first task with the id, if there is one. */
  function WithAssignee(ts: seq<TaskView>, id: Guid, agentId: Guid): (r: seq<TaskView>)
    ensures |r| == |ts|
    ensures forall k :: 0 <= k < |ts| ==> r[k].id == ts[k].id
  {
    match FindFirst(ts, id)
    case None => ts
    case Some(i) => ts[i := ts[i].(assignedAgentId := agentId)]
  }

  lemma FindFromIs(ts: seq<TaskView>, id: Guid, from: nat, i: nat)
    requires from <= i < |ts| && ts[i].id == id
    requires forall k :: from <= k < i ==> ts[k].id != id
    ensures FindFrom(ts, id, from) == Some(i)
    decreases i - from
  {
    if from < i {
      FindFromIs(ts, id, from + 1, i);
    }
  }

  /** The lookup finds a task exactly when some task has the id. */
  lemma FindFirstIff(ts: seq<TaskView>, id: Guid)
    ensures FindFirst(ts, id).Some? <==> HasId(ts, id)
  {
    if HasId(ts, id) {
      var k :| 0 <= k < |ts| && ts[k].id == id;
      assert FindFirst(ts, id).Some?;
    }
  }

  /** With distinct ids, the lookup finds the one task that has the id. */
  lemma FindFirstDistinct(ts: seq<TaskView>, id: Guid, i: nat)
    requires DistinctIds(ts)
    requires i < |ts| && ts[i].id == id
    ensures FindFirst(ts, id) == Some(i)
  {
    FindFromIs(ts, id, 0, i);
  }

  /** Lookups only look at ids, so updates that keep the ids keep the lookup. */
  lemma {:induction false} FindFirstSameIds(ts: seq<TaskView>, us: seq<TaskView>, id: Guid, from: nat)
    requires |ts| == |us| && from <= |ts|
    requires forall k :: 0 <= k < |ts| ==> ts[k].id == us[k].id
    ensures FindFrom(ts, id, from) == FindFrom(us, id, from)
    decreases |ts| - from
  {
    if from < |ts| {
      FindFirstSameIds(ts, us, id, from + 1);
    }
  }

  /** A status update with an unknown id changes nothing. */
  lemma UnknownIdNoChange(ts: seq<TaskView>, id: Guid, status: TaskStatus, agentId: Guid)
    requires !HasId(ts, id)
    ensures WithStatus(ts, id, status) == ts
    ensures WithAssignee(ts, id, agentId) == ts
  {
    FindFirstIff(ts, id);
  }

  /**
   * A status update on a known id sets the status of the first task with
   * that id, from whatever status it had; every other field of that task and
   * every other task is unchanged.
   */
  lemma StatusUpdateEffect(ts: seq<TaskView>, id: Guid, status: TaskStatus)
    requires HasId(ts, id)
    ensures var i := FindFirst(ts, id).value;
            var r := WithStatus(ts, id, status);
            && ts[i].id == id
            && r[i].status == status
            && r[i].(status := ts[i].status) == ts[i]
            && (forall k :: 0 <= k < |ts| && k != i ==> r[k] == ts[k])
  {
    FindFirstIff(ts, id);
  }

  /** Assigning sets only `AssignedAgentId` of the first task with the id. */
  lemma AssignEffect(ts: seq<TaskView>, id: Guid, agentId: Guid)
    requires HasId(ts, id)
    ensures var i := FindFirst(ts, id).value;
            var r := WithAssignee(ts, id, agentId);
            && ts[i].id == id
            && r[i].assignedAgentId == agentId
            && r[i].(assignedAgentId := ts[i].assignedAgentId) == ts[i]
            && (forall k :: 0 <= k < |ts| && k != i ==> r[k] == ts[k])
  {
    FindFirstIff(ts, id);
  }

  /** Of two status updates on one id the second wins; in particular setting a status twice is setting it once. */
  lemma StatusLastWins(ts: seq<TaskView>, id: Guid, a: TaskStatus, b: TaskStatus)
    ensures WithStatus(WithStatus(ts, id, a), id, b) == WithStatus(ts, id, b)
  {
    FindFirstSameIds(ts, WithStatus(ts, id, a), id, 0);
  }

  lemma StatusIdempotent(ts: seq<TaskView>, id: Guid, status: TaskStatus)
    ensures WithStatus(WithStatus(ts, id, status), id, status) == WithStatus(ts, id, status)
  {
    StatusLastWins(ts, id, status, status);
  }

  /** A status update and an assignment touch different fields, so their order does not matter. */
  lemma StatusAssignCommute(ts: seq<TaskView>, a: Guid, status: TaskStatus, b: Guid, agentId: Guid)
    ensures WithStatus(WithAssignee(ts, b, agentId), a, status) == WithAssignee(WithStatus(ts, a, status), b, agentId)
  {
    FindFirstSameIds(ts, WithAssignee(ts, b, agentId), a, 0);
    FindFirstSameIds(ts, WithStatus(ts, a, status), b, 0);
  }

  /** A task appended with a new id is the one the lookup finds for that id. */
  lemma FindAppended(ts: seq<TaskView>, v: TaskView)
    requires !HasId(ts, v.id)
    ensures FindFirst(ts + [v], v.id) == Some(|ts|)
  {
    FindFromIs(ts + [v], v.id, 0, |ts|);
  }

  /** A lookup for an id already present is not affected by appending. */
  lemma FindBeforeAppended(ts: seq<TaskView>, v: TaskView, id: Guid)
    requires HasId(ts, id)
    ensures FindFirst(ts + [v], id) == FindFirst(ts, id)
  {
    FindFirstIff(ts, id);
    var i := FindFirst(ts, id).value;
    FindFromIs(ts + [v], id, 0, i);
  }

  /** The views of a list of task objects, in list order. */
  function ViewsOf(ts: seq<AgentTask>): (r: seq<TaskView>)
    reads ts
    ensures |r| == |ts|
    ensures forall k :: 0 <= k < |ts| ==> r[k] == ts[k].View()
  {
    if ts == [] then [] else [ts[0].View()] + ViewsOf(ts[1..])
  }

  /** `AgentManager`: the list `_tasks` of task objects. */
  class AgentManager {
    var tasks: seq<AgentTask>

    /** Every task object appears once, as each `CreateTaskAsync` adds a new one. */
    ghost predicate Valid()
      reads this
    {
      forall a, b :: 0 <= a < b < |tasks| ==> tasks[a] != tasks[b]
    }

    /** The properties of every task, in list order. */
    function Snapshot(): seq<TaskView>
      reads this, tasks
    {
      ViewsOf(tasks)
    }

    constructor()
      ensures Valid() && tasks == []
    {
      tasks := [];
    }

    /** `CreateTaskAsync`: append one new Pending task; the tasks already there are untouched. */
    method CreateTask(title: string, description: string, id: Guid, now: int) returns (task: AgentTask)
      requires Valid()
      modifies this
      ensures Valid() && fresh(task) && task.id == id
      ensures tasks == old(tasks) + [task]
      ensures Snapshot() == old(Snapshot()) + [NewTaskView(id, title, description, now)]
    {
      task := new AgentTask(id, title, description, now);
      tasks := tasks + [task];
      assert forall k :: 0 <= k < |tasks| - 1 ==> tasks[k] == old(tasks)[k];
    }

    /** `_tasks.FirstOrDefault(t => t.Id == taskId)`. */
    method FindTask(taskId: Guid) returns (task: AgentTask?)
      ensures FindFirst(Snapshot(), taskId).None? ==> task == null
      ensures FindFirst(Snapshot(), taskId).Some? ==> task == tasks[FindFirst(Snapshot(), taskId).value]
    {
      var i := 0;
      while i < |tasks|
        invariant 0 <= i <= |tasks|
        invariant forall k :: 0 <= k < i ==> tasks[k].id != taskId
      {
        if tasks[i].id == taskId {
          FindFromIs(Snapshot(), taskId, 0, i);
          return tasks[i];
        }
        i := i + 1;
      }
      return null;
    }

    /** `AssignTaskAsync`: set the agent of the first task with the id; an unknown id is a no-op. */
    method AssignTask(taskId: Guid, agentId: Guid)
      requires Valid()
      modifies tasks
      ensures Valid() && tasks == old(tasks)
      ensures Snapshot() == WithAssignee(old(Snapshot()), taskId, agentId)
    {
      ghost var before := Snapshot();
      var task := FindTask(taskId);
      if task != null {
        ghost var i := FindFirst(before, taskId).value;
        task.assignedAgentId := agentId;
        assert forall k :: 0 <= k < |tasks| && k != i ==> tasks[k].View() == before[k];
        assert Snapshot() == before[i := before[i].(assignedAgentId := agentId)];
      }
    }

    /** `UpdateTaskStatusAsync`: set the status of the first task with the id; an unknown id is a no-op. */
    method UpdateTaskStatus(taskId: Guid, status: TaskStatus)
      requires Valid()
      modifies tasks
      ensures Valid() && tasks == old(tasks)
      ensures Snapshot() == WithStatus(old(Snapshot()), taskId, status)
    {
      ghost var before := Snapshot();
      var task := FindTask(taskId);
      if task != null {
        ghost var i := FindFirst(before, taskId).value;
        task.status := status;
        assert forall k :: 0 <= k < |tasks| && k != i ==> tasks[k].View() == before[k];
        assert Snapshot() == before[i := before[i].(status := status)];
      }
    }

    /** `GetTasksAsync`: a copy of the list, every task in creation order. */
    method GetTasks() returns (r: seq<AgentTask>)
      ensures r == tasks
      ensures ViewsOf(r) == Snapshot()
    {
      r := tasks;
    }
  }
}
