// The orchestrator: no state of its own, a fixed sequence of calls on the task store.

module Orchestration {
  import opened Wrappers
  import opened Entities
  import opened AgentManagement

  const AnalyzeTitle := "Analyze Request"

  /** The tasks after `ProcessUserRequestAsync`: create, then assign, then set InProgress. */
  function AfterRequest(ts: seq<TaskView>, request: string, taskId: Guid, agentId: Guid, now: int): (r: seq<TaskView>)
    ensures |r| == |ts| + 1
  {
    var created := ts + [NewTaskView(taskId, AnalyzeTitle, request, now)];
    WithStatus(WithAssignee(created, taskId, agentId), taskId, InProgress)
  }

  /**
   * With a task id not used before, the request adds exactly one task at the
   * end, titled "Analyze Request", describing the request, assigned to the
   * new agent id and InProgress; every earlier task is unchanged.
   */
  lemma RequestWithFreshId(ts: seq<TaskView>, request: string, taskId: Guid, agentId: Guid, now: int)
    requires !HasId(ts, taskId)
    ensures var r := AfterRequest(ts, request, taskId, agentId, now);
            && r[..|ts|] == ts
            && r[|ts|] == NewTaskView(taskId, AnalyzeTitle, request, now).(assignedAgentId := agentId, status := InProgress)
  {
    var v := NewTaskView(taskId, AnalyzeTitle, request, now);
    var created := ts + [v];
    FindAppended(ts, v);
    var withAgent := WithAssignee(created, taskId, agentId);
    assert withAgent == created[|ts| := v.(assignedAgentId := agentId)];
    FindFirstSameIds(created, withAgent, taskId, 0);
    var r := WithStatus(withAgent, taskId, InProgress);
    assert r == withAgent[|ts| := withAgent[|ts|].(status := InProgress)];
    assert r[..|ts|] == ts;
  }

  /**
   * If the new task's id is already taken, the lookup by id finds the older
   * task: that one is assigned and set InProgress, and the new task stays
   * Pending and unassigned.
   */
  lemma RequestWithTakenId(ts: seq<TaskView>, request: string, taskId: Guid, agentId: Guid, now: int)
    requires HasId(ts, taskId)
    ensures var r := AfterRequest(ts, request, taskId, agentId, now);
            var i := FindFirst(ts, taskId).value;
            && r[|ts|] == NewTaskView(taskId, AnalyzeTitle, request, now)
            && r[i] == ts[i].(assignedAgentId := agentId, status := InProgress)
  {
    var v := NewTaskView(taskId, AnalyzeTitle, request, now);
    var created := ts + [v];
    FindBeforeAppended(ts, v, taskId);
    FindFirstIff(ts, taskId);
    var withAgent := WithAssignee(created, taskId, agentId);
    FindFirstSameIds(created, withAgent, taskId, 0);
  }

  /** `OrchestratorService` over the task store it was given. */
  class OrchestratorService {
    const agentService: AgentManager

    constructor(agentService: AgentManager)
      ensures this.agentService == agentService
    {
      this.agentService := agentService;
    }

    /** `StartSessionAsync`: only logs; no task changes. */
    method StartSession(sessionId: Guid)
      ensures agentService.Snapshot() == old(agentService.Snapshot())
    {
    }

    /**
     * `ProcessUserRequestAsync`: create the "Analyze Request" task, assign it
     * to a fresh agent id, then set it InProgress. `taskId` and `agentId` are
     * the values the two `Guid.NewGuid()` calls gave; `now` is the clock.
     */
    method ProcessUserRequest(userRequest: string, taskId: Guid, agentId: Guid, now: int)
      requires agentService.Valid()
      modifies agentService, agentService.tasks
      ensures agentService.Valid()
      ensures agentService.Snapshot() == AfterRequest(old(agentService.Snapshot()), userRequest, taskId, agentId, now)
    {
      var task := agentService.CreateTask(AnalyzeTitle, userRequest, taskId, now);
      agentService.AssignTask(task.id, agentId);
      agentService.UpdateTaskStatus(task.id, InProgress);
    }
  }
}
