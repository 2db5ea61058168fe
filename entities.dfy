// The task entity shared by the task store, the orchestrator and the dashboard.

module Entities {
  import opened Wrappers

  /** A GUID, as a number; the all-zero GUID (`default(Guid)`) is 0. */
  type Guid = nat

  const EmptyGuid: Guid := 0

  /** `TaskStatus`: exactly these four values. */
  datatype TaskStatus = Pending | InProgress | Review | Done

  /** The value of a task's properties at one moment; times are ticks. */
  datatype TaskView = TaskView(
    id: Guid,
    title: string,
    description: string,
    status: TaskStatus,
    assignedAgentId: Guid,
    createdAt: int,
    updatedAt: Option<int>,
    output: string)

  /** What `new AgentTask { Title = ..., Description = ... }` holds. */
  function NewTaskView(id: Guid, title: string, description: string, now: int): (v: TaskView)
    ensures v.status == Pending && v.assignedAgentId == EmptyGuid
    ensures v.id == id && v.title == title && v.description == description
    ensures v.createdAt == now && v.updatedAt.None? && v.output == []
  {
    TaskView(id, title, description, Pending, EmptyGuid, now, None, [])
  }

  /** `AgentTask`: a mutable object whose properties the task store sets in place. */
  class AgentTask {
    var id: Guid
    var title: string
    var description: string
    var status: TaskStatus
    var assignedAgentId: Guid
    var createdAt: int
    var updatedAt: Option<int>
    var output: string

    /** The object initialiser: the id and creation time are the values `Guid.NewGuid()` and `DateTime.UtcNow` gave. */
    constructor(id: Guid, title: string, description: string, now: int)
      ensures View() == NewTaskView(id, title, description, now)
    {
      this.id := id;
      this.title := title;
      this.description := description;
      this.status := Pending;
      this.assignedAgentId := EmptyGuid;
      this.createdAt := now;
      this.updatedAt := None;
      this.output := [];
    }

    function View(): TaskView
      reads this
    {
      TaskView(id, title, description, status, assignedAgentId, createdAt, updatedAt, output)
    }
  }
}
