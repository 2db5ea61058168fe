// The records the dashboard hands to the UI (only those the modelled operations build).

module DashboardModels {
  import opened Entities

  datatype TaskCard = TaskCard(
    id: Guid,
    title: string,
    description: string,
    status: TaskStatus,
    tags: seq<string>,
    owner: string,
    progress: int,
    timeLabel: string,
    statusLabel: string,
    statusClass: string)

  datatype KanbanColumn = KanbanColumn(key: string, title: string, tasks: seq<TaskCard>)

  /** `IdeaCard`; the record's `Type` property is `kind` here. */
  datatype IdeaCard = IdeaCard(
    id: Guid,
    title: string,
    kind: string,
    status: string,
    impact: string,
    summary: string,
    description: string,
    owner: string,
    statusClass: string)

  datatype IssueItem = IssueItem(
    number: int,
    title: string,
    summary: string,
    status: string,
    statusClass: string,
    description: string,
    labels: seq<string>,
    assignee: string,
    priority: string,
    linkedTask: string)

  datatype RoadmapItem = RoadmapItem(title: string, impact: string)

  datatype RoadmapGroup = RoadmapGroup(title: string, badgeClass: string, items: seq<RoadmapItem>)
}
