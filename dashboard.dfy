// `WorkspaceDashboardService`: the lists it keeps (ideas, issues, roadmap
// groups), seeded once, and the operations that change them. The language
// model's readiness and its reply are parameters.

module Dashboard {
  import opened Text
  import opened Entities
  import opened DashboardModels
  import opened DashboardViews
  import AgentManagement

  /** What `ILLMStatusProvider` reports. */
  datatype LlmStatus = LlmStatus(isAvailable: bool, isInitialized: bool)

  predicate Ready(llm: LlmStatus) {
    llm.isAvailable && llm.isInitialized
  }

  /** The lists `SeedAsync` adds; their literal contents are not part of this model. */
  datatype SeedData = SeedData(ideas: seq<IdeaCard>, issues: seq<IssueItem>, roadmapGroups: seq<RoadmapGroup>)

  /** The dashboard's own state. */
  datatype DashState = DashState(
    seeded: bool,
    ideas: seq<IdeaCard>,
    issues: seq<IssueItem>,
    roadmapGroups: seq<RoadmapGroup>)

  /** `EnsureSeededAsync` / `SeedAsync`: the flag is tested, then set before any seed data goes in. */
  function AfterSeed(s: DashState, seed: SeedData): (r: DashState)
    ensures r.seeded
  {
    if s.seeded then s
    else DashState(true, s.ideas + seed.ideas, s.issues + seed.issues, s.roadmapGroups + seed.roadmapGroups)
  }

  /** Seeding happens at most once: a second seeding, with whatever data, changes nothing. */
  lemma SeedAtMostOnce(s: DashState, seed: SeedData, other: SeedData)
    ensures AfterSeed(AfterSeed(s, seed), other) == AfterSeed(s, seed)
  {
  }

  /** Seeding an unseeded state adds exactly the seed lists, after what was there. */
  lemma SeedAddsSeedLists(s: DashState, seed: SeedData)
    requires !s.seeded
    ensures var r := AfterSeed(s, seed);
            && r.ideas[..|s.ideas|] == s.ideas && r.ideas[|s.ideas|..] == seed.ideas
            && r.issues[..|s.issues|] == s.issues && r.issues[|s.issues|..] == seed.issues
            && r.roadmapGroups[..|s.roadmapGroups|] == s.roadmapGroups
            && r.roadmapGroups[|s.roadmapGroups|..] == seed.roadmapGroups
  {
    var r := AfterSeed(s, seed);
    assert r.ideas == s.ideas + seed.ideas;
    assert r.issues == s.issues + seed.issues;
    assert r.roadmapGroups == s.roadmapGroups + seed.roadmapGroups;
  }

  // ---------------------------------------------------------------- seed tasks

  /** The ids the four `Guid.NewGuid()` calls in `CreateTaskAsync` gave while seeding. */
  datatype SeedIds = SeedIds(one: Guid, two: Guid, three: Guid, four: Guid)

  predicate FreshSeedIds(ts: seq<TaskView>, ids: SeedIds) {
    && !AgentManagement.HasId(ts, ids.one) && !AgentManagement.HasId(ts, ids.two)
    && !AgentManagement.HasId(ts, ids.three) && !AgentManagement.HasId(ts, ids.four)
    && ids.one != ids.two && ids.one != ids.three && ids.one != ids.four
    && ids.two != ids.three && ids.two != ids.four && ids.three != ids.four
  }

  /** Create a task, then set the status of the task found by its id. */
  function CreateWithStatus(ts: seq<TaskView>, id: Guid, title: string, description: string,
                            status: TaskStatus, now: int): seq<TaskView> {
    AgentManagement.WithStatus(ts + [NewTaskView(id, title, description, now)], id, status)
  }

  const TitleOne := "Add Electron debugging server"
  const DescriptionOne := "Expand validation layers and expose dev tooling hooks."
  const TitleTwo := "Roadmap generation flow"
  const DescriptionTwo := "Streaming roadmap tasks into review queue."
  const TitleThree := "Go-to-task shortcut"
  const DescriptionThree := "After converting an idea to a task, show a Go to Task button."
  const TitleFour := "Implement virtualization"
  const DescriptionFour := "FileTree component renders all files in expanded directories."

  /** The store after the four seed tasks: Pending, InProgress, Review, Done, in that order. */
  function AfterSeedTasks(ts: seq<TaskView>, ids: SeedIds, now: int): seq<TaskView> {
    var t1 := CreateWithStatus(ts, ids.one, TitleOne, DescriptionOne, Pending, now);
    var t2 := CreateWithStatus(t1, ids.two, TitleTwo, DescriptionTwo, InProgress, now);
    var t3 := CreateWithStatus(t2, ids.three, TitleThree, DescriptionThree, Review, now);
    CreateWithStatus(t3, ids.four, TitleFour, DescriptionFour, Done, now)
  }

  /** The store after `EnsureSeededAsync`: the seed tasks go in only on the first seeding. */
  function SeedStore(seeded: bool, ts: seq<TaskView>, ids: SeedIds, now: int): seq<TaskView> {
    if seeded then ts else AfterSeedTasks(ts, ids, now)
  }

  /** With an id not used before, the created task is appended with the given status. */
  lemma CreateWithStatusFresh(ts: seq<TaskView>, id: Guid, title: string, description: string,
                              status: TaskStatus, now: int)
    requires !AgentManagement.HasId(ts, id)
    ensures CreateWithStatus(ts, id, title, description, status, now)
            == ts + [NewTaskView(id, title, description, now).(status := status)]
  {
    AgentManagement.FindAppended(ts, NewTaskView(id, title, description, now));
  }

  /** Appending a task with another id does not make an id appear. */
  lemma StillFresh(ts: seq<TaskView>, v: TaskView, id: Guid)
    requires !AgentManagement.HasId(ts, id) && v.id != id
    ensures !AgentManagement.HasId(ts + [v], id)
  {
    assert forall k :: 0 <= k < |ts| ==> (ts + [v])[k] == ts[k];
  }

  /**
   * With ids not used before, seeding appends exactly four unassigned tasks,
   * one per status in board order, and leaves the earlier tasks unchanged.
   */
  lemma SeedTasksFresh(ts: seq<TaskView>, ids: SeedIds, now: int)
    requires FreshSeedIds(ts, ids)
    ensures AfterSeedTasks(ts, ids, now) == ts + [
              NewTaskView(ids.one, TitleOne, DescriptionOne, now),
              NewTaskView(ids.two, TitleTwo, DescriptionTwo, now).(status := InProgress),
              NewTaskView(ids.three, TitleThree, DescriptionThree, now).(status := Review),
              NewTaskView(ids.four, TitleFour, DescriptionFour, now).(status := Done)]
  {
    var v1 := NewTaskView(ids.one, TitleOne, DescriptionOne, now).(status := Pending);
    var v2 := NewTaskView(ids.two, TitleTwo, DescriptionTwo, now).(status := InProgress);
    var v3 := NewTaskView(ids.three, TitleThree, DescriptionThree, now).(status := Review);
    var v4 := NewTaskView(ids.four, TitleFour, DescriptionFour, now).(status := Done);
    CreateWithStatusFresh(ts, ids.one, TitleOne, DescriptionOne, Pending, now);
    StillFresh(ts, v1, ids.two);
    StillFresh(ts, v1, ids.three);
    StillFresh(ts, v1, ids.four);
    CreateWithStatusFresh(ts + [v1], ids.two, TitleTwo, DescriptionTwo, InProgress, now);
    StillFresh(ts + [v1], v2, ids.three);
    StillFresh(ts + [v1], v2, ids.four);
    CreateWithStatusFresh(ts + [v1] + [v2], ids.three, TitleThree, DescriptionThree, Review, now);
    StillFresh(ts + [v1] + [v2], v3, ids.four);
    CreateWithStatusFresh(ts + [v1] + [v2] + [v3], ids.four, TitleFour, DescriptionFour, Done, now);
    assert ts + [v1] + [v2] + [v3] + [v4] == ts + [v1, v2, v3, v4];
  }

  /** Seeding an empty store with fresh ids puts one card in every column but "AI Review". */
  lemma SeededBoardFromEmpty(ids: SeedIds, now: int)
    requires FreshSeedIds([], ids)
    ensures var b := Kanban(Cards(AfterSeedTasks([], ids, now)));
            && |b[0].tasks| == 1 && b[0].tasks[0].title == TitleOne
            && |b[1].tasks| == 1 && b[1].tasks[0].title == TitleTwo
            && b[2].tasks == []
            && |b[3].tasks| == 1 && b[3].tasks[0].title == TitleThree
            && |b[4].tasks| == 1 && b[4].tasks[0].title == TitleFour
  {
    SeedTasksFresh([], ids, now);
    var ts := AfterSeedTasks([], ids, now);
    var c := Cards(ts);
    assert c == [c[0]] + [c[1]] + [c[2]] + [c[3]];
    WithStatusAppend([c[0]] + [c[1]] + [c[2]], [c[3]], Pending);
    WithStatusAppend([c[0]] + [c[1]], [c[2]], Pending);
    WithStatusAppend([c[0]], [c[1]], Pending);
    WithStatusAppend([c[0]] + [c[1]] + [c[2]], [c[3]], InProgress);
    WithStatusAppend([c[0]] + [c[1]], [c[2]], InProgress);
    WithStatusAppend([c[0]], [c[1]], InProgress);
    WithStatusAppend([c[0]] + [c[1]] + [c[2]], [c[3]], Review);
    WithStatusAppend([c[0]] + [c[1]], [c[2]], Review);
    WithStatusAppend([c[0]], [c[1]], Review);
    WithStatusAppend([c[0]] + [c[1]] + [c[2]], [c[3]], Done);
    WithStatusAppend([c[0]] + [c[1]], [c[2]], Done);
    WithStatusAppend([c[0]], [c[1]], Done);
  }

  // ---------------------------------------------------------------- issues

  /** The issue `SyncIssuesAsync` inserts. */
  const SyncedIssue := IssueItem(
    251, "Local LLM usage banner", "Surface local model status in settings and headers.",
    "Open", "warning", "Add a banner indicating local LLM status and connectivity.",
    ["ui", "llm"], "Claude", "High", "Task #492")

  function AfterSyncIssues(s: DashState, seed: SeedData): DashState {
    var t := AfterSeed(s, seed);
    t.(issues := [SyncedIssue] + t.issues)
  }

  /** Each sync, once seeded, grows the issues by exactly one, at the front; nothing else changes. */
  lemma SyncIssuesGrowsByOne(s: DashState, seed: SeedData)
    requires s.seeded
    ensures var r := AfterSyncIssues(s, seed);
            && |r.issues| == |s.issues| + 1
            && r.issues[0] == SyncedIssue && r.issues[1..] == s.issues
            && r.ideas == s.ideas && r.roadmapGroups == s.roadmapGroups && r.seeded
  {
    assert ([SyncedIssue] + s.issues)[1..] == s.issues;
  }

  // ---------------------------------------------------------------- ideas

  /** The one idea offered when the model is not ready; its id is the one drawn first. */
  function FallbackIdea(id: Guid): IdeaCard {
    IdeaCard(id, FallbackTitle, "Feature", "Draft", "Medium", FallbackSummary, FallbackDescription, "UI", [])
  }

  const FallbackTitle := "Local LLM status banner"
  const FallbackSummary := "Display local model readiness across the UI."
  const FallbackDescription := "Add a banner and settings card indicating local model health."

  const IdeasPromptTail := " product ideas for a local-first AI coding tool. Return each as: Title | Type | Impact | Summary."

  function IdeasPrompt(count: int): string {
    "Generate " + IntToString(count) + IdeasPromptTail
  }

  /** `TryGenerateIdeasAsync`: the fallback idea, or the ideas parsed from the reply to the prompt. */
  function GeneratedIdeas(count: int, llm: LlmStatus, generate: string -> string, ids: nat -> Guid): seq<IdeaCard> {
    if !Ready(llm) then [FallbackIdea(ids(0))]
    else ParseIdeas(generate(IdeasPrompt(count)), count, ids)
  }

  /** The sequence in the opposite order. */
  function Reverse<T>(xs: seq<T>): (r: seq<T>)
    ensures |r| == |xs|
    ensures forall k :: 0 <= k < |xs| ==> r[k] == xs[|xs| - 1 - k]
  {
    if xs == [] then [] else [xs[|xs| - 1]] + Reverse(xs[..|xs| - 1])
  }

  lemma ReverseAppendOne<T>(xs: seq<T>, x: T)
    ensures Reverse(xs + [x]) == [x] + Reverse(xs)
  {
    assert (xs + [x])[..|xs|] == xs;
  }

  /** One front insertion extends the reversed prefix by one element. */
  lemma ReverseStep<T>(xs: seq<T>, i: nat, rest: seq<T>)
    requires i < |xs|
    ensures [xs[i]] + (Reverse(xs[..i]) + rest) == Reverse(xs[..i + 1]) + rest
  {
    assert xs[..i + 1] == xs[..i] + [xs[i]];
    ReverseAppendOne(xs[..i], xs[i]);
  }

  function AfterGenerateIdeas(s: DashState, seed: SeedData, generated: seq<IdeaCard>): DashState {
    var t := AfterSeed(s, seed);
    t.(ideas := Reverse(generated) + t.ideas)
  }

  /**
   * Each generated idea is inserted at the front in turn, so the ideas start
   * with the generated ones, last first, followed by the ideas already there.
   */
  lemma GenerateIdeasOrder(s: DashState, seed: SeedData, generated: seq<IdeaCard>)
    requires s.seeded
    ensures var r := AfterGenerateIdeas(s, seed, generated);
            && |r.ideas| == |generated| + |s.ideas|
            && (forall k :: 0 <= k < |generated| ==> r.ideas[k] == generated[|generated| - 1 - k])
            && r.ideas[|generated|..] == s.ideas
            && r.issues == s.issues && r.roadmapGroups == s.roadmapGroups
  {
    var r := AfterGenerateIdeas(s, seed, generated);
    assert r.ideas == Reverse(generated) + s.ideas;
  }

  /** When the model is not ready, exactly the fallback idea is added, at the front. */
  lemma GenerateIdeasNotReady(s: DashState, seed: SeedData, count: int, llm: LlmStatus,
                              generate: string -> string, ids: nat -> Guid)
    requires s.seeded && !Ready(llm)
    ensures AfterGenerateIdeas(s, seed, GeneratedIdeas(count, llm, generate, ids)).ideas
            == [FallbackIdea(ids(0))] + s.ideas
  {
  }

  /** When the model is ready, at most `count` ideas are added, parsed from its reply. */
  lemma GenerateIdeasReady(s: DashState, seed: SeedData, count: int, llm: LlmStatus,
                           generate: string -> string, ids: nat -> Guid)
    requires s.seeded && Ready(llm)
    ensures var r := AfterGenerateIdeas(s, seed, GeneratedIdeas(count, llm, generate, ids));
            && |r.ideas| - |s.ideas| <= (if count <= 0 then 0 else count)
            && (forall k :: 0 <= k < |r.ideas| - |s.ideas| ==> r.ideas[k].status == "Draft")
  {
    ParseIdeasSpec(generate(IdeasPrompt(count)), count, ids);
    var g := GeneratedIdeas(count, llm, generate, ids);
    GenerateIdeasOrder(s, seed, g);
  }

  // ---------------------------------------------------------------- roadmap

  const RoadmapPrompt := "Generate three roadmap items for a local-first AI coding app. Return each as: Title | Impact."

  function RoadmapItems(pairs: seq<(string, string)>): (r: seq<RoadmapItem>)
    ensures |r| == |pairs|
    ensures forall k :: 0 <= k < |r| ==> r[k] == RoadmapItem(pairs[k].0, pairs[k].1)
  {
    if pairs == [] then [] else [RoadmapItem(pairs[0].0, pairs[0].1)] + RoadmapItems(pairs[1..])
  }

  /** The four priority groups `GenerateRoadmapAsync` puts in place of the old ones. */
  function RoadmapGroupsFor(items: seq<RoadmapItem>): seq<RoadmapGroup> {
    [ RoadmapGroup("Must Have", "warning", items),
      RoadmapGroup("Should Have", "green", []),
      RoadmapGroup("Could Have", "purple", []),
      RoadmapGroup("Won't Have", "muted", [RoadmapItem("No items yet", [])]) ]
  }

  function AfterGenerateRoadmap(s: DashState, seed: SeedData, llm: LlmStatus, generate: string -> string): DashState {
    var t := AfterSeed(s, seed);
    if !Ready(llm) then t
    else
      var items := RoadmapItems(ParseDelimitedItems(generate(RoadmapPrompt), 3));
      if items == [] then t else t.(roadmapGroups := RoadmapGroupsFor(items))
  }

  /**
   * Once seeded, the roadmap is unchanged when the model is not ready or no
   * item parses; otherwise it becomes exactly four groups, the first,
   * "Must Have", holding the (at most three) parsed items.
   */
  lemma GenerateRoadmapEffect(s: DashState, seed: SeedData, llm: LlmStatus, generate: string -> string)
    requires s.seeded
    ensures var r := AfterGenerateRoadmap(s, seed, llm, generate);
            var pairs := ParseDelimitedItems(generate(RoadmapPrompt), 3);
            && r.ideas == s.ideas && r.issues == s.issues
            && (!Ready(llm) || pairs == [] ==> r == s)
            && (Ready(llm) && pairs != [] ==>
                  && |r.roadmapGroups| == 4
                  && r.roadmapGroups[0].title == "Must Have"
                  && |r.roadmapGroups[0].items| == |pairs| <= 3
                  && forall k :: 0 <= k < |pairs| ==>
                       r.roadmapGroups[0].items[k] == RoadmapItem(pairs[k].0, pairs[k].1))
  {
    ParseDelimitedItemsSpec(generate(RoadmapPrompt), 3);
  }

  // ---------------------------------------------------------------- the service

  class WorkspaceDashboardService {
    const agentService: AgentManagement.AgentManager
    const seed: SeedData
    var seeded: bool
    var ideas: seq<IdeaCard>
    var issues: seq<IssueItem>
    var roadmapGroups: seq<RoadmapGroup>

    function State(): DashState
      reads this
    {
      DashState(seeded, ideas, issues, roadmapGroups)
    }

    constructor(agentService: AgentManagement.AgentManager, seed: SeedData)
      ensures this.agentService == agentService && this.seed == seed
      ensures State() == DashState(false, [], [], [])
    {
      this.agentService := agentService;
      this.seed := seed;
      seeded := false;
      ideas := [];
      issues := [];
      roadmapGroups := [];
    }

    /**
     * `SeedAsync`: on the first call only, set the flag, create the four seed
     * tasks in the store and append the seed lists. `ids` are the ids the
     * store's `Guid.NewGuid()` calls give, `now` its clock.
     */
    method Seed(ids: SeedIds, now: int)
      requires agentService.Valid()
      modifies this, agentService, agentService.tasks
      ensures agentService.Valid()
      ensures State() == AfterSeed(old(State()), seed)
      ensures agentService.Snapshot() == SeedStore(old(seeded), old(agentService.Snapshot()), ids, now)
    {
      if seeded {
        return;
      }
      seeded := true;
      SeedTasks(ids, now);
      ideas := ideas + seed.ideas;
      issues := issues + seed.issues;
      roadmapGroups := roadmapGroups + seed.roadmapGroups;
    }

    /** One seed step: create a task in the store, then set its status. */
    method SeedTask(id: Guid, title: string, description: string, status: TaskStatus, now: int)
      returns (task: AgentTask)
      requires agentService.Valid()
      modifies agentService, agentService.tasks
      ensures agentService.Valid()
      ensures fresh(task) && agentService.tasks == old(agentService.tasks) + [task]
      ensures agentService.Snapshot() == CreateWithStatus(old(agentService.Snapshot()), id, title, description, status, now)
    {
      task := agentService.CreateTask(title, description, id, now);
      agentService.UpdateTaskStatus(task.id, status);
    }

    /** The four seed tasks of `SeedAsync`, created and given their statuses in order. */
    method SeedTasks(ids: SeedIds, now: int)
      requires agentService.Valid()
      modifies agentService, agentService.tasks
      ensures agentService.Valid()
      ensures agentService.Snapshot() == AfterSeedTasks(old(agentService.Snapshot()), ids, now)
    {
      var one := SeedTask(ids.one, TitleOne, DescriptionOne, Pending, now);
      var two := SeedTask(ids.two, TitleTwo, DescriptionTwo, InProgress, now);
      var three := SeedTask(ids.three, TitleThree, DescriptionThree, Review, now);
      var four := SeedTask(ids.four, TitleFour, DescriptionFour, Done, now);
    }

    method EnsureSeeded(ids: SeedIds, now: int)
      requires agentService.Valid()
      modifies this, agentService, agentService.tasks
      ensures agentService.Valid()
      ensures State() == AfterSeed(old(State()), seed)
      ensures agentService.Snapshot() == SeedStore(old(seeded), old(agentService.Snapshot()), ids, now)
    {
      if seeded {
        return;
      }
      Seed(ids, now);
    }

    /** `GetKanbanAsync`: the board of the cards of every task in the store, after seeding. */
    method GetKanban(ids: SeedIds, now: int) returns (columns: seq<KanbanColumn>)
      requires agentService.Valid()
      modifies this, agentService, agentService.tasks
      ensures agentService.Valid()
      ensures State() == AfterSeed(old(State()), seed)
      ensures agentService.Snapshot() == SeedStore(old(seeded), old(agentService.Snapshot()), ids, now)
      ensures columns == Kanban(Cards(agentService.Snapshot()))
    {
      EnsureSeeded(ids, now);
      var tasks := agentService.GetTasks();
      columns := Kanban(Cards(AgentManagement.ViewsOf(tasks)));
    }

    /** `CreateTaskAsync`: passed to the store, without seeding. */
    method CreateTask(title: string, description: string, id: Guid, now: int) returns (taskId: Guid)
      requires agentService.Valid()
      modifies agentService
      ensures agentService.Valid() && taskId == id
      ensures agentService.Snapshot() == old(agentService.Snapshot()) + [NewTaskView(id, title, description, now)]
    {
      var task := agentService.CreateTask(title, description, id, now);
      taskId := task.id;
    }

    /** `UpdateTaskStatusAsync`: passed to the store, without seeding. */
    method UpdateTaskStatus(taskId: Guid, status: TaskStatus)
      requires agentService.Valid()
      modifies agentService.tasks
      ensures agentService.Valid()
      ensures agentService.Snapshot() == AgentManagement.WithStatus(old(agentService.Snapshot()), taskId, status)
    {
      agentService.UpdateTaskStatus(taskId, status);
    }

    method GetIdeas(ids: SeedIds, now: int) returns (r: seq<IdeaCard>)
      requires agentService.Valid()
      modifies this, agentService, agentService.tasks
      ensures agentService.Valid()
      ensures State() == AfterSeed(old(State()), seed)
      ensures agentService.Snapshot() == SeedStore(old(seeded), old(agentService.Snapshot()), ids, now)
      ensures r == ideas
    {
      EnsureSeeded(ids, now);
      r := ideas;
    }

    /** `GenerateIdeasAsync`: insert each generated idea at the front, in turn. */
    method GenerateIdeas(ids: SeedIds, now: int, count: int, llm: LlmStatus,
                         generate: string -> string, ideaIds: nat -> Guid)
      returns (r: seq<IdeaCard>)
      requires agentService.Valid()
      modifies this, agentService, agentService.tasks
      ensures agentService.Valid()
      ensures State() == AfterGenerateIdeas(old(State()), seed, GeneratedIdeas(count, llm, generate, ideaIds))
      ensures agentService.Snapshot() == SeedStore(old(seeded), old(agentService.Snapshot()), ids, now)
      ensures r == ideas
    {
      EnsureSeeded(ids, now);
      ghost var seededState := State();
      var generated := TryGenerateIdeas(count, llm, generate, ideaIds);
      InsertEachAtFront(generated);
      assert State() == seededState.(ideas := Reverse(generated) + seededState.ideas);
      r := ideas;
    }

    /** `TryGenerateIdeasAsync`: the fallback idea, or the ideas parsed from the model's reply. */
    method TryGenerateIdeas(count: int, llm: LlmStatus, generate: string -> string, ideaIds: nat -> Guid)
      returns (generated: seq<IdeaCard>)
      ensures generated == GeneratedIdeas(count, llm, generate, ideaIds)
    {
      if !llm.isAvailable || !llm.isInitialized {
        return [FallbackIdea(ideaIds(0))];
      }
      var prompt := IdeasPrompt(count);
      var response := generate(prompt);
      var parsed := ParseIdeas(response, count, ideaIds);
      if |parsed| == 0 {
        return [];
      }
      generated := parsed;
    }

    /** The `foreach` of `GenerateIdeasAsync`: `_ideas.Insert(0, idea)` for each idea in turn. */
    method InsertEachAtFront(generated: seq<IdeaCard>)
      modifies this
      ensures ideas == Reverse(generated) + old(ideas)
      ensures seeded == old(seeded) && issues == old(issues) && roadmapGroups == old(roadmapGroups)
    {
      var i := 0;
      while i < |generated|
        invariant 0 <= i <= |generated|
        invariant ideas == Reverse(generated[..i]) + old(ideas)
        invariant seeded == old(seeded) && issues == old(issues) && roadmapGroups == old(roadmapGroups)
      {
        ReverseStep(generated, i, old(ideas));
        ideas := [generated[i]] + ideas;
        i := i + 1;
      }
      assert generated[..i] == generated;
    }

    method GetIssues(ids: SeedIds, now: int) returns (r: seq<IssueItem>)
      requires agentService.Valid()
      modifies this, agentService, agentService.tasks
      ensures agentService.Valid()
      ensures State() == AfterSeed(old(State()), seed)
      ensures agentService.Snapshot() == SeedStore(old(seeded), old(agentService.Snapshot()), ids, now)
      ensures r == issues
    {
      EnsureSeeded(ids, now);
      r := issues;
    }

    /** `SyncIssuesAsync`: insert the fixed issue at the front. */
    method SyncIssues(ids: SeedIds, now: int) returns (r: seq<IssueItem>)
      requires agentService.Valid()
      modifies this, agentService, agentService.tasks
      ensures agentService.Valid()
      ensures State() == AfterSyncIssues(old(State()), seed)
      ensures agentService.Snapshot() == SeedStore(old(seeded), old(agentService.Snapshot()), ids, now)
      ensures r == issues
    {
      EnsureSeeded(ids, now);
      issues := [SyncedIssue] + issues;
      r := issues;
    }

    method GetRoadmapByPriority(ids: SeedIds, now: int) returns (r: seq<RoadmapGroup>)
      requires agentService.Valid()
      modifies this, agentService, agentService.tasks
      ensures agentService.Valid()
      ensures State() == AfterSeed(old(State()), seed)
      ensures agentService.Snapshot() == SeedStore(old(seeded), old(agentService.Snapshot()), ids, now)
      ensures r == roadmapGroups
    {
      EnsureSeeded(ids, now);
      r := roadmapGroups;
    }

    /** `GenerateRoadmapAsync`: replace the groups by the four priority groups, if any item parses. */
    method GenerateRoadmap(ids: SeedIds, now: int, llm: LlmStatus, generate: string -> string)
      requires agentService.Valid()
      modifies this, agentService, agentService.tasks
      ensures agentService.Valid()
      ensures State() == AfterGenerateRoadmap(old(State()), seed, llm, generate)
      ensures agentService.Snapshot() == SeedStore(old(seeded), old(agentService.Snapshot()), ids, now)
    {
      EnsureSeeded(ids, now);
      if !llm.isAvailable || !llm.isInitialized {
        return;
      }
      var response := generate(RoadmapPrompt);
      var items := RoadmapItems(ParseDelimitedItems(response, 3));
      if |items| == 0 {
        return;
      }
      roadmapGroups := RoadmapGroupsFor(items);
    }
  }
}
