// The dashboard's pure parts: task cards, the kanban board, and the
// `Title | ...` line parsers for replies of the language model.

module DashboardViews {
  import opened Text
  import opened Entities
  import opened DashboardModels

  // ---------------------------------------------------------------- task cards

  function StatusLabel(s: TaskStatus): string {
    match s
    case Pending => "Pending"
    case InProgress => "Running"
    case Review => "Needs Review"
    case Done => "Complete"
  }

  function StatusClass(s: TaskStatus): string {
    match s
    case Pending => "muted"
    case InProgress => "green"
    case Review => "purple"
    case Done => "green"
  }

  /** `BuildTaskCard`: the card shown for one task. */
  function BuildTaskCard(t: TaskView): TaskCard {
    TaskCard(
      t.id, t.title, t.description, t.status,
      ["C#", "Local LLM"], "Claude",
      if t.status == InProgress then 45 else 100,
      if t.status == InProgress then "Streaming logs" else "1h ago",
      StatusLabel(t.status), StatusClass(t.status))
  }

  /**
   * A card copies the task's id, title, description and status; its
   * progress is 45 exactly for a running task and 100 otherwise.
   */
  lemma TaskCardFields(t: TaskView)
    ensures var c := BuildTaskCard(t);
            && c.id == t.id && c.title == t.title && c.description == t.description && c.status == t.status
            && (c.progress == 45 <==> t.status == InProgress)
            && (c.progress == 100 <==> t.status != InProgress)
            && (c.timeLabel == "Streaming logs" <==> t.status == InProgress)
  {
  }

  /** The status label tells the four statuses apart. */
  lemma StatusLabelInjective(a: TaskStatus, b: TaskStatus)
    ensures StatusLabel(a) == StatusLabel(b) <==> a == b
  {
    if a != b {
      assert StatusLabel(a)[0] != StatusLabel(b)[0] || |StatusLabel(a)| != |StatusLabel(b)|;
    }
  }

  /** The status class alone does not: running and complete tasks share "green". */
  lemma StatusClassShared()
    ensures StatusClass(InProgress) == StatusClass(Done)
    ensures forall s: TaskStatus :: StatusClass(s) == "green" <==> s == InProgress || s == Done
  {
  }

  /** `tasks.Select(BuildTaskCard)`. */
  function Cards(ts: seq<TaskView>): (r: seq<TaskCard>)
    ensures |r| == |ts|
    ensures forall k :: 0 <= k < |ts| ==> r[k] == BuildTaskCard(ts[k])
  {
    if ts == [] then [] else [BuildTaskCard(ts[0])] + Cards(ts[1..])
  }

  // ---------------------------------------------------------------- kanban

  /** `cards.Where(card => card.Status == s)`. */
  function WithStatus(cards: seq<TaskCard>, s: TaskStatus): (r: seq<TaskCard>)
    ensures |r| <= |cards|
    ensures forall k :: 0 <= k < |r| ==> r[k].status == s
  {
    if cards == [] then []
    else if cards[0].status == s then [cards[0]] + WithStatus(cards[1..], s)
    else WithStatus(cards[1..], s)
  }

  /** The filter keeps exactly the cards with that status. */
  lemma {:induction false} WithStatusMembers(cards: seq<TaskCard>, s: TaskStatus)
    ensures forall c :: c in WithStatus(cards, s) <==> c in cards && c.status == s
  {
    if cards != [] {
      WithStatusMembers(cards[1..], s);
      assert cards == [cards[0]] + cards[1..];
    }
  }

  /** Filtering keeps relative order: it distributes over concatenation. */
  lemma {:induction false} WithStatusAppend(a: seq<TaskCard>, b: seq<TaskCard>, s: TaskStatus)
    ensures WithStatus(a + b, s) == WithStatus(a, s) + WithStatus(b, s)
  {
    if a == [] {
      assert a + b == b;
    } else {
      assert (a + b)[0] == a[0];
      assert (a + b)[1..] == a[1..] + b;
      WithStatusAppend(a[1..], b, s);
    }
  }

  /** `GetKanbanAsync`'s board: five columns in this order, "ai-review" always empty. */
  function Kanban(cards: seq<TaskCard>): (r: seq<KanbanColumn>)
    ensures |r| == 5
  {
    [ KanbanColumn("backlog", "Backlog", WithStatus(cards, Pending)),
      KanbanColumn("in-progress", "In Progress", WithStatus(cards, InProgress)),
      KanbanColumn("ai-review", "AI Review", []),
      KanbanColumn("human-review", "Human Review", WithStatus(cards, Review)),
      KanbanColumn("done", "Done", WithStatus(cards, Done)) ]
  }

  /** The column a status goes to. */
  function ColumnOf(s: TaskStatus): (k: nat)
    ensures k < 5 && k != 2
  {
    match s
    case Pending => 0
    case InProgress => 1
    case Review => 3
    case Done => 4
  }

  /** The fixed column keys, in order, and the empty "ai-review" column. */
  lemma KanbanShape(cards: seq<TaskCard>)
    ensures var b := Kanban(cards);
            && b[0].key == "backlog" && b[1].key == "in-progress" && b[2].key == "ai-review"
            && b[3].key == "human-review" && b[4].key == "done"
            && b[2].tasks == []
  {
  }

  /**
   * A card is in a column iff it is one of the cards and the column is the
   * one for its status.
   */
  lemma KanbanPlacement(cards: seq<TaskCard>, c: TaskCard, k: nat)
    requires k < 5
    ensures c in Kanban(cards)[k].tasks <==> c in cards && k == ColumnOf(c.status)
  {
    WithStatusMembers(cards, Pending);
    WithStatusMembers(cards, InProgress);
    WithStatusMembers(cards, Review);
    WithStatusMembers(cards, Done);
  }

  /** Every card is on the board exactly once: the columns together are the cards, as a multiset. */
  lemma KanbanPartition(cards: seq<TaskCard>)
    ensures var b := Kanban(cards);
            multiset(b[0].tasks) + multiset(b[1].tasks) + multiset(b[2].tasks)
              + multiset(b[3].tasks) + multiset(b[4].tasks) == multiset(cards)
  {
    StatusPartition(cards);
  }

  /** The four status filters split the cards between them. */
  lemma {:induction false} StatusPartition(cards: seq<TaskCard>)
    ensures multiset(WithStatus(cards, Pending)) + multiset(WithStatus(cards, InProgress))
              + multiset(WithStatus(cards, Review)) + multiset(WithStatus(cards, Done)) == multiset(cards)
  {
    if cards != [] {
      var c, rest := cards[0], cards[1..];
      StatusPartition(rest);
      assert cards == [c] + rest;
      assert multiset(cards) == multiset{c} + multiset(rest);
      match c.status
      case Pending =>
        assert WithStatus(cards, Pending) == [c] + WithStatus(rest, Pending);
      case InProgress =>
        assert WithStatus(cards, InProgress) == [c] + WithStatus(rest, InProgress);
      case Review =>
        assert WithStatus(cards, Review) == [c] + WithStatus(rest, Review);
      case Done =>
        assert WithStatus(cards, Done) == [c] + WithStatus(rest, Done);
    }
  }

  /** A board column is just the order-preserving filter of the cards, so the board of two lists is the concatenation of boards. */
  lemma KanbanAppend(a: seq<TaskCard>, b: seq<TaskCard>, k: nat)
    requires k < 5
    ensures Kanban(a + b)[k].tasks == Kanban(a)[k].tasks + Kanban(b)[k].tasks
  {
    WithStatusAppend(a, b, Pending);
    WithStatusAppend(a, b, InProgress);
    WithStatusAppend(a, b, Review);
    WithStatusAppend(a, b, Done);
  }

  // ---------------------------------------------------------------- line parsers

  /** `response.Split('\n', RemoveEmptyEntries)`. */
  function Lines(response: string): seq<string> {
    RemoveEmpty(Split(response, '\n'))
  }

  /** `line.Split('|', RemoveEmptyEntries | TrimEntries)`: trimmed first, then empty fields dropped. */
  function Fields(line: string): (r: seq<string>)
    ensures forall k :: 0 <= k < |r| ==> r[k] != [] && IsTrimmed(r[k])
  {
    var r := RemoveEmpty(TrimEach(Split(line, '|')));
    assert forall x :: x in r ==> IsTrimmed(x);
    r
  }

  /** How many of `n` candidates a loop that stops at `max` takes. */
  function AtMost(n: nat, max: int): (r: nat)
    ensures r <= n && (max <= 0 ==> r == 0) && (max > 0 ==> r <= max)
    ensures max >= n ==> r == n
    ensures 0 <= max <= n ==> r == max
  {
    if max <= 0 then 0 else if max < n then max else n
  }

  /** The field rows of the lines that have at least `need` fields, in line order. */
  function RowsWith(lines: seq<string>, need: nat): (r: seq<seq<string>>)
    ensures |r| <= |lines|
    ensures forall k :: 0 <= k < |r| ==> |r[k]| >= need
  {
    if lines == [] then []
    else if |Fields(lines[0])| >= need then [Fields(lines[0])] + RowsWith(lines[1..], need)
    else RowsWith(lines[1..], need)
  }

  /** The loop of `ParseDelimitedItems` over the lines: skip short lines, stop once `max` items are in. */
  function DelimitedLoop(lines: seq<string>, max: int): (r: seq<(string, string)>)
    ensures |r| <= |lines|
    ensures forall k :: 0 <= k < |r| ==> r[k].0 != [] && r[k].1 != []
    ensures forall k :: 0 <= k < |r| ==> IsTrimmed(r[k].0) && IsTrimmed(r[k].1)
  {
    if lines == [] || max <= 0 then []
    else
      var parts := Fields(lines[0]);
      if |parts| < 2 then DelimitedLoop(lines[1..], max)
      else [(parts[0], parts[1])] + DelimitedLoop(lines[1..], max - 1)
  }

  /** `ParseDelimitedItems(response, max)`: (title, impact) pairs. */
  function ParseDelimitedItems(response: string, max: int): seq<(string, string)> {
    DelimitedLoop(Lines(response), max)
  }

  /** The pair a two-or-more-field row gives; fields past the second are ignored. */
  function PairOf(row: seq<string>): (string, string)
    requires |row| >= 2
  {
    (row[0], row[1])
  }

  /**
   * The loop with its break gives the first `max` pairs of the lines with at
   * least two fields, in line order.
   */
  lemma {:induction false} DelimitedLoopSpec(lines: seq<string>, max: int)
    ensures var rows := RowsWith(lines, 2);
            var r := DelimitedLoop(lines, max);
            && |r| == AtMost(|rows|, max)
            && forall k :: 0 <= k < |r| ==> r[k] == PairOf(rows[k])
  {
    if lines != [] && max > 0 {
      var rows := RowsWith(lines, 2);
      var rest := RowsWith(lines[1..], 2);
      var r := DelimitedLoop(lines, max);
      var parts := Fields(lines[0]);
      if |parts| >= 2 {
        DelimitedLoopSpec(lines[1..], max - 1);
        var tail := DelimitedLoop(lines[1..], max - 1);
        assert rows == [parts] + rest;
        assert r == [(parts[0], parts[1])] + tail;
        forall k | 1 <= k < |r|
          ensures r[k] == PairOf(rows[k])
        {
          assert r[k] == tail[k - 1];
          assert rows[k] == rest[k - 1];
        }
      } else {
        DelimitedLoopSpec(lines[1..], max);
      }
    }
  }

  /** `ParseDelimitedItems` gives at most `max` pairs, the first two fields of the qualifying lines in line order. */
  lemma ParseDelimitedItemsSpec(response: string, max: int)
    ensures var rows := RowsWith(Lines(response), 2);
            var r := ParseDelimitedItems(response, max);
            && |r| == AtMost(|rows|, max)
            && |r| <= (if max <= 0 then 0 else max)
            && forall k :: 0 <= k < |r| ==> r[k] == (rows[k][0], rows[k][1])
  {
    DelimitedLoopSpec(Lines(response), max);
  }

  /** The idea a four-or-more-field row gives, with the id `Guid.NewGuid()` gave. */
  function IdeaOf(row: seq<string>, id: Guid): IdeaCard
    requires |row| >= 4
  {
    IdeaCard(id, row[0], row[1], "Draft", row[2], row[3], row[3], "Local LLM", [])
  }

  /**
   * The loop of `ParseIdeas` over the lines. `ids(n)` is the id drawn for
   * the n-th idea; `n` counts the ideas taken so far.
   */
  function IdeasLoop(lines: seq<string>, max: int, ids: nat -> Guid, n: nat): (r: seq<IdeaCard>)
    ensures |r| <= |lines|
    ensures forall k :: 0 <= k < |r| ==> r[k].status == "Draft" && r[k].owner == "Local LLM"
    ensures forall k :: 0 <= k < |r| ==> r[k].summary == r[k].description
  {
    if lines == [] || n >= max then []
    else
      var parts := Fields(lines[0]);
      if |parts| < 4 then IdeasLoop(lines[1..], max, ids, n)
      else [IdeaOf(parts, ids(n))] + IdeasLoop(lines[1..], max, ids, n + 1)
  }

  /** `ParseIdeas(response, max)`. */
  function ParseIdeas(response: string, max: int, ids: nat -> Guid): seq<IdeaCard> {
    IdeasLoop(Lines(response), max, ids, 0)
  }

  /** With `n` ideas already taken, the loop yields at most `max - n` ideas, one per row with at least four fields. */
  lemma {:induction false} IdeasLoopLength(lines: seq<string>, max: int, ids: nat -> Guid, n: nat)
    ensures |IdeasLoop(lines, max, ids, n)| == AtMost(|RowsWith(lines, 4)|, max - n)
  {
    if lines != [] && n < max {
      if |Fields(lines[0])| >= 4 {
        IdeasLoopLength(lines[1..], max, ids, n + 1);
      } else {
        IdeasLoopLength(lines[1..], max, ids, n);
      }
    }
  }

  /** The k-th idea of the loop comes from the k-th qualifying row, with the id drawn (n + k)-th. */
  lemma {:induction false} IdeasLoopAt(lines: seq<string>, max: int, ids: nat -> Guid, n: nat, k: nat)
    requires k < |IdeasLoop(lines, max, ids, n)|
    ensures k < |RowsWith(lines, 4)|
    ensures IdeasLoop(lines, max, ids, n)[k] == IdeaOf(RowsWith(lines, 4)[k], ids(n + k))
  {
    IdeasLoopLength(lines, max, ids, n);
    var parts := Fields(lines[0]);
    if |parts| >= 4 {
      if k > 0 {
        IdeasLoopAt(lines[1..], max, ids, n + 1, k - 1);
      }
    } else {
      IdeasLoopAt(lines[1..], max, ids, n, k);
    }
  }

  /**
   * `ParseIdeas` gives at most `max` ideas, from the lines with at least four
   * fields, in line order: title, type, impact and summary are the first four
   * fields, the description repeats the summary, the status is "Draft" and
   * the owner "Local LLM".
   */
  lemma ParseIdeasSpec(response: string, max: int, ids: nat -> Guid)
    ensures var rows := RowsWith(Lines(response), 4);
            var r := ParseIdeas(response, max, ids);
            && |r| == AtMost(|rows|, max)
            && |r| <= (if max <= 0 then 0 else max)
            && forall k :: 0 <= k < |r| ==> r[k] == IdeaOf(rows[k], ids(k))
  {
    IdeasLoopLength(Lines(response), max, ids, 0);
    forall k | 0 <= k < |ParseIdeas(response, max, ids)|
      ensures ParseIdeas(response, max, ids)[k] == IdeaOf(RowsWith(Lines(response), 4)[k], ids(k))
    {
      IdeasLoopAt(Lines(response), max, ids, 0, k);
    }
  }
}
