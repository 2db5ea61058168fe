// The coder agent: one chat call, then every file block of the reply is
// written in order through the file service, followed by one commit.
// The collaborators (chat model, file service, git service) are seen through
// the trace of calls the agent makes on them.

module Coder {
  import opened Text
  import opened FileBlocks
  import opened Wrappers

  /** A call the agent makes on one of its collaborators. */
  datatype Call =
    | Chat(system: string, prompt: string)
    | WriteFile(path: string, content: string)
    | Commit(message: string)
    | Warning(text: string)

  /** How `ParseAndApplyChanges` ends: normally, or by the exception a collaborator throws. */
  datatype Outcome = Completed | NoBlocks | WriteFailed(index: nat) | CommitFailed

  const SystemPrompt := "You are a C# expert."
  const CommitMessage := "Auto-Claude: Implemented requested changes."
  const NoBlocksWarning := "No file blocks found in LLM response."

  const PromptHead := "\nYou are an expert C# Developer.\nYour task is: "
  const PromptTail := "\n\nPlease provide the code implementation.\n"
    + "If you need to create or modify a file, use the following format exactly:\n\n"
    + "**FILE: path/to/file.ext**\n```csharp\n// code content here\n```\n\n"
    + "Provide the full implementation.\n"

  /** The user message sent with the instruction spliced in (line ends taken as `\n`). */
  function Prompt(instruction: string): (r: string)
    ensures OccursAt(r, instruction, 47)
  {
    assert |PromptHead| == 47;
    var r := PromptHead + instruction + PromptTail;
    assert r[47..47 + |instruction|] == instruction;
    r
  }

  /** The write the agent issues for one block: the path group trimmed, the content verbatim. */
  function WriteOf(b: FileBlock): Call {
    WriteFile(Trim(b.rawPath), b.content)
  }

  /** The writes for a run of blocks, in block order. */
  function Writes(blocks: seq<FileBlock>): (r: seq<Call>)
    ensures |r| == |blocks|
  {
    if blocks == [] then [] else [WriteOf(blocks[0])] + Writes(blocks[1..])
  }

  /** The write at position `k` is the one for block `k`. */
  lemma {:induction false} WritesAt(blocks: seq<FileBlock>)
    ensures forall k :: 0 <= k < |blocks| ==> Writes(blocks)[k] == WriteOf(blocks[k])
  {
    if blocks != [] {
      WritesAt(blocks[1..]);
    }
  }

  lemma {:induction false} WritesAppend(a: seq<FileBlock>, b: FileBlock)
    ensures Writes(a + [b]) == Writes(a) + [WriteOf(b)]
  {
    var l, r := Writes(a + [b]), Writes(a) + [WriteOf(b)];
    WritesAt(a + [b]);
    WritesAt(a);
    assert |l| == |r|;
    forall k | 0 <= k < |l|
      ensures l[k] == r[k]
    {
      if k < |a| {
        assert (a + [b])[k] == a[k];
      } else {
        assert (a + [b])[k] == b;
      }
    }
  }

  /** Whether writing this block throws, given which writes of the file service throw. */
  predicate WriteThrows(b: FileBlock, writeFails: (string, string) -> bool) {
    writeFails(Trim(b.rawPath), b.content)
  }

  /** The first block at or after `from` whose write throws. */
  function FirstFailureFrom(blocks: seq<FileBlock>, writeFails: (string, string) -> bool, from: nat): (r: Option<nat>)
    requires from <= |blocks|
    ensures r.Some? ==> from <= r.value < |blocks| && WriteThrows(blocks[r.value], writeFails)
    ensures r.Some? ==> forall k :: from <= k < r.value ==> !WriteThrows(blocks[k], writeFails)
    ensures r.None? ==> forall k :: from <= k < |blocks| ==> !WriteThrows(blocks[k], writeFails)
    decreases |blocks| - from
  {
    if from == |blocks| then None
    else if WriteThrows(blocks[from], writeFails) then Some(from)
    else FirstFailureFrom(blocks, writeFails, from + 1)
  }

  /** The first block whose write throws. */
  function FirstFailure(blocks: seq<FileBlock>, writeFails: (string, string) -> bool): Option<nat> {
    FirstFailureFrom(blocks, writeFails, 0)
  }

  /** The calls `ParseAndApplyChanges` makes for the blocks found in a reply. */
  function ApplyTrace(blocks: seq<FileBlock>, writeFails: (string, string) -> bool): seq<Call> {
    if blocks == [] then [Warning(NoBlocksWarning)]
    else match FirstFailure(blocks, writeFails)
      case Some(i) => Writes(blocks[..i + 1])
      case None => Writes(blocks) + [Commit(CommitMessage)]
  }

  /** How `ParseAndApplyChanges` ends for the blocks found in a reply. */
  function ApplyOutcome(blocks: seq<FileBlock>, writeFails: (string, string) -> bool, commitFails: bool): Outcome {
    if blocks == [] then NoBlocks
    else match FirstFailure(blocks, writeFails)
      case Some(i) => WriteFailed(i)
      case None => if commitFails then CommitFailed else Completed
  }

  /** The calls `ExecuteAsync` makes, given the chat model's reply function. */
  function ExecuteTrace(instruction: string, chat: (string, string) -> string,
                        writeFails: (string, string) -> bool): seq<Call> {
    [Chat(SystemPrompt, Prompt(instruction))]
      + ApplyTrace(Matches(chat(SystemPrompt, Prompt(instruction))), writeFails)
  }

  predicate IsWrite(c: Call) { c.WriteFile? }
  predicate IsCommit(c: Call) { c.Commit? }

  /** A reply without any file block causes only the warning: no write and no commit. */
  lemma NoBlocksOnlyWarning(response: string, writeFails: (string, string) -> bool, commitFails: bool)
    requires Matches(response) == []
    ensures ApplyTrace(Matches(response), writeFails) == [Warning(NoBlocksWarning)]
    ensures ApplyOutcome(Matches(response), writeFails, commitFails) == NoBlocks
    ensures forall k :: 0 <= k < |ApplyTrace(Matches(response), writeFails)| ==>
              !IsWrite(ApplyTrace(Matches(response), writeFails)[k]) &&
              !IsCommit(ApplyTrace(Matches(response), writeFails)[k])
  {
  }

  /**
   * When no write throws, the N blocks give exactly N writes in block order,
   * then the one commit with the fixed message.
   */
  lemma {:induction false} AllWritesThenCommit(blocks: seq<FileBlock>, writeFails: (string, string) -> bool)
    requires blocks != []
    requires forall k :: 0 <= k < |blocks| ==> !WriteThrows(blocks[k], writeFails)
    ensures var t := ApplyTrace(blocks, writeFails);
            && |t| == |blocks| + 1
            && (forall k :: 0 <= k < |blocks| ==> t[k] == WriteFile(Trim(blocks[k].rawPath), blocks[k].content))
            && t[|blocks|] == Commit(CommitMessage)
  {
    NoFailureFrom(blocks, writeFails, 0);
    WritesAt(blocks);
  }

  lemma {:induction false} NoFailureFrom(blocks: seq<FileBlock>, writeFails: (string, string) -> bool, from: nat)
    requires from <= |blocks|
    requires forall k :: from <= k < |blocks| ==> !WriteThrows(blocks[k], writeFails)
    ensures FirstFailureFrom(blocks, writeFails, from) == None
    decreases |blocks| - from
  {
    if from < |blocks| {
      NoFailureFrom(blocks, writeFails, from + 1);
    }
  }

  /** The write at `i` is the first to throw: the trace stops after it. */
  lemma {:induction false} FailureAt(blocks: seq<FileBlock>, writeFails: (string, string) -> bool, i: nat, commitFails: bool)
    requires i < |blocks| && FirstFailure(blocks, writeFails) == Some(i)
    ensures ApplyTrace(blocks, writeFails) == Writes(blocks[..i + 1])
    ensures ApplyOutcome(blocks, writeFails, commitFails) == WriteFailed(i)
  {
  }

  /** No write threw before the end: the commit follows the writes. */
  lemma {:induction false} NoFailureAtEnd(blocks: seq<FileBlock>, writeFails: (string, string) -> bool, commitFails: bool)
    requires blocks != [] && FirstFailure(blocks, writeFails) == None
    ensures ApplyTrace(blocks, writeFails) == Writes(blocks) + [Commit(CommitMessage)]
    ensures ApplyOutcome(blocks, writeFails, commitFails) == if commitFails then CommitFailed else Completed
  {
  }

  lemma {:induction false} FirstFailureIs(blocks: seq<FileBlock>, writeFails: (string, string) -> bool, from: nat, i: nat)
    requires from <= i < |blocks| && WriteThrows(blocks[i], writeFails)
    requires forall k :: from <= k < i ==> !WriteThrows(blocks[k], writeFails)
    ensures FirstFailureFrom(blocks, writeFails, from) == Some(i)
    decreases i - from
  {
    if from < i {
      FirstFailureIs(blocks, writeFails, from + 1, i);
    }
  }

  /** A write that throws ends the apply step: later blocks are not written and nothing is committed. */
  lemma {:induction false} FailedWriteStops(blocks: seq<FileBlock>, writeFails: (string, string) -> bool, i: nat)
    requires i < |blocks| && WriteThrows(blocks[i], writeFails)
    requires forall k :: 0 <= k < i ==> !WriteThrows(blocks[k], writeFails)
    ensures ApplyTrace(blocks, writeFails) == Writes(blocks[..i + 1])
    ensures var t := ApplyTrace(blocks, writeFails);
            && |t| == i + 1
            && (forall k :: 0 <= k <= i ==> t[k] == WriteOf(blocks[k]))
            && (forall k :: 0 <= k < |t| ==> !IsCommit(t[k]))
    ensures forall commitFails: bool :: ApplyOutcome(blocks, writeFails, commitFails) == WriteFailed(i)
  {
    FirstFailureIs(blocks, writeFails, 0, i);
    WritesAt(blocks[..i + 1]);
  }

  /** No call of the apply step is a chat call. */
  lemma {:induction false} ApplyTraceHasNoChat(blocks: seq<FileBlock>, writeFails: (string, string) -> bool)
    ensures forall k :: 0 <= k < |ApplyTrace(blocks, writeFails)| ==> !ApplyTrace(blocks, writeFails)[k].Chat?
  {
    var a := ApplyTrace(blocks, writeFails);
    if blocks != [] {
      match FirstFailure(blocks, writeFails)
      case Some(i) =>
        WritesAt(blocks[..i + 1]);
      case None =>
        WritesAt(blocks);
        forall k | 0 <= k < |a|
          ensures !a[k].Chat?
        {
          if k < |blocks| {
            assert a[k] == Writes(blocks)[k];
          }
        }
    }
  }

  /** A commit is issued iff at least one block was found and every write went through. */
  lemma {:induction false} CommitIff(blocks: seq<FileBlock>, writeFails: (string, string) -> bool)
    ensures var t := ApplyTrace(blocks, writeFails);
            (exists k :: 0 <= k < |t| && IsCommit(t[k])) <==>
            (blocks != [] && forall k :: 0 <= k < |blocks| ==> !WriteThrows(blocks[k], writeFails))
  {
    var t := ApplyTrace(blocks, writeFails);
    if blocks != [] {
      match FirstFailure(blocks, writeFails)
      case Some(i) =>
        FailedWriteStops(blocks, writeFails, i);
      case None =>
        AllWritesThenCommit(blocks, writeFails);
        assert IsCommit(t[|blocks|]);
    }
  }

  /** No write carries a fence: the content of every block stops before the first closing fence. */
  lemma {:induction false} WrittenContentHasNoFence(response: string, writeFails: (string, string) -> bool)
    ensures var t := ApplyTrace(Matches(response), writeFails);
            forall k :: 0 <= k < |t| && t[k].WriteFile? ==> !HasFence(t[k].content)
  {
    var blocks := Matches(response);
    if blocks != [] {
      match FirstFailure(blocks, writeFails)
      case Some(i) =>
        assert Writes(blocks[..i + 1]) == ApplyTrace(blocks, writeFails);
        WritesAt(blocks[..i + 1]);
      case None =>
        WritesAt(blocks);
    }
  }

  /** `ExecuteAsync` asks the chat model exactly once, first, and hands the whole reply to the parser. */
  lemma OneChatFirst(instruction: string, chat: (string, string) -> string, writeFails: (string, string) -> bool)
    ensures var t := ExecuteTrace(instruction, chat, writeFails);
            && t[0] == Chat(SystemPrompt, Prompt(instruction))
            && (forall k :: 1 <= k < |t| ==> !t[k].Chat?)
            && t[1..] == ApplyTrace(Matches(chat(SystemPrompt, Prompt(instruction))), writeFails)
  {
    var blocks := Matches(chat(SystemPrompt, Prompt(instruction)));
    var a := ApplyTrace(blocks, writeFails);
    var t := [Chat(SystemPrompt, Prompt(instruction))] + a;
    assert ExecuteTrace(instruction, chat, writeFails) == t;
    ApplyTraceHasNoChat(blocks, writeFails);
    assert t[1..] == a;
    forall k | 1 <= k < |t|
      ensures !t[k].Chat?
    {
      assert t[k] == a[k - 1];
    }
  }

  /**
   * Round trip through the whole apply step: rendering well-formed blocks
   * and applying the reply writes exactly those paths and contents, then commits.
   */
  lemma {:induction false} ApplyRendered(blocks: seq<(string, string, string)>, writeFails: (string, string) -> bool)
    requires blocks != []
    requires forall i :: 0 <= i < |blocks| ==> WellFormed(blocks[i].0, blocks[i].1, blocks[i].2)
    requires forall i :: 0 <= i < |blocks| ==> !writeFails(blocks[i].0, blocks[i].2)
    ensures var t := ApplyTrace(Matches(RenderAll(blocks)), writeFails);
            && |t| == |blocks| + 1
            && (forall k :: 0 <= k < |blocks| ==> t[k] == WriteFile(blocks[k].0, blocks[k].2))
            && t[|blocks|] == Commit(CommitMessage)
  {
    var found := Matches(RenderAll(blocks));
    MatchesRenderAll(blocks);
    forall k | 0 <= k < |blocks|
      ensures Trim(found[k].rawPath) == blocks[k].0
    {
      TrimOfTrimmed(blocks[k].0);
    }
    AllWritesThenCommit(found, writeFails);
  }

  lemma TestBlockWellFormed()
    ensures WellFormed("test.txt", "csharp", "code\n")
  {
    var d := "code\n" + "``";
    forall i | 0 <= i <= |d|
      ensures !FenceAt(d, i)
    {
      if i + 3 <= |d| {
        assert d[i] == "code\n"[i];
      }
    }
    assert IsTrimmed("test.txt");
  }

  lemma TestReplyRendered()
    ensures Render("test.txt", "csharp", "code\n") == "**FILE: test.txt**\n```csharp\ncode\n```"
  {
  }

  /** The reply of the agent-loop test holds one block, for `test.txt` with content `code\n`. */
  lemma AgentLoopTestBlocks(reply: string)
    requires reply == "**FILE: test.txt**\n```csharp\ncode\n```"
    ensures Matches(reply) == [FileBlock("test.txt", "code\n")]
  {
    TestReplyRendered();
    assert reply == Render("test.txt", "csharp", "code\n") + [];
    TestBlockWellFormed();
    MatchesRenderedBlock("test.txt", "csharp", "code\n", []);
    var none: string := [];
    assert Matches(none) == [];
  }

  /** The reply of the agent-loop test yields exactly one write, of `code\n` to `test.txt`, then the commit. */
  lemma AgentLoopTestReply(reply: string, writeFails: (string, string) -> bool)
    requires reply == "**FILE: test.txt**\n```csharp\ncode\n```"
    requires !writeFails("test.txt", "code\n")
    ensures ApplyTrace(Matches(reply), writeFails) == [WriteFile("test.txt", "code\n"), Commit(CommitMessage)]
  {
    AgentLoopTestBlocks(reply);
    var blocks := [FileBlock("test.txt", "code\n")];
    TrimOfTrimmed("test.txt");
    AllWritesThenCommit(blocks, writeFails);
  }

  /** The agent, observed through the calls it makes on its collaborators. */
  class CoderAgent {
    var calls: seq<Call>

    constructor()
      ensures calls == []
    {
      calls := [];
    }

    /** Parse the reply and apply its file blocks: writes in order, then one commit. */
    method ParseAndApplyChanges(response: string, writeFails: (string, string) -> bool, commitFails: bool)
      returns (outcome: Outcome)
      modifies this
      ensures calls == old(calls) + ApplyTrace(Matches(response), writeFails)
      ensures outcome == ApplyOutcome(Matches(response), writeFails, commitFails)
    {
      var matches := Matches(response);
      outcome := ApplyAll(matches, writeFails, commitFails);
    }

    /** The body of the apply step over the blocks already found. */
    method ApplyAll(matches: seq<FileBlock>, writeFails: (string, string) -> bool, commitFails: bool)
      returns (outcome: Outcome)
      modifies this
      ensures calls == old(calls) + ApplyTrace(matches, writeFails)
      ensures outcome == ApplyOutcome(matches, writeFails, commitFails)
    {
      if |matches| == 0 {
        calls := calls + [Warning(NoBlocksWarning)];
        return NoBlocks;
      }
      var failed := WriteAll(matches, writeFails);
      if failed.Some? {
        FailureAt(matches, writeFails, failed.value, commitFails);
        return WriteFailed(failed.value);
      }
      NoFailureAtEnd(matches, writeFails, commitFails);
      calls := calls + [Commit(CommitMessage)];
      if commitFails {
        return CommitFailed;
      }
      return Completed;
    }

    /** Write the blocks in order, stopping after the first write that throws. */
    method WriteAll(matches: seq<FileBlock>, writeFails: (string, string) -> bool)
      returns (failed: Option<nat>)
      modifies this
      ensures failed == FirstFailure(matches, writeFails)
      ensures failed.Some? ==> failed.value < |matches| && calls == old(calls) + Writes(matches[..failed.value + 1])
      ensures failed.None? ==> calls == old(calls) + Writes(matches)
    {
      var i := 0;
      while i < |matches|
        invariant 0 <= i <= |matches|
        invariant calls == old(calls) + Writes(matches[..i])
        invariant FirstFailureFrom(matches, writeFails, i) == FirstFailure(matches, writeFails)
      {
        var filePath := Trim(matches[i].rawPath);
        var content := matches[i].content;
        WritesAppend(matches[..i], matches[i]);
        TakeStep(matches, i);
        calls := calls + [WriteFile(filePath, content)];
        assert calls == old(calls) + Writes(matches[..i + 1]);
        if writeFails(filePath, content) {
          assert FirstFailureFrom(matches, writeFails, i) == Some(i);
          return Some(i);
        }
        i := i + 1;
      }
      assert matches[..i] == matches;
      return None;
    }

    /** Ask the chat model once for code, then parse and apply the whole reply. */
    method Execute(instruction: string, chat: (string, string) -> string,
                   writeFails: (string, string) -> bool, commitFails: bool)
      returns (outcome: Outcome)
      modifies this
      ensures calls == old(calls) + [Chat(SystemPrompt, Prompt(instruction))]
                       + ApplyTrace(Matches(chat(SystemPrompt, Prompt(instruction))), writeFails)
      ensures outcome == ApplyOutcome(Matches(chat(SystemPrompt, Prompt(instruction))), writeFails, commitFails)
    {
      var prompt := Prompt(instruction);
      calls := calls + [Chat(SystemPrompt, prompt)];
      var response := chat(SystemPrompt, prompt);
      outcome := ParseAndApplyChanges(response, writeFails, commitFails);
    }
  }
}
