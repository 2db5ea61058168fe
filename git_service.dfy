// `GitService`: the branch-name check of `CreateWorktreeAsync`, the parse of
// `git worktree list --porcelain` output in `GetWorktreesAsync`, and the
// current repository path. Processes and the repository library are outside
// the model: their results are parameters and their invocations a trace.

module Git {
  import opened Wrappers
  import opened Text
  import opened Paths

  // ---------------------------------------------------------------- branch names

  /**
   * The check `CreateWorktreeAsync` makes before anything else: not empty
   * or whitespace-only, no "..", and none of the characters the platform
   * forbids in file names.
   */
  predicate ValidBranchName(name: string, invalidChars: set<char>) {
    && !AllSpace(name)
    && !Contains(name, "..")
    && forall i :: 0 <= i < |name| ==> name[i] !in invalidChars
  }

  /** Each of the three conditions on its own rejects the name. */
  lemma RejectedBranchNames(name: string, invalidChars: set<char>)
    ensures AllSpace(name) ==> !ValidBranchName(name, invalidChars)
    ensures Contains(name, "..") ==> !ValidBranchName(name, invalidChars)
    ensures (exists i :: 0 <= i < |name| && name[i] in invalidChars) ==> !ValidBranchName(name, invalidChars)
  {
  }

  /** A name with a non-space character, no "..", and only allowed characters passes. */
  lemma AcceptedBranchName(name: string, invalidChars: set<char>, i: nat)
    requires i < |name| && !IsSpace(name[i])
    requires !Contains(name, "..")
    requires forall k :: 0 <= k < |name| ==> name[k] !in invalidChars
    ensures ValidBranchName(name, invalidChars)
  {
  }

  /**
   * Where the separator is a forbidden character, as it is on every
   * platform, an accepted name is one path segment that is not "..": the
   * worktree lands directly in the worktrees directory.
   */
  lemma AcceptedBranchIsOneSegment(name: string, invalidChars: set<char>)
    requires ValidBranchName(name, invalidChars) && '/' in invalidChars
    ensures Split(name, '/') == [name]
    ensures name != [] && name != ".."
    ensures Combine("/w", name) == "/w/" + name
  {
    assert forall i :: 0 <= i < |name| ==> name[i] != '/';
    SplitNoSep(name, '/');
    assert Contains("..", "..") by {
      assert OccursAt("..", "..", 0);
    }
  }

  /** The invocations the worktree operations make outside the model. */
  datatype GitCall =
    | CreateDirectory(path: string)
    | RunGit(arguments: string, workingDirectory: string)

  datatype GitError =
    | InvalidBranchName(name: string)
    | NoParentDirectory
    | ProcessNotStarted
    | WorktreeAddFailed(stderr: string)

  function WorktreeAddArguments(branchName: string, targetPath: string): string {
    "worktree add -b " + branchName + " \"" + targetPath + "\" HEAD"
  }

  // ---------------------------------------------------------------- porcelain parse

  /** `GitWorktree`: its three text properties, all empty for a new record. */
  datatype Worktree = Worktree(path: string, head: string, branch: string)

  const NewWorktree := Worktree([], [], [])

  const BranchPrefix := "refs/heads/"

  /** One non-blank line applied to the record being built; unknown lines change nothing. */
  function ApplyLine(current: Worktree, line: string): Worktree {
    if StartsWith(line, "worktree ") then current.(path := Trim(line[9..]))
    else if StartsWith(line, "branch ") then current.(branch := RemoveAll(Trim(line[7..]), BranchPrefix))
    else if StartsWith(line, "HEAD ") then current.(head := Trim(line[5..]))
    else current
  }

  /** The record, kept only when it has a path. */
  function Close(current: Worktree): (r: seq<Worktree>)
    ensures |r| <= 1
    ensures |r| == 1 <==> current.path != []
  {
    if current.path != [] then [current] else []
  }

  /**
   * The records read from `lines`, with `current` the record being built: a
   * blank line closes it, any other line updates it, and the end of the input
   * closes the last one.
   */
  function ParseLines(lines: seq<string>, current: Worktree): (r: seq<Worktree>)
    ensures forall k :: 0 <= k < |r| ==> r[k].path != []
    decreases |lines|
  {
    if lines == [] then Close(current)
    else if AllSpace(lines[0]) then Close(current) + ParseLines(lines[1..], NewWorktree)
    else ParseLines(lines[1..], ApplyLine(current, lines[0]))
  }

  function ParsePorcelain(output: string): seq<Worktree> {
    ParseLines(Split(output, '\n'), NewWorktree)
  }

  /** `GetWorktreesAsync`: nothing when git could not start or failed, the parsed records otherwise. */
  function WorktreeList(started: bool, exitCode: int, output: string): seq<Worktree> {
    if !started || exitCode != 0 then [] else ParsePorcelain(output)
  }

  /** The lines applied in order to a record. */
  function ApplyLines(current: Worktree, lines: seq<string>): Worktree
    decreases |lines|
  {
    if lines == [] then current else ApplyLines(ApplyLine(current, lines[0]), lines[1..])
  }

  /** Without a blank line the input is one record, kept exactly when it ends up with a path. */
  lemma {:induction false} LastRecordKept(lines: seq<string>, current: Worktree)
    requires forall k :: 0 <= k < |lines| ==> !AllSpace(lines[k])
    ensures ParseLines(lines, current) == Close(ApplyLines(current, lines))
    ensures |ParseLines(lines, current)| == 1 <==> ApplyLines(current, lines).path != []
    decreases |lines|
  {
    if lines != [] {
      LastRecordKept(lines[1..], ApplyLine(current, lines[0]));
    }
  }

  /** A repeated key overwrites: of two lines with the same key, the later one decides. */
  lemma {:induction false} RepeatedKeyOverwrites(current: Worktree, first: string, second: string, key: string)
    requires key == "worktree " || key == "branch " || key == "HEAD "
    requires StartsWith(first, key) && StartsWith(second, key)
    ensures ApplyLine(ApplyLine(current, first), second) == ApplyLine(current, second)
  {
    if key == "worktree " {
      PathLineTwice(current, first, second);
    } else if key == "branch " {
      BranchLineTwice(current, first, second);
    } else {
      HeadLineTwice(current, first, second);
    }
  }

  lemma PathLineTwice(current: Worktree, first: string, second: string)
    requires StartsWith(first, "worktree ") && StartsWith(second, "worktree ")
    ensures ApplyLine(ApplyLine(current, first), second) == ApplyLine(current, second)
  {
  }

  lemma BranchLineTwice(current: Worktree, first: string, second: string)
    requires StartsWith(first, "branch ") && StartsWith(second, "branch ")
    ensures ApplyLine(ApplyLine(current, first), second) == ApplyLine(current, second)
  {
    assert first[0] == 'b' && second[0] == 'b';
    assert !StartsWith(first, "worktree ") && !StartsWith(second, "worktree ");
  }

  lemma HeadLineTwice(current: Worktree, first: string, second: string)
    requires StartsWith(first, "HEAD ") && StartsWith(second, "HEAD ")
    ensures ApplyLine(ApplyLine(current, first), second) == ApplyLine(current, second)
  {
    assert first[0] == 'H' && second[0] == 'H';
    assert !StartsWith(first, "worktree ") && !StartsWith(first, "branch ");
    assert !StartsWith(second, "worktree ") && !StartsWith(second, "branch ");
  }

  /** The records of a well-formed list, in git's porcelain layout: three lines and a blank one each. */
  function RecordLines(w: Worktree): seq<string> {
    ["worktree " + w.path, "HEAD " + w.head, "branch " + BranchPrefix + w.branch, []]
  }

  function PorcelainLines(ws: seq<Worktree>): seq<string> {
    if ws == [] then [] else RecordLines(ws[0]) + PorcelainLines(ws[1..])
  }

  /** Text git's porcelain format produces for these records (ending, like git's, with a newline). */
  function Porcelain(ws: seq<Worktree>): string {
    Join(PorcelainLines(ws) + [[]], '\n')
  }

  /** What the porcelain format can carry: a path, trimmed one-line fields, a short branch name. */
  predicate WellFormed(w: Worktree) {
    && w.path != [] && IsTrimmed(w.path) && IsTrimmed(w.head) && IsTrimmed(w.branch)
    && '\n' !in w.path && '\n' !in w.head && '\n' !in w.branch
    && !Contains(w.branch, BranchPrefix)
  }

  lemma TrimmedAfterPrefix(prefix: string, s: string)
    requires IsTrimmed(s) && prefix != [] && !IsSpace(prefix[0]) && !IsSpace(prefix[|prefix| - 1])
    ensures IsTrimmed(prefix + s)
  {
  }

  /** A "worktree " line sets the path to its trimmed remainder. */
  lemma ApplyPathLine(current: Worktree, p: string)
    requires IsTrimmed(p)
    ensures ApplyLine(current, "worktree " + p) == current.(path := p)
  {
    var l := "worktree " + p;
    assert StartsWith(l, "worktree ") && l[9..] == p;
    TrimOfTrimmed(p);
  }

  /** A "HEAD " line sets the head to its trimmed remainder. */
  lemma ApplyHeadLine(current: Worktree, h: string)
    requires IsTrimmed(h)
    ensures ApplyLine(current, "HEAD " + h) == current.(head := h)
  {
    var l := "HEAD " + h;
    assert l[0] == 'H' && StartsWith(l, "HEAD ") && l[5..] == h;
    assert !StartsWith(l, "worktree ") && !StartsWith(l, "branch ");
    TrimOfTrimmed(h);
  }

  /** A "branch refs/heads/..." line sets the branch to the short name. */
  lemma ApplyBranchLine(current: Worktree, b: string)
    requires IsTrimmed(b) && !Contains(b, BranchPrefix)
    ensures ApplyLine(current, "branch " + BranchPrefix + b) == current.(branch := b)
  {
    var l := "branch " + BranchPrefix + b;
    assert l[0] == 'b' && StartsWith(l, "branch ") && l[7..] == BranchPrefix + b;
    assert !StartsWith(l, "worktree ");
    TrimmedAfterPrefix(BranchPrefix, b);
    TrimOfTrimmed(BranchPrefix + b);
    RemoveAllPrefix(BranchPrefix, b);
  }

  /** The three lines of a record, applied in order to a new record, rebuild it. */
  lemma ApplyRecordLines(w: Worktree)
    requires WellFormed(w)
    ensures ApplyLine(ApplyLine(ApplyLine(NewWorktree, RecordLines(w)[0]), RecordLines(w)[1]), RecordLines(w)[2]) == w
  {
    ApplyPathLine(NewWorktree, w.path);
    ApplyHeadLine(NewWorktree.(path := w.path), w.head);
    ApplyBranchLine(NewWorktree.(path := w.path, head := w.head), w.branch);
  }

  /** One record's lines are read back as that record. */
  lemma ParseRecord(w: Worktree, rest: seq<string>)
    requires WellFormed(w)
    ensures ParseLines(RecordLines(w) + rest, NewWorktree) == [w] + ParseLines(rest, NewWorktree)
  {
    var r := RecordLines(w);
    var l0 := r + rest;
    var l1 := l0[1..];
    var l2 := l1[1..];
    var l3 := l2[1..];
    assert l0[0] == r[0] && l1[0] == r[1] && l2[0] == r[2] && l3[0] == [] && l3[1..] == rest;
    assert r[0][0] == 'w' && r[1][0] == 'H' && r[2][0] == 'b';
    assert !AllSpace(r[0]) && !AllSpace(r[1]) && !AllSpace(r[2]);
    var c1 := ApplyLine(NewWorktree, r[0]);
    var c2 := ApplyLine(c1, r[1]);
    var c3 := ApplyLine(c2, r[2]);
    ApplyRecordLines(w);
    assert ParseLines(l0, NewWorktree) == ParseLines(l1, c1);
    assert ParseLines(l1, c1) == ParseLines(l2, c2);
    assert ParseLines(l2, c2) == ParseLines(l3, c3);
    assert ParseLines(l3, c3) == Close(w) + ParseLines(rest, NewWorktree);
  }

  lemma {:induction false} ParsePorcelainLines(ws: seq<Worktree>, rest: seq<string>)
    requires forall k :: 0 <= k < |ws| ==> WellFormed(ws[k])
    ensures ParseLines(PorcelainLines(ws) + rest, NewWorktree) == ws + ParseLines(rest, NewWorktree)
  {
    if ws == [] {
      assert PorcelainLines(ws) + rest == rest;
    } else {
      var tail := PorcelainLines(ws[1..]) + rest;
      PorcelainLinesCons(ws, rest);
      ParseRecord(ws[0], tail);
      ParsePorcelainLines(ws[1..], rest);
      ConsOfTail(ws, ParseLines(rest, NewWorktree));
    }
  }

  lemma PorcelainLinesCons(ws: seq<Worktree>, rest: seq<string>)
    requires ws != []
    ensures PorcelainLines(ws) + rest == RecordLines(ws[0]) + (PorcelainLines(ws[1..]) + rest)
  {
  }

  /** One step of `ParseLines` at position `i`. */
  lemma ParseLinesStep(lines: seq<string>, i: nat, current: Worktree)
    requires i < |lines|
    ensures ParseLines(lines[i..], current) ==
            if AllSpace(lines[i]) then Close(current) + ParseLines(lines[i + 1..], NewWorktree)
            else ParseLines(lines[i + 1..], ApplyLine(current, lines[i]))
  {
    assert lines[i..][0] == lines[i] && lines[i..][1..] == lines[i + 1..];
  }

  lemma AppendAssoc<T>(a: seq<T>, b: seq<T>, c: seq<T>)
    ensures (a + b) + c == a + (b + c)
  {
  }

  lemma ConsOfTail<T>(xs: seq<T>, ys: seq<T>)
    requires xs != []
    ensures [xs[0]] + (xs[1..] + ys) == xs + ys
  {
    assert [xs[0]] + xs[1..] == xs;
  }

  lemma NoNewlineInLines(ws: seq<Worktree>)
    requires forall k :: 0 <= k < |ws| ==> WellFormed(ws[k])
    ensures forall k :: 0 <= k < |PorcelainLines(ws)| ==> '\n' !in PorcelainLines(ws)[k]
  {
    if ws != [] {
      NoNewlineInLines(ws[1..]);
      var w := ws[0];
      assert '\n' !in "worktree " + w.path;
      assert '\n' !in "HEAD " + w.head;
      assert '\n' !in "branch " + BranchPrefix + w.branch;
    }
  }

  /** Parsing what git prints for a list of worktrees gives back those worktrees, in order. */
  lemma PorcelainRoundTrip(ws: seq<Worktree>)
    requires forall k :: 0 <= k < |ws| ==> WellFormed(ws[k])
    ensures ParsePorcelain(Porcelain(ws)) == ws
  {
    var lines := PorcelainLines(ws) + [[]];
    NoNewlineInLines(ws);
    assert forall k :: 0 <= k < |lines| ==> '\n' !in lines[k];
    SplitJoin(lines, '\n');
    ParsePorcelainLines(ws, [[]]);
    assert ParseLines([[]], NewWorktree) == [];
  }

  // ---------------------------------------------------------------- the service

  class GitService {
    var currentRepoPath: string
    /** The directory creations and git runs made so far. */
    var calls: seq<GitCall>

    /** The current directory is the default repository. */
    constructor(currentDirectory: string)
      ensures currentRepoPath == currentDirectory && calls == []
    {
      currentRepoPath := currentDirectory;
      calls := [];
    }

    /** `InitAsync`: after the repository is created, it is the current one. */
    method Init(path: string)
      modifies this
      ensures currentRepoPath == path && calls == old(calls)
    {
      currentRepoPath := path;
    }

    /** `CloneAsync`: after the clone, the local copy is the current repository. */
    method Clone(repositoryUrl: string, localPath: string)
      modifies this
      ensures currentRepoPath == localPath && calls == old(calls)
    {
      currentRepoPath := localPath;
    }

    /**
     * `CreateWorktreeAsync`. `parentDir` is what `Directory.GetParent` gave for
     * the current repository, `started` whether git started, `exitCode` and
     * `stderr` what it returned. An invalid name fails before any call.
     */
    method CreateWorktree(branchName: string, invalidChars: set<char>, parentDir: Option<string>,
                          started: bool, exitCode: int, stderr: string)
      returns (r: Result<(), GitError>)
      modifies this
      ensures currentRepoPath == old(currentRepoPath)
      ensures !ValidBranchName(branchName, invalidChars) ==>
                r == Err(InvalidBranchName(branchName)) && calls == old(calls)
      ensures ValidBranchName(branchName, invalidChars) && parentDir.None? ==>
                r == Err(NoParentDirectory) && calls == old(calls)
      ensures ValidBranchName(branchName, invalidChars) && parentDir.Some? ==>
                var worktreesDir := Combine(parentDir.value, "worktrees");
                var target := Combine(worktreesDir, branchName);
                && calls == old(calls) + [CreateDirectory(worktreesDir),
                                          RunGit(WorktreeAddArguments(branchName, target), currentRepoPath)]
                && r == (if !started then Err(ProcessNotStarted)
                         else if exitCode != 0 then Err(WorktreeAddFailed(stderr))
                         else Ok(()))
    {
      if AllSpace(branchName) || Contains(branchName, "..")
         || exists i :: 0 <= i < |branchName| && branchName[i] in invalidChars {
        return Err(InvalidBranchName(branchName));
      }
      if parentDir.None? {
        return Err(NoParentDirectory);
      }
      var worktreesDir := Combine(parentDir.value, "worktrees");
      calls := calls + [CreateDirectory(worktreesDir)];
      var target := Combine(worktreesDir, branchName);
      calls := calls + [RunGit(WorktreeAddArguments(branchName, target), currentRepoPath)];
      if !started {
        return Err(ProcessNotStarted);
      }
      if exitCode != 0 {
        return Err(WorktreeAddFailed(stderr));
      }
      r := Ok(());
    }

    /**
     * `GetWorktreesAsync`: the `foreach` over the output's lines, building one
     * record at a time.
     */
    method GetWorktrees(started: bool, exitCode: int, output: string) returns (worktrees: seq<Worktree>)
      ensures worktrees == WorktreeList(started, exitCode, output)
    {
      if !started || exitCode != 0 {
        return [];
      }
      var lines := Split(output, '\n');
      worktrees := [];
      var current := NewWorktree;
      var i := 0;
      while i < |lines|
        invariant 0 <= i <= |lines|
        invariant worktrees + ParseLines(lines[i..], current) == ParseLines(lines, NewWorktree)
      {
        ParseLinesStep(lines, i, current);
        if AllSpace(lines[i]) {
          ghost var before := worktrees;
          if current.path != [] {
            worktrees := worktrees + [current];
          }
          assert worktrees == before + Close(current);
          AppendAssoc(before, Close(current), ParseLines(lines[i + 1..], NewWorktree));
          current := NewWorktree;
          i := i + 1;
          continue;
        }
        ghost var previous := current;
        if StartsWith(lines[i], "worktree ") {
          current := current.(path := Trim(lines[i][9..]));
        } else if StartsWith(lines[i], "branch ") {
          current := current.(branch := RemoveAll(Trim(lines[i][7..]), BranchPrefix));
        } else if StartsWith(lines[i], "HEAD ") {
          current := current.(head := Trim(lines[i][5..]));
        }
        assert current == ApplyLine(previous, lines[i]);
        i := i + 1;
      }
      assert lines[i..] == [];
      if current.path != [] {
        worktrees := worktrees + [current];
      }
    }
  }
}
