/**
 * The file-block pattern of the coder agent,
 *
 *     \*\*FILE:\s*(.+?)\*\*\s*```\w*\n(.*?)```      (RegexOptions.Singleline)
 *
 * and the leftmost, non-overlapping scan of `Regex.Matches`.
 *
 * `MatchAt` is the backtracking engine's answer for a match that starts at
 * index 0 of its argument; `Fits` says declaratively which ways of splitting
 * the text satisfy the pattern, and `PreferredOver` is the order in which
 * the engine tries them. `MatchAtCorrect` proves that `MatchAt` returns the
 * most preferred fitting split, and nothing when none fits.
 */
module FileBlocks {
  import opened Text
  import opened Wrappers

  /** Group 1 (the path before `Trim`) and group 2 (the content) of one match. */
  datatype FileBlock = FileBlock(rawPath: string, content: string)

  /**
   * How one match splits the text, counted from the start of the match:
   * `k` characters for the first `\s*`, the path group [7 + k, pe),
   * `j` characters for the second `\s*`, `t` word characters of the fence
   * tag, the content group [ContentStart(pe, j, t), ce) and the closing
   * fence at [ce, ce + 3).
   */
  datatype Span = Span(k: nat, pe: nat, j: nat, t: nat, ce: nat)

  /** The deterministic part after the path group. */
  datatype Tail = Tail(j: nat, t: nat, ce: nat)

  function ContentStart(pe: nat, j: nat, t: nat): nat {
    pe + 2 + j + 3 + t + 1
  }

  predicate FenceAt(s: string, i: int) {
    0 <= i && i + 3 <= |s| && s[i] == '`' && s[i + 1] == '`' && s[i + 2] == '`'
  }

  predicate HasFence(s: string) {
    exists i | 0 <= i <= |s| :: FenceAt(s, i)
  }

  predicate StartsWithMarker(s: string) {
    StartsWith(s, "**FILE:")
  }

  predicate WordBetween(s: string, a: int, b: int)
    requires 0 <= a <= b <= |s|
  {
    forall x {:trigger IsWordChar(s[x])} :: a <= x < b ==> IsWordChar(s[x])
  }

  /** `\*\*\s*```\w*\n(.*?)```` matched from index `pe`, with the given choices. */
  predicate TailFits(s: string, pe: nat, j: nat, t: nat, ce: nat) {
    var q := pe + 2 + j;
    var r := q + 3 + t;
    && pe + 2 <= |s| && s[pe] == '*' && s[pe + 1] == '*'
    && q <= |s| && SpaceBetween(s, pe + 2, q)
    && FenceAt(s, q)
    && r < |s| && WordBetween(s, q + 3, r) && s[r] == '\n'
    && r + 1 <= ce && FenceAt(s, ce)
  }

  /** The whole pattern matched from index 0 with the choices in `m`. */
  predicate Fits(s: string, m: Span) {
    && StartsWithMarker(s)
    && 7 + m.k <= |s| && SpaceBetween(s, 7, 7 + m.k)
    && 7 + m.k < m.pe <= |s|
    && TailFits(s, m.pe, m.j, m.t, m.ce)
  }

  /**
   * The engine's order of trying: the greedy first `\s*` gives characters
   * back only when everything after it fails, the lazy path group grows one
   * character at a time, and so does the lazy content group (the second
   * `\s*` and the `\w*` can succeed in one way only).
   */
  predicate PreferredOver(m: Span, o: Span) {
    || m.k > o.k
    || (m.k == o.k && m.pe < o.pe)
    || (m.k == o.k && m.pe == o.pe && m.j == o.j && m.t == o.t && m.ce <= o.ce)
  }

  function WordRun(s: string, i: nat): (n: nat)
    requires i <= |s|
    ensures i + n <= |s| && WordBetween(s, i, i + n)
    ensures i + n == |s| || !IsWordChar(s[i + n])
    decreases |s| - i
  {
    if i < |s| && IsWordChar(s[i]) then 1 + WordRun(s, i + 1) else 0
  }

  /** Where the lazy content group stops: the first fence at or after `i`. */
  function FirstFence(s: string, i: nat): (r: Option<nat>)
    requires i <= |s|
    ensures r.Some? ==> i <= r.value && FenceAt(s, r.value)
    ensures r.Some? ==> forall x :: i <= x < r.value ==> !FenceAt(s, x)
    ensures r.None? ==> forall x :: i <= x ==> !FenceAt(s, x)
    decreases |s| - i
  {
    if i + 3 > |s| then None
    else if FenceAt(s, i) then Some(i)
    else FirstFence(s, i + 1)
  }

  /** The part of the pattern after the path group, tried with the group ending at `pe`. */
  function TailAt(s: string, pe: nat): (r: Option<Tail>)
    requires pe <= |s|
    ensures r.Some? ==> TailFits(s, pe, r.value.j, r.value.t, r.value.ce)
  {
    if pe + 2 <= |s| && s[pe] == '*' && s[pe + 1] == '*' then
      var j := SpaceRun(s, pe + 2);
      var q := pe + 2 + j;
      if FenceAt(s, q) then
        var t := WordRun(s, q + 3);
        var r := q + 3 + t;
        if r < |s| && s[r] == '\n' then
          match FirstFence(s, r + 1)
          case Some(ce) => Some(Tail(j, t, ce))
          case None => None
        else None
      else None
    else None
  }

  /** The lazy path group: the shortest end at or after `from` for which the rest matches. */
  function SearchGroup(s: string, from: nat): (r: Option<nat>)
    requires from <= |s| + 1
    ensures r.Some? ==> from <= r.value <= |s| && TailAt(s, r.value).Some?
    decreases |s| + 1 - from
  {
    if from > |s| then None
    else if TailAt(s, from).Some? then Some(from)
    else SearchGroup(s, from + 1)
  }

  /** The content group of a tail stops before the first fence. */
  lemma TailAtNoFence(s: string, pe: nat)
    requires pe <= |s| && TailAt(s, pe).Some?
    ensures var tl := TailAt(s, pe).value;
            forall x :: ContentStart(pe, tl.j, tl.t) <= x < tl.ce ==> !FenceAt(s, x)
  {
  }

  /** The lazy group takes the first end that works: no end before it, and none at all when it finds nothing. */
  lemma {:induction false} SearchGroupFirst(s: string, from: nat)
    requires from <= |s| + 1
    ensures SearchGroup(s, from).Some? ==> forall x :: from <= x < SearchGroup(s, from).value ==> TailAt(s, x).None?
    ensures SearchGroup(s, from).None? ==> forall x :: from <= x <= |s| ==> TailAt(s, x).None?
    decreases |s| + 1 - from
  {
    if from <= |s| && TailAt(s, from).None? {
      assert SearchGroup(s, from) == SearchGroup(s, from + 1);
      SearchGroupFirst(s, from + 1);
    }
  }

  /**
   * The match the engine finds when it starts at index 0. The first `\s*`
   * takes the whole run of whitespace; if no path end works, it gives back
   * one character, which makes that single whitespace character the path
   * group, and that can only succeed when `**` follows the run at once.
   */
  function MatchAt(s: string): (r: Option<Span>)
    ensures r.Some? ==> Fits(s, r.value)
    ensures r.Some? ==> r.value.ce + 3 <= |s|
  {
    if !StartsWithMarker(s) then None
    else
      var w := SpaceRun(s, 7);
      match SearchGroup(s, 7 + w + 1)
      case Some(pe) =>
        var tl := TailAt(s, pe).value;
        Some(Span(w, pe, tl.j, tl.t, tl.ce))
      case None =>
        if w > 0 && TailAt(s, 7 + w).Some? then
          var tl := TailAt(s, 7 + w).value;
          Some(Span(w - 1, 7 + w, tl.j, tl.t, tl.ce))
        else None
  }

  /** The content group of the engine's match holds no fence. */
  lemma MatchAtNoFence(s: string)
    requires MatchAt(s).Some?
    ensures var m := MatchAt(s).value;
            forall x :: ContentStart(m.pe, m.j, m.t) <= x < m.ce ==> !FenceAt(s, x)
  {
    var w := SpaceRun(s, 7);
    match SearchGroup(s, 7 + w + 1)
    case Some(pe) => TailAtNoFence(s, pe);
    case None => TailAtNoFence(s, 7 + w);
  }

  /** The choices after the path group are forced, and the content stops at the first fence. */
  lemma TailAtComplete(s: string, pe: nat, j: nat, t: nat, ce: nat)
    requires pe <= |s|
    requires TailFits(s, pe, j, t, ce)
    ensures TailAt(s, pe).Some?
    ensures TailAt(s, pe).value.j == j && TailAt(s, pe).value.t == t
    ensures TailAt(s, pe).value.ce <= ce
  {
    var j0 := SpaceRun(s, pe + 2);
    assert pe + 2 + j < |s| && !IsSpace(s[pe + 2 + j]);
    assert j0 == j;
    var q := pe + 2 + j;
    var t0 := WordRun(s, q + 3);
    assert !IsWordChar(s[q + 3 + t]);
    assert t0 == t;
    var ff := FirstFence(s, q + 3 + t + 1);
    assert ff.Some? && ff.value <= ce;
  }

  /** The first `\s*` takes no more than the whitespace run after the marker. */
  lemma FitsWithinRun(s: string, o: Span)
    requires Fits(s, o)
    ensures o.k <= SpaceRun(s, 7)
  {
    var w := SpaceRun(s, 7);
    assert 7 + w < |s| ==> !IsSpace(s[7 + w]);
  }

  /** A fitting split whose path group ends inside the whitespace run ends right after it. */
  lemma FitsEndAfterRun(s: string, o: Span)
    requires Fits(s, o)
    requires o.pe < 8 + SpaceRun(s, 7)
    ensures o.pe == 7 + SpaceRun(s, 7)
  {
    var w := SpaceRun(s, 7);
    assert s[o.pe] == '*';
    assert o.pe < 7 + w ==> IsSpace(s[o.pe]);
  }

  /** When some path end after the whole whitespace run works, the engine takes the first one. */
  lemma PreferredWithFullRun(s: string, o: Span, pe: nat)
    requires Fits(s, o)
    requires SearchGroup(s, 8 + SpaceRun(s, 7)) == Some(pe)
    ensures MatchAt(s).Some? && PreferredOver(MatchAt(s).value, o)
  {
    var w := SpaceRun(s, 7);
    var tl := TailAt(s, pe).value;
    SearchGroupFirst(s, 8 + w);
    assert MatchAt(s) == Some(Span(w, pe, tl.j, tl.t, tl.ce));
    FitsWithinRun(s, o);
    TailAtComplete(s, o.pe, o.j, o.t, o.ce);
    if o.k == w {
      assert pe <= o.pe;
    }
  }

  /** Otherwise only the split that gives one whitespace character back can fit. */
  lemma PreferredWithShortRun(s: string, o: Span)
    requires Fits(s, o)
    requires SearchGroup(s, 8 + SpaceRun(s, 7)).None?
    ensures MatchAt(s).Some? && PreferredOver(MatchAt(s).value, o)
  {
    var w := SpaceRun(s, 7);
    ShortRunEnd(s, o);
    TailAtComplete(s, o.pe, o.j, o.t, o.ce);
    var tl := TailAt(s, 7 + w).value;
    assert MatchAt(s) == Some(Span(w - 1, 7 + w, tl.j, tl.t, tl.ce));
  }

  /** With no path end after the whole run, a fitting split ends its path group right after the run. */
  lemma ShortRunEnd(s: string, o: Span)
    requires Fits(s, o)
    requires SearchGroup(s, 8 + SpaceRun(s, 7)).None?
    ensures o.pe == 7 + SpaceRun(s, 7) && o.k < SpaceRun(s, 7)
  {
    var w := SpaceRun(s, 7);
    TailAtComplete(s, o.pe, o.j, o.t, o.ce);
    SearchGroupFirst(s, 8 + w);
    assert o.pe < 8 + w;
    FitsEndAfterRun(s, o);
  }

  lemma MatchAtPreferred(s: string, o: Span)
    requires Fits(s, o)
    ensures MatchAt(s).Some? && PreferredOver(MatchAt(s).value, o)
  {
    var w := SpaceRun(s, 7);
    match SearchGroup(s, 8 + w)
    case Some(pe) => PreferredWithFullRun(s, o, pe);
    case None => PreferredWithShortRun(s, o);
  }

  /** `MatchAt` is the most preferred way to fit the pattern, and is absent exactly when nothing fits. */
  lemma MatchAtCorrect(s: string)
    ensures MatchAt(s).Some? ==> forall o :: Fits(s, o) ==> PreferredOver(MatchAt(s).value, o)
    ensures MatchAt(s).None? ==> forall o :: !Fits(s, o)
  {
    forall o | Fits(s, o)
      ensures MatchAt(s).Some? && PreferredOver(MatchAt(s).value, o)
    {
      MatchAtPreferred(s, o);
    }
  }

  /** The path group of a match. */
  function PathGroup(s: string, m: Span): string
    requires Fits(s, m)
  {
    s[7 + m.k..m.pe]
  }

  /** The content group of a match. */
  function ContentGroup(s: string, m: Span): string
    requires Fits(s, m)
  {
    s[ContentStart(m.pe, m.j, m.t)..m.ce]
  }

  lemma NoFenceInSlice(s: string, a: nat, b: nat)
    requires a <= b <= |s|
    requires forall x :: a <= x < b ==> !FenceAt(s, x)
    ensures !HasFence(s[a..b])
  {
    if HasFence(s[a..b]) {
      var i :| 0 <= i <= |s[a..b]| && FenceAt(s[a..b], i);
      assert FenceAt(s, a + i);
    }
  }

  /**
   * `Regex.Matches`: scan left to right; where a match starts, take it and
   * resume after its closing fence, otherwise try the next index. Every
   * content group stops before the first closing fence, so none holds one.
   */
  function Matches(s: string): (r: seq<FileBlock>)
    ensures forall i :: 0 <= i < |r| ==> !HasFence(r[i].content)
    ensures forall i :: 0 <= i < |r| ==> |r[i].rawPath| >= 1
    decreases |s|
  {
    match MatchAt(s)
    case Some(m) =>
      MatchAtNoFence(s);
      NoFenceInSlice(s, ContentStart(m.pe, m.j, m.t), m.ce);
      [FileBlock(PathGroup(s, m), ContentGroup(s, m))] + Matches(s[m.ce + 3..])
    case None => if s == [] then [] else Matches(s[1..])
  }

  // ---------------------------------------------------------------------
  // Rendering blocks in the format the coder's prompt asks for.

  /** One block as the prompt asks for it: a marker line and a fenced code block. */
  function Render(path: string, tag: string, content: string): string {
    "**FILE: " + path + "**\n```" + tag + "\n" + content + "```"
  }

  /** No two consecutive `*`: the lazy path group cannot stop inside the path. */
  predicate NoDoubleStar(p: string) {
    forall i :: 0 <= i < |p| - 1 ==> !(p[i] == '*' && p[i + 1] == '*')
  }

  /**
   * A block that the pattern reads back as written: a non-empty trimmed path
   * without `**`, a tag of word characters, and content in which the first
   * fence is the closing one (no ``` inside, and no trailing backquote that
   * would join the closing fence).
   */
  predicate WellFormed(path: string, tag: string, content: string) {
    && |path| >= 1 && IsTrimmed(path) && NoDoubleStar(path)
    && AllWord(tag)
    && !HasFence(content + "``")
  }

  lemma WordRunIs(s: string, i: nat, n: nat)
    requires i + n <= |s| && WordBetween(s, i, i + n)
    requires i + n == |s| || !IsWordChar(s[i + n])
    ensures WordRun(s, i) == n
    decreases n
  {
    if n > 0 {
      WordRunIs(s, i + 1, n - 1);
    }
  }

  lemma FirstFenceIs(s: string, i: nat, f: nat)
    requires i <= f && FenceAt(s, f)
    requires forall x :: i <= x < f ==> !FenceAt(s, x)
    ensures FirstFence(s, i) == Some(f)
    decreases f - i
  {
    if i < f {
      FirstFenceIs(s, i + 1, f);
    }
  }

  lemma SearchGroupIs(s: string, from: nat, pe: nat)
    requires from <= pe <= |s| && TailAt(s, pe).Some?
    requires forall x :: from <= x < pe ==> TailAt(s, x).None?
    ensures SearchGroup(s, from) == Some(pe)
    decreases pe - from
  {
    if from < pe {
      SearchGroupIs(s, from + 1, pe);
    }
  }

  /** Where each part of a rendered block lies. */
  lemma RenderLayout(p: string, tag: string, c: string, rest: string)
    ensures var s := Render(p, tag, c) + rest;
            var L, T, C := |p|, |tag|, |c|;
            && |s| == 18 + L + T + C + |rest|
            && s[..7] == "**FILE:" && s[7] == ' '
            && (forall i :: 0 <= i < L ==> s[8 + i] == p[i])
            && s[8 + L] == '*' && s[9 + L] == '*' && s[10 + L] == '\n'
            && s[11 + L] == '`' && s[12 + L] == '`' && s[13 + L] == '`'
            && (forall i :: 0 <= i < T ==> s[14 + L + i] == tag[i])
            && s[14 + L + T] == '\n'
            && (forall i :: 0 <= i < C + 2 ==> s[15 + L + T + i] == (c + "``")[i])
            && s[17 + L + T + C] == '`'
            && s[8..8 + L] == p
            && s[15 + L + T..15 + L + T + C] == c
            && s[18 + L + T + C..] == rest
  {
    var s := Render(p, tag, c) + rest;
    var L, T, C := |p|, |tag|, |c|;
    assert s == "**FILE: " + p + "**\n```" + tag + "\n" + c + "```" + rest;
    assert s[8..8 + L] == p;
    assert s[15 + L + T..15 + L + T + C] == c;
    assert s[18 + L + T + C..] == rest;
  }

  /** The tail after a path group that ends at `pe`, laid out as `Render` writes it. */
  lemma TailAtRendered(s: string, pe: nat, T: nat, ce: nat)
    requires pe + 7 + T <= ce && ce + 3 <= |s|
    requires s[pe] == '*' && s[pe + 1] == '*' && s[pe + 2] == '\n'
    requires FenceAt(s, pe + 3)
    requires WordBetween(s, pe + 6, pe + 6 + T) && s[pe + 6 + T] == '\n'
    requires forall x :: pe + 7 + T <= x < ce ==> !FenceAt(s, x)
    requires FenceAt(s, ce)
    ensures TailAt(s, pe) == Some(Tail(1, T, ce))
  {
    SpaceRunIs(s, pe + 2, 1);
    WordRunIs(s, pe + 6, T);
    FirstFenceIs(s, pe + 7 + T, ce);
  }

  /** No path end before `pe` works when the text up to `pe` has no `**` and `**` sits at `pe`. */
  lemma NoTailBefore(s: string, from: nat, pe: nat)
    requires from <= pe && pe + 2 <= |s|
    requires s[pe] == '*' && s[pe + 1] == '*'
    requires forall x :: from <= x < pe - 1 ==> !(s[x] == '*' && s[x + 1] == '*')
    ensures forall x :: from <= x < pe ==> TailAt(s, x).None?
  {
    forall x | from <= x < pe
      ensures TailAt(s, x).None?
    {
      if x == pe - 1 && s[x] == '*' {
        SpaceRunIs(s, x + 2, 0);
      }
    }
  }

  /** Where the engine's match lies in a rendered well-formed block. */
  lemma MatchAtRendered(p: string, tag: string, c: string, rest: string)
    requires WellFormed(p, tag, c)
    ensures MatchAt(Render(p, tag, c) + rest) == Some(Span(1, 8 + |p|, 1, |tag|, 15 + |p| + |tag| + |c|))
  {
    var s := Render(p, tag, c) + rest;
    var L, T, C := |p|, |tag|, |c|;
    RenderLayout(p, tag, c, rest);
    var pe := 8 + L;
    var ce := 15 + L + T + C;
    assert FenceAt(s, pe + 3);
    assert FenceAt(s, ce);
    forall x | pe + 7 + T <= x < ce
      ensures !FenceAt(s, x)
    {
      var y := x - (15 + L + T);
      var d := c + "``";
      assert !FenceAt(d, y);
      assert s[x] == d[y] && s[x + 1] == d[y + 1] && s[x + 2] == d[y + 2];
    }
    TailAtRendered(s, pe, T, ce);
    forall x | 9 <= x < pe - 1
      ensures !(s[x] == '*' && s[x + 1] == '*')
    {
      assert s[x] == p[x - 8] && s[x + 1] == p[x - 7];
    }
    NoTailBefore(s, 9, pe);
    SearchGroupIs(s, 9, pe);
    assert StartsWithMarker(s);
    SpaceRunIs(s, 7, 1);
  }

  /** One step of the scan at a match. */
  lemma {:induction false} MatchesAt(s: string, m: Span)
    requires MatchAt(s) == Some(m)
    ensures Matches(s) == [FileBlock(PathGroup(s, m), ContentGroup(s, m))] + Matches(s[m.ce + 3..])
  {
  }

  /** A well-formed block at the front is read back exactly, and scanning resumes after it. */
  lemma {:induction false} MatchesRenderedBlock(p: string, tag: string, c: string, rest: string)
    requires WellFormed(p, tag, c)
    ensures Matches(Render(p, tag, c) + rest) == [FileBlock(p, c)] + Matches(rest)
  {
    var s := Render(p, tag, c) + rest;
    var m := Span(1, 8 + |p|, 1, |tag|, 15 + |p| + |tag| + |c|);
    MatchAtRendered(p, tag, c, rest);
    MatchesAt(s, m);
    RenderLayout(p, tag, c, rest);
    assert PathGroup(s, m) == p;
    assert ContentGroup(s, m) == c;
    assert s[m.ce + 3..] == rest;
  }

  /** The round trip: rendered well-formed blocks are read back in order. */
  function RenderAll(blocks: seq<(string, string, string)>): string {
    if blocks == [] then [] else Render(blocks[0].0, blocks[0].1, blocks[0].2) + RenderAll(blocks[1..])
  }

  lemma {:induction false} MatchesRenderAll(blocks: seq<(string, string, string)>)
    requires forall i :: 0 <= i < |blocks| ==> WellFormed(blocks[i].0, blocks[i].1, blocks[i].2)
    ensures |Matches(RenderAll(blocks))| == |blocks|
    ensures forall i :: 0 <= i < |blocks| ==>
              Matches(RenderAll(blocks))[i] == FileBlock(blocks[i].0, blocks[i].2)
  {
    if blocks != [] {
      MatchesRenderAll(blocks[1..]);
      MatchesRenderedBlock(blocks[0].0, blocks[0].1, blocks[0].2, RenderAll(blocks[1..]));
    }
  }

  // ---------------------------------------------------------------------
  // Text that does not form a block.

  /** Without a marker anywhere, nothing matches. */
  lemma {:induction false} MatchesWithoutMarker(s: string)
    requires forall i :: 0 <= i <= |s| ==> !StartsWithMarker(s[i..])
    ensures Matches(s) == []
    decreases |s|
  {
    if s != [] {
      assert !StartsWithMarker(s[0..]) && s[0..] == s;
      forall i | 0 <= i <= |s[1..]|
        ensures !StartsWithMarker(s[1..][i..])
      {
        assert s[1..][i..] == s[i + 1..];
      }
      MatchesWithoutMarker(s[1..]);
    }
  }

  /** In a rendered block whose parts hold no `*`, stars sit only in the marker and after the path. */
  lemma StarsOfRendered(p: string, tag: string, c: string)
    requires '*' !in p && '*' !in tag && '*' !in c
    ensures var s := Render(p, tag, c);
            forall i :: 2 <= i < |s| && i != 8 + |p| && i != 9 + |p| ==> s[i] != '*'
  {
    var s := Render(p, tag, c);
    var L, T, C := |p|, |tag|, |c|;
    RenderLayout(p, tag, c, []);
    assert s + [] == s;
    forall i | 2 <= i < |s| && i != 8 + L && i != 9 + L
      ensures s[i] != '*'
    {
      if i < 7 {
        assert s[i] == s[..7][i];
      } else if 8 <= i < 8 + L {
        assert s[i] == p[i - 8];
      } else if 14 + L <= i < 14 + L + T {
        assert s[i] == tag[i - 14 - L];
      } else if 15 + L + T <= i < 15 + L + T + C {
        assert s[i] == c[i - 15 - L - T];
      }
    }
  }

  /** The tail after `pe` fails when the word run of the fence tag is not followed by a newline. */
  lemma BadTagNoTailAt(s: string, pe: nat, b: nat)
    requires pe + 6 + b < |s|
    requires s[pe] == '*' && s[pe + 1] == '*' && s[pe + 2] == '\n'
    requires s[pe + 3] == '`' && s[pe + 4] == '`' && s[pe + 5] == '`'
    requires WordBetween(s, pe + 6, pe + 6 + b)
    requires !IsWordChar(s[pe + 6 + b]) && s[pe + 6 + b] != '\n'
    ensures TailAt(s, pe).None?
  {
    SpaceRunIs(s, pe + 2, 1);
    WordRunIs(s, pe + 6, b);
  }

  /** The tail after the path fails when the tag holds a character that is neither a word character nor a newline. */
  lemma BadTagNoTail(p: string, tag: string, c: string, b: nat)
    requires b < |tag| && !IsWordChar(tag[b]) && tag[b] != '\n'
    requires forall i :: 0 <= i < b ==> IsWordChar(tag[i])
    ensures TailAt(Render(p, tag, c), 8 + |p|).None?
  {
    var s := Render(p, tag, c);
    BadTagLayout(p, tag, c, b);
    BadTagNoTailAt(s, 8 + |p|, b);
  }

  /** Where the bad tag character lies in the rendered block. */
  lemma BadTagLayout(p: string, tag: string, c: string, b: nat)
    requires b < |tag| && !IsWordChar(tag[b]) && tag[b] != '\n'
    requires forall i :: 0 <= i < b ==> IsWordChar(tag[i])
    ensures var s, pe := Render(p, tag, c), 8 + |p|;
            && pe + 6 + b < |s|
            && s[pe] == '*' && s[pe + 1] == '*' && s[pe + 2] == '\n'
            && s[pe + 3] == '`' && s[pe + 4] == '`' && s[pe + 5] == '`'
            && WordBetween(s, pe + 6, pe + 6 + b)
            && !IsWordChar(s[pe + 6 + b]) && s[pe + 6 + b] != '\n'
  {
    var s := Render(p, tag, c);
    var L := |p|;
    RenderLayout(p, tag, c, []);
    assert s + [] == s;
    forall i | 14 + L <= i < 14 + L + b
      ensures IsWordChar(s[i])
    {
      assert s[i] == tag[i - 14 - L];
    }
    assert s[14 + L + b] == tag[b];
  }

  /** With a bad tag and no stars in the parts, no path end after the marker has a tail. */
  lemma BadTagNoTailAnywhere(p: string, tag: string, c: string, b: nat)
    requires '*' !in p && '*' !in tag && '*' !in c
    requires b < |tag| && !IsWordChar(tag[b]) && tag[b] != '\n'
    requires forall i :: 0 <= i < b ==> IsWordChar(tag[i])
    ensures var s := Render(p, tag, c);
            forall x :: 8 <= x <= |s| ==> TailAt(s, x).None?
  {
    var s := Render(p, tag, c);
    StarsOfRendered(p, tag, c);
    BadTagNoTail(p, tag, c, b);
    forall x | 8 <= x <= |s|
      ensures TailAt(s, x).None?
    {
      if x != 8 + |p| && x + 2 <= |s| {
        assert s[x] != '*' || s[x + 1] != '*';
      }
    }
  }

  /** The scan finds nothing in a text whose only marker is at index 0 and does not match there. */
  lemma MatchesOnlyMarkerAtStart(s: string)
    requires s != [] && MatchAt(s).None?
    requires forall i :: 1 <= i <= |s| ==> !StartsWithMarker(s[i..])
    ensures Matches(s) == []
  {
    forall i | 0 <= i <= |s[1..]|
      ensures !StartsWithMarker(s[1..][i..])
    {
      assert s[1..][i..] == s[i + 1..];
    }
    MatchesWithoutMarker(s[1..]);
  }

  /** A rendered block holds a marker only at its start. */
  lemma RenderedMarkerOnlyAtStart(p: string, tag: string, c: string)
    requires '*' !in p && '*' !in tag && '*' !in c
    ensures var s := Render(p, tag, c);
            forall i :: 1 <= i <= |s| ==> !StartsWithMarker(s[i..])
  {
    var s := Render(p, tag, c);
    var L := |p|;
    RenderLayout(p, tag, c, []);
    assert s + [] == s;
    StarsOfRendered(p, tag, c);
    forall i | 1 <= i <= |s|
      ensures !StartsWithMarker(s[i..])
    {
      if i + 7 <= |s| {
        if i == 1 {
          assert s[2] == s[..7][2];
          assert s[i..][1] == s[2];
        } else if i == 8 + L || i == 9 + L {
          assert s[i..][1] == s[i + 1] && s[i..][2] == s[i + 2];
        } else {
          assert s[i..][0] == s[i];
        }
      }
    }
  }

  /**
   * An opening fence whose tag holds a character other than a word
   * character or a newline (a `c++` tag, a trailing space, the `\r` of a
   * CRLF line end) does not open a block: the lone block is not found.
   */
  lemma BadTagNoBlock(p: string, tag: string, c: string, b: nat)
    requires |p| >= 1 && !IsSpace(p[0])
    requires '*' !in p && '*' !in tag && '*' !in c
    requires b < |tag| && !IsWordChar(tag[b]) && tag[b] != '\n'
    requires forall i :: 0 <= i < b ==> IsWordChar(tag[i])
    ensures Matches(Render(p, tag, c)) == []
  {
    var s := Render(p, tag, c);
    RenderLayout(p, tag, c, []);
    assert s + [] == s;
    SpaceRunIs(s, 7, 1);
    BadTagNoTailAnywhere(p, tag, c, b);
    assert SearchGroup(s, 9).None?;
    assert MatchAt(s).None?;
    RenderedMarkerOnlyAtStart(p, tag, c);
    MatchesOnlyMarkerAtStart(s);
  }
}
