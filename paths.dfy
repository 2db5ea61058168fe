// Unix paths as the workspace guard sees them: `Path.Combine` and
// `Path.GetFullPath` on '/'-separated text.

module Paths {
  import opened Text

  predicate IsAbsolute(p: string) {
    |p| > 0 && p[0] == '/'
  }

  /**
   * `Path.Combine(a, b)`: an empty part gives the other, a rooted `b`
   * replaces `a`, otherwise one separator goes between them.
   */
  function Combine(a: string, b: string): (r: string)
    ensures IsAbsolute(a) ==> IsAbsolute(r)
    ensures IsAbsolute(b) ==> r == b
  {
    if b == [] then a
    else if a == [] then b
    else if b[0] == '/' then b
    else if a[|a| - 1] == '/' then a + b
    else a + "/" + b
  }

  /** A segment that names a directory entry: not empty, not "." or "..", no separator. */
  predicate IsName(s: string) {
    s != [] && s != "." && s != ".." && '/' !in s
  }

  predicate AllNames(segs: seq<string>) {
    forall k :: 0 <= k < |segs| ==> IsName(segs[k])
  }

  /** One step of normalisation: empty and "." segments vanish, ".." drops the last name (none past the root). */
  function Step(acc: seq<string>, s: string): seq<string> {
    if s == [] || s == "." then acc
    else if s == ".." then (if acc == [] then [] else acc[..|acc| - 1])
    else acc + [s]
  }

  /** The names left after normalising `segs`, starting from the names `acc`. */
  function Resolve(acc: seq<string>, segs: seq<string>): (r: seq<string>)
    requires AllNames(acc)
    requires forall k :: 0 <= k < |segs| ==> '/' !in segs[k]
    ensures AllNames(r)
    decreases |segs|
  {
    if segs == [] then acc else Resolve(Step(acc, segs[0]), segs[1..])
  }

  /** "/a/b/c" for ["a", "b", "c"]; the root alone for no names. */
  function Render(names: seq<string>): (r: string)
    ensures IsAbsolute(r)
  {
    if names == [] then "/" else RenderNames(names)
  }

  function RenderNames(names: seq<string>): (r: string)
    ensures names != [] ==> IsAbsolute(r)
  {
    if names == [] then [] else "/" + names[0] + RenderNames(names[1..])
  }

  /** `Path.GetFullPath` of an absolute path: the rendering of its resolved names. */
  function FullPath(p: string): string
    requires IsAbsolute(p)
  {
    Render(Resolve([], Split(p, '/')))
  }

  // ---------------------------------------------------------------- lemmas

  lemma {:induction false} RenderNamesAppend(a: seq<string>, b: seq<string>)
    ensures RenderNames(a + b) == RenderNames(a) + RenderNames(b)
  {
    if a != [] {
      assert (a + b)[1..] == a[1..] + b;
      RenderNamesAppend(a[1..], b);
    } else {
      assert a + b == b;
    }
  }

  lemma SplitSepFirst(b: string, sep: char)
    ensures Split([sep] + b, sep) == [[]] + Split(b, sep)
  {
    assert ([sep] + b)[1..] == b;
  }

  /** The text of rendered names splits back into the empty piece before the root separator and the names. */
  lemma {:induction false} SplitRenderNames(names: seq<string>)
    requires names != [] && AllNames(names)
    ensures Split(RenderNames(names), '/') == [[]] + names
  {
    var n := names[0];
    var rest := RenderNames(names[1..]);
    assert RenderNames(names) == ['/'] + (n + rest);
    SplitSepFirst(n + rest, '/');
    if |names| == 1 {
      assert n + rest == n;
      SplitNoSep(n, '/');
    } else {
      SplitRenderNames(names[1..]);
      assert rest == ['/'] + rest[1..];
      SplitSepFirst(rest[1..], '/');
      assert n + rest == n + ['/'] + rest[1..];
      assert Split(rest[1..], '/') == Split(rest, '/')[1..] == names[1..];
      SplitAppendPiece(n, rest[1..], '/');
      assert Split(n + rest, '/') == [n] + names[1..];
      assert [[]] + ([n] + names[1..]) == [[]] + names;
    }
  }

  lemma {:induction false} ResolveNames(acc: seq<string>, names: seq<string>)
    requires AllNames(acc) && AllNames(names)
    ensures Resolve(acc, names) == acc + names
    decreases |names|
  {
    if names == [] {
      assert acc + names == acc;
    } else {
      ResolveNames(acc + [names[0]], names[1..]);
      assert acc + [names[0]] + names[1..] == acc + names;
    }
  }

  /** The names of a normal path are read back from its text. */
  lemma ResolveRender(names: seq<string>)
    requires AllNames(names)
    ensures Resolve([], Split(Render(names), '/')) == names
  {
    if names == [] {
      assert Split("/", '/') == [[], []];
    } else {
      assert Render(names) == RenderNames(names);
      SplitRenderNames(names);
      assert ([[]] + names)[1..] == names;
      ResolveNames([], names);
      assert Resolve([], [[]] + names) == Resolve([], names) == names;
    }
  }

  /** Normalising a normal path changes nothing. */
  lemma FullPathOfRender(names: seq<string>)
    requires AllNames(names)
    ensures FullPath(Render(names)) == Render(names)
  {
    ResolveRender(names);
  }

  /** Normalisation is idempotent. */
  lemma FullPathIdempotent(p: string)
    requires IsAbsolute(p)
    ensures IsAbsolute(FullPath(p))
    ensures FullPath(FullPath(p)) == FullPath(p)
  {
    FullPathOfRender(Resolve([], Split(p, '/')));
  }

  /** A "." segment never survives normalisation, nor does a ".." or an empty one. */
  lemma FullPathHasOnlyNames(p: string)
    requires IsAbsolute(p)
    ensures exists names :: AllNames(names) && FullPath(p) == Render(names)
  {
    var names := Resolve([], Split(p, '/'));
    assert AllNames(names) && FullPath(p) == Render(names);
  }

  /** Rendered names followed by a separator and more text split into the names and the pieces of the text. */
  lemma {:induction false} SplitRenderNamesThen(names: seq<string>, t: string)
    requires names != [] && AllNames(names)
    ensures Split(RenderNames(names) + ['/'] + t, '/') == [[]] + names + Split(t, '/')
    decreases |names|, 2
  {
    var n := names[0];
    var rest := RenderNames(names[1..]) + ['/'] + t;
    assert RenderNames(names) + ['/'] + t == ['/'] + (n + rest);
    SplitSepFirst(n + rest, '/');
    SplitNameThen(names, t);
    assert [[]] + (names + Split(t, '/')) == [[]] + names + Split(t, '/');
  }

  /** The step of `SplitRenderNamesThen` after the leading separator. */
  lemma {:induction false} SplitNameThen(names: seq<string>, t: string)
    requires names != [] && AllNames(names)
    ensures Split(names[0] + (RenderNames(names[1..]) + ['/'] + t), '/') == names + Split(t, '/')
    decreases |names|, 1
  {
    var n := names[0];
    var rest := RenderNames(names[1..]) + ['/'] + t;
    if |names| == 1 {
      assert n + rest == n + ['/'] + t;
      SplitAppendPiece(n, t, '/');
    } else {
      SplitRestThen(names, t);
      SplitFirstName(n, rest, names[1..] + Split(t, '/'));
      assert [n] + (names[1..] + Split(t, '/')) == names + Split(t, '/') by {
        assert names == [n] + names[1..];
      }
    }
  }

  /** A name followed by text that starts with a separator splits off as the first piece. */
  lemma SplitFirstName(n: string, rest: string, pieces: seq<string>)
    requires '/' !in n && |rest| > 0 && rest[0] == '/' && Split(rest[1..], '/') == pieces
    ensures Split(n + rest, '/') == [n] + pieces
  {
    assert rest == ['/'] + rest[1..];
    assert n + rest == n + ['/'] + rest[1..];
    SplitAppendPiece(n, rest[1..], '/');
  }

  /** The text after the first name's separator splits into the other names and the pieces of `t`. */
  lemma {:induction false} SplitRestThen(names: seq<string>, t: string)
    requires |names| > 1 && AllNames(names)
    ensures var rest := RenderNames(names[1..]) + ['/'] + t;
            |rest| > 0 && rest[0] == '/' && Split(rest[1..], '/') == names[1..] + Split(t, '/')
    decreases |names|, 0
  {
    var rest := RenderNames(names[1..]) + ['/'] + t;
    var ts := Split(t, '/');
    SplitRenderNamesThen(names[1..], t);
    assert rest == ['/'] + rest[1..];
    SplitSepFirst(rest[1..], '/');
    assert Split(rest, '/')[1..] == Split(rest[1..], '/');
    assert ([[]] + names[1..] + ts)[1..] == names[1..] + ts;
  }

  /** The rendering of names never ends in a separator unless it is the root. */
  lemma RenderNotSlashEnded(names: seq<string>)
    requires names != [] && AllNames(names)
    ensures Render(names)[|Render(names)| - 1] != '/'
  {
    var k := |names| - 1;
    assert names == names[..k] + [names[k]];
    RenderNamesAppend(names[..k], [names[k]]);
    assert RenderNames([names[k]]) == "/" + names[k];
    assert names[k][|names[k]| - 1] in names[k];
  }
}
