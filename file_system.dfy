// `FileSystemService`: every operation goes through the workspace guard,
// which normalises the combined path and accepts it when its text starts
// with the workspace root, compared case-insensitively.

module FileSystem {
  import opened Wrappers
  import opened Text
  import opened Paths

  datatype FsError = AccessDenied | NotFound

  /** `GetSecurePath`: the normalised path under the root, or access denied. */
  function SecurePath(root: string, path: string): (r: Result<string, FsError>)
    requires IsAbsolute(root)
    ensures r.Ok? ==> IsAbsolute(r.value) && FullPath(r.value) == r.value
    ensures r.Ok? <==> StartsWithIgnoreCase(FullPath(Combine(root, path)), root)
  {
    var full := FullPath(Combine(root, path));
    FullPathIdempotent(Combine(root, path));
    if StartsWithIgnoreCase(full, root) then Ok(full) else Err(AccessDenied)
  }

  /** `Path.GetDirectoryName` of a normal path: its parent, none for the root. */
  function DirectoryName(full: string): Option<string>
    requires IsAbsolute(full)
  {
    var names := Resolve([], Split(full, '/'));
    if names == [] then None else Some(Render(names[..|names| - 1]))
  }

  /** The directories `Directory.CreateDirectory` makes sure exist: the path and all its ancestors. */
  function DirsOf(p: string): set<string>
    requires IsAbsolute(p)
  {
    var names := Resolve([], Split(p, '/'));
    set k | 0 <= k <= |names| :: Render(names[..k])
  }

  /** A normal path is among the directories its creation adds. */
  lemma InOwnDirs(p: string)
    requires IsAbsolute(p) && FullPath(p) == p
    ensures p in DirsOf(p)
  {
    var names := Resolve([], Split(p, '/'));
    assert names[..|names|] == names;
  }

  predicate IsUnder(f: string, dir: string) {
    if dir == "/" then f != "/" else StartsWith(f, dir + "/")
  }

  /** A path whose pieces are all names is relative and not empty. */
  lemma NamesPathIsRelative(path: string)
    requires AllNames(Split(path, '/'))
    ensures path != [] && path[0] != '/'
  {
    assert IsName(Split(path, '/')[0]);
  }

  lemma CombineUnderRoot(rootNames: seq<string>, path: string)
    requires rootNames != [] && AllNames(rootNames)
    requires AllNames(Split(path, '/'))
    ensures Combine(Render(rootNames), path) == RenderNames(rootNames) + ['/'] + path
  {
    NamesPathIsRelative(path);
    RenderNotSlashEnded(rootNames);
  }

  lemma FullPathUnderRoot(rootNames: seq<string>, path: string)
    requires rootNames != [] && AllNames(rootNames)
    requires AllNames(Split(path, '/'))
    ensures IsAbsolute(Combine(Render(rootNames), path))
    ensures FullPath(Combine(Render(rootNames), path)) == Render(rootNames) + RenderNames(Split(path, '/'))
  {
    var ps := Split(path, '/');
    var c := Combine(Render(rootNames), path);
    CombineUnderRoot(rootNames, path);
    var segs := Split(c, '/');
    assert segs == [[]] + rootNames + ps by {
      SplitRenderNamesThen(rootNames, path);
    }
    assert segs[1..] == rootNames + ps;
    assert Resolve([], segs) == Resolve([], rootNames + ps);
    ResolveNames([], rootNames + ps);
    assert Render(rootNames + ps) == Render(rootNames) + RenderNames(ps) by {
      RenderNamesAppend(rootNames, ps);
    }
    assert [] + (rootNames + ps) == rootNames + ps;
    assert Resolve([], segs) == rootNames + ps;
    assert FullPath(c) == Render(Resolve([], segs));
    assert FullPath(c) == Render(rootNames + ps);
  }

  /**
   * A relative path made of plain names lands inside the root: the guard
   * accepts it and returns the root followed by the path's own names.
   */
  lemma DescendantAccepted(rootNames: seq<string>, path: string)
    requires rootNames != [] && AllNames(rootNames)
    requires AllNames(Split(path, '/'))
    ensures SecurePath(Render(rootNames), path) == Ok(Render(rootNames) + RenderNames(Split(path, '/')))
  {
    FullPathUnderRoot(rootNames, path);
    StartsWithIgnoreCaseOfAppend(Render(rootNames), RenderNames(Split(path, '/')));
  }

  /**
   * An absolute path that is already normal is accepted iff its text starts
   * with the root, ignoring case, and is then returned unchanged.
   */
  lemma NormalPathAcceptedIff(root: string, names: seq<string>)
    requires IsAbsolute(root) && AllNames(names)
    ensures SecurePath(root, Render(names)).Ok? <==> StartsWithIgnoreCase(Render(names), root)
    ensures SecurePath(root, Render(names)).Ok? ==> SecurePath(root, Render(names)).value == Render(names)
  {
    FullPathOfRender(names);
  }

  /**
   * The guard is a text-prefix test, not a directory test, and it ignores
   * case: with root "/ws", the sibling "/WS2/a" is accepted.
   */
  lemma SiblingAccepted(root: string, path: string)
    requires root == "/ws" && path == "/WS2/a"
    ensures SecurePath(root, path) == Ok(path)
  {
    assert path == Render(["WS2", "a"]);
    NormalPathAcceptedIff(root, ["WS2", "a"]);
  }

  /** A ".." step out of the root is rejected: "../etc" under "/ws" is "/etc". */
  lemma ParentEscapeRejected(root: string, path: string)
    requires root == "/ws" && path == "../etc"
    ensures SecurePath(root, path) == Err(AccessDenied)
  {
    assert Combine(root, path) == "/ws/../etc";
    EscapeFullPath("/ws/../etc");
    assert !StartsWithIgnoreCase("/etc", "/ws") by {
      assert UpperAscii('e') != UpperAscii('w');
    }
  }

  lemma EscapeFullPath(c: string)
    requires c == "/ws/../etc"
    ensures FullPath(c) == "/etc"
  {
    EscapeSplit(c);
    assert Resolve([], [[], "ws", "..", "etc"]) == ["etc"];
  }

  lemma EscapeSplit(c: string)
    requires c == "/ws/../etc"
    ensures Split(c, '/') == [[], "ws", "..", "etc"]
  {
    assert c == ['/'] + ("ws" + ['/'] + (".." + ['/'] + "etc"));
    SplitSepFirst("ws" + ['/'] + (".." + ['/'] + "etc"), '/');
    SplitAppendPiece("ws", ".." + ['/'] + "etc", '/');
    SplitAppendPiece("..", "etc", '/');
    SplitNoSep("etc", '/');
  }

  // ---------------------------------------------------------------- the service

  /** `FileSystemService` over a file system of files (full path to text) and directories. */
  class FileSystemService {
    const workspaceRoot: string
    var files: map<string, string>
    var dirs: set<string>

    ghost predicate Valid()
      reads this
    {
      IsAbsolute(workspaceRoot)
    }

    /**
     * The root is `Path.GetFullPath` of the configured path, created with its
     * ancestors when it does not exist; `files` and `dirs` are what the file
     * system held before.
     */
    constructor(root: string, files: map<string, string>, dirs: set<string>)
      requires IsAbsolute(root)
      ensures Valid()
      ensures workspaceRoot == FullPath(root)
      ensures this.files == files
      ensures this.dirs == if FullPath(root) in dirs then dirs else dirs + DirsOf(FullPath(root))
    {
      FullPathIdempotent(root);
      workspaceRoot := FullPath(root);
      this.files := files;
      this.dirs := dirs;
      if FullPath(root) !in dirs {
        this.dirs := dirs + DirsOf(FullPath(root));
      }
    }

    /** `WriteFileAsync`: create the parent directory, then replace the file's text. */
    method WriteFile(path: string, content: string) returns (r: Result<(), FsError>)
      requires Valid()
      modifies this
      ensures r.Err? <==> SecurePath(workspaceRoot, path).Err?
      ensures r.Err? ==> r.error == AccessDenied && files == old(files) && dirs == old(dirs)
      ensures r.Ok? ==>
                var full := SecurePath(workspaceRoot, path).value;
                && files == old(files)[full := content]
                && dirs == old(dirs) + (match DirectoryName(full)
                                        case None => {}
                                        case Some(parent) => DirsOf(parent))
    {
      var secure := SecurePath(workspaceRoot, path);
      if secure.Err? {
        return Err(secure.error);
      }
      var full := secure.value;
      var dir := DirectoryName(full);
      if dir.Some? {
        dirs := dirs + DirsOf(dir.value);
      }
      files := files[full := content];
      r := Ok(());
    }

    /** `ReadFileAsync`: the file's text; a missing file is an error. */
    method ReadFile(path: string) returns (r: Result<string, FsError>)
      requires Valid()
      ensures SecurePath(workspaceRoot, path).Err? ==> r == Err(AccessDenied)
      ensures SecurePath(workspaceRoot, path).Ok? ==>
                var full := SecurePath(workspaceRoot, path).value;
                r == if full in files then Ok(files[full]) else Err(NotFound)
    {
      var secure := SecurePath(workspaceRoot, path);
      if secure.Err? {
        return Err(secure.error);
      }
      if secure.value !in files {
        return Err(NotFound);
      }
      r := Ok(files[secure.value]);
    }

    /** `FileExistsAsync`: a rejected path is reported as absent rather than as an error. */
    method FileExists(path: string) returns (b: bool)
      requires Valid()
      ensures b <==> SecurePath(workspaceRoot, path).Ok? && SecurePath(workspaceRoot, path).value in files
    {
      var secure := SecurePath(workspaceRoot, path);
      if secure.Err? {
        return false;
      }
      b := secure.value in files;
    }

    /** `CreateDirectoryAsync`: the directory and all its ancestors exist afterwards. */
    method CreateDirectory(path: string) returns (r: Result<(), FsError>)
      requires Valid()
      modifies this
      ensures files == old(files)
      ensures r.Err? <==> SecurePath(workspaceRoot, path).Err?
      ensures r.Err? ==> r.error == AccessDenied && dirs == old(dirs)
      ensures r.Ok? ==> dirs == old(dirs) + DirsOf(SecurePath(workspaceRoot, path).value)
    {
      var secure := SecurePath(workspaceRoot, path);
      if secure.Err? {
        return Err(secure.error);
      }
      dirs := dirs + DirsOf(secure.value);
      r := Ok(());
    }

    /** `ListFilesAsync`: every file anywhere below the directory; none when it does not exist. */
    method ListFiles(path: string) returns (r: Result<set<string>, FsError>)
      requires Valid()
      ensures SecurePath(workspaceRoot, path).Err? ==> r == Err(AccessDenied)
      ensures SecurePath(workspaceRoot, path).Ok? ==>
                var full := SecurePath(workspaceRoot, path).value;
                && r.Ok?
                && (full !in dirs ==> r.value == {})
                && (full in dirs ==> forall f :: f in r.value <==> f in files && IsUnder(f, full))
    {
      var secure := SecurePath(workspaceRoot, path);
      if secure.Err? {
        return Err(secure.error);
      }
      var full := secure.value;
      if full !in dirs {
        return Ok({});
      }
      r := Ok(set f | f in files && IsUnder(f, full));
    }
  }

  /** After a write, the file holds exactly the text and its parent directory exists. */
  lemma WrittenFileAndParent(files: map<string, string>, dirs: set<string>, full: string, content: string)
    requires IsAbsolute(full) && FullPath(full) == full && DirectoryName(full).Some?
    ensures var files' := files[full := content];
            var dirs' := dirs + DirsOf(DirectoryName(full).value);
            && full in files' && files'[full] == content
            && DirectoryName(full).value in dirs'
            && (forall f :: f in files && f != full ==> f in files' && files'[f] == files[f])
  {
    var names := Resolve([], Split(full, '/'));
    var parent := Render(names[..|names| - 1]);
    FullPathOfRender(names[..|names| - 1]);
    InOwnDirs(parent);
  }
}
