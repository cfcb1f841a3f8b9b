/**
 * `TextMemoryManager.readFile` (`src/memory/text-manager.ts`): which paths may
 * be read, and the line window that `from`/`lines` select.
 *
 * Node's path functions, the memory-path predicate and the normalisation of the
 * configured extra paths are not part of this model; they are fields of
 * `PathEnv`. The file system is a map from absolute path to what `lstat`
 * reports; a path that is not a key is one that `lstat` fails on.
 */
module MemoryRead {
  import opened Wrappers
  import opened Js

  datatype FileKind = RegularFile(content: string) | Directory | SymbolicLink | OtherKind

  datatype PathEnv = PathEnv(
    workspaceDir: string,
    isAbsolute: string -> bool,
    /** `path.resolve(p)` */
    resolve: string -> string,
    /** `path.resolve(dir, p)` */
    resolveFrom: (string, string) -> string,
    /** `path.relative(from, to)` */
    relative: (string, string) -> string,
    isMemoryPath: string -> bool,
    /** `normalizeExtraMemoryPaths(workspaceDir, extraPaths)` */
    normalizeExtraPaths: (string, seq<string>) -> seq<string>,
    /** `path.sep` */
    sep: char,
    files: map<string, FileKind>)

  /** Every validation failure is the same "path required" error; `lstat` on a missing target fails on its own. */
  datatype ReadError = PathRequired | NotFound(path: string)

  datatype ReadResult = ReadResult(text: string, path: string)

  // ------------------------------------------------------------------ paths

  function AbsPathOf(env: PathEnv, rawPath: string): string {
    if env.isAbsolute(rawPath) then env.resolve(rawPath) else env.resolveFrom(env.workspaceDir, rawPath)
  }

  /** The workspace-relative form with `\` turned into `/`. */
  function RelPathOf(env: PathEnv, absPath: string): string {
    ReplaceChar(env.relative(env.workspaceDir, absPath), '\\', '/')
  }

  predicate InWorkspace(env: PathEnv, relPath: string) {
    |relPath| > 0 && !StartsWith(relPath, "..") && !env.isAbsolute(relPath)
  }

  /**
   * An extra path admits `absPath`: a directory (not a symbolic link) that is
   * `absPath` or one of its ancestors, or a regular `.md` file that is `absPath`.
   */
  predicate Admits(env: PathEnv, absPath: string, extra: string) {
    && extra in env.files
    && match env.files[extra]
       case Directory => absPath == extra || StartsWith(absPath, extra + [env.sep])
       case RegularFile(_) => absPath == extra && EndsWith(absPath, ".md")
       case _ => false
  }

  predicate AdmittedBy(env: PathEnv, absPath: string, extras: seq<string>) {
    exists k :: 0 <= k < |extras| && Admits(env, absPath, extras[k])
  }

  /** The loop over the normalised extra paths, stopping at the first one that admits `absPath`. */
  method CheckExtraPaths(env: PathEnv, absPath: string, extras: seq<string>) returns (allowed: bool)
    ensures allowed <==> AdmittedBy(env, absPath, extras)
  {
    allowed := false;
    var k := 0;
    while k < |extras|
      invariant 0 <= k <= |extras|
      invariant !allowed
      invariant forall j :: 0 <= j < k ==> !Admits(env, absPath, extras[j])
    {
      var extra := extras[k];
      if extra in env.files {
        var stat := env.files[extra];
        if stat.SymbolicLink? {
          k := k + 1;
          continue;
        }
        if stat.Directory? {
          if absPath == extra || StartsWith(absPath, extra + [env.sep]) {
            allowed := true;
            return;
          }
          k := k + 1;
          continue;
        }
        if stat.RegularFile? {
          if absPath == extra && EndsWith(absPath, ".md") {
            allowed := true;
            return;
          }
        }
      }
      k := k + 1;
    }
  }

  // ---------------------------------------------------------------- windows

  /** `!x` for an optional number: absent or zero. */
  predicate Falsy(x: Option<int>) {
    x == None || x == Some(0)
  }

  function MaxInt(a: int, b: int): int { if a >= b then a else b }

  /** The lines `[start - 1, start - 1 + count)` of `content`, joined again with newlines. */
  function SelectLines(content: string, from: Option<int>, lines: Option<int>): (text: string) {
    if Falsy(from) && Falsy(lines) then content
    else
      var all := Split(content, '\n');
      var start := MaxInt(1, from.GetOr(1));
      var count := MaxInt(1, lines.GetOr(|all|));
      Join(Slice(all, start - 1, start - 1 + count), '\n')
  }

  /** The index of the first line of the window. */
  function WindowStart(from: Option<int>): nat { MaxInt(1, from.GetOr(1)) - 1 }

  /** The index one past the last line of the window, for a file of `n` lines. */
  function WindowEnd(n: nat, from: Option<int>, lines: Option<int>): nat {
    Min(n, WindowStart(from) + MaxInt(1, lines.GetOr(n)))
  }

  function Min(a: int, b: int): int { if a <= b then a else b }

  lemma SelectLinesIsJoin(content: string, from: Option<int>, lines: Option<int>)
    requires !(Falsy(from) && Falsy(lines))
    requires WindowStart(from) < |Split(content, '\n')|
    ensures SelectLines(content, from, lines) ==
      Join(Split(content, '\n')[WindowStart(from)..WindowEnd(|Split(content, '\n')|, from, lines)], '\n')
  {
  }

  /** When a window is asked for and it starts inside the file, the result is exactly its lines. */
  lemma SelectLinesWindow(content: string, from: Option<int>, lines: Option<int>)
    requires !(Falsy(from) && Falsy(lines))
    requires WindowStart(from) < |Split(content, '\n')|
    ensures Split(SelectLines(content, from, lines), '\n') ==
      Split(content, '\n')[WindowStart(from)..WindowEnd(|Split(content, '\n')|, from, lines)]
  {
    var all := Split(content, '\n');
    var window := all[WindowStart(from)..WindowEnd(|all|, from, lines)];
    SelectLinesIsJoin(content, from, lines);
    assert forall k :: 0 <= k < |window| ==> window[k] in all;
    SplitJoin(window, '\n');
  }

  /** A window starting past the last line is empty. */
  lemma SelectLinesPastEnd(content: string, from: Option<int>, lines: Option<int>)
    requires !(Falsy(from) && Falsy(lines))
    requires WindowStart(from) >= |Split(content, '\n')|
    ensures SelectLines(content, from, lines) == []
  {
  }

  /** A window from the first line that covers every line gives the whole content back. */
  lemma SelectLinesWhole(content: string, from: Option<int>, lines: Option<int>)
    requires WindowStart(from) == 0
    requires lines.Some? ==> lines.value >= |Split(content, '\n')|
    ensures SelectLines(content, from, lines) == content
  {
    var all := Split(content, '\n');
    if !(Falsy(from) && Falsy(lines)) {
      assert Slice(all, 0, MaxInt(1, lines.GetOr(|all|))) == all;
      JoinSplit(content, '\n');
    }
  }

  // ------------------------------------------------------------- readFile

  /** The access decision made before the target itself is examined. */
  ghost predicate Allowed(env: PathEnv, extraPaths: seq<string>, absPath: string) {
    || (InWorkspace(env, RelPathOf(env, absPath)) && env.isMemoryPath(RelPathOf(env, absPath)))
    || (|extraPaths| > 0 && AdmittedBy(env, absPath, env.normalizeExtraPaths(env.workspaceDir, extraPaths)))
  }

  /** What `readFile` returns or throws. */
  ghost function ReadFileOf(env: PathEnv, extraPaths: seq<string>, relPath: string, from: Option<int>, lines: Option<int>)
    : Result<ReadResult, ReadError>
  {
    var rawPath := Trim(relPath);
    var absPath := AbsPathOf(env, rawPath);
    if rawPath == [] || !Allowed(env, extraPaths, absPath) || !EndsWith(absPath, ".md") then Failure(PathRequired)
    else if absPath !in env.files then Failure(NotFound(absPath))
    else match env.files[absPath]
      case RegularFile(content) => Success(ReadResult(SelectLines(content, from, lines), RelPathOf(env, absPath)))
      case _ => Failure(PathRequired)
  }

  /**
   * `readFile`: the checks in source order, with the loop over the extra paths.
   * A read succeeds only for a non-blank path that the workspace or an extra
   * path admits, that names a `.md` file, and that is a regular file and not a
   * symbolic link; every other outcome except a missing target is "path required".
   */
  method ReadFile(env: PathEnv, extraPaths: seq<string>, relPath: string, from: Option<int>, lines: Option<int>)
    returns (r: Result<ReadResult, ReadError>)
    ensures r == ReadFileOf(env, extraPaths, relPath, from, lines)
    ensures Trim(relPath) == [] ==> r == Failure(PathRequired)
    ensures r.Success? <==>
      && Trim(relPath) != []
      && Allowed(env, extraPaths, AbsPathOf(env, Trim(relPath)))
      && EndsWith(AbsPathOf(env, Trim(relPath)), ".md")
      && AbsPathOf(env, Trim(relPath)) in env.files
      && env.files[AbsPathOf(env, Trim(relPath))].RegularFile?
    ensures r.Success? ==>
      r.value ==
        ReadResult(SelectLines(env.files[AbsPathOf(env, Trim(relPath))].content, from, lines),
          RelPathOf(env, AbsPathOf(env, Trim(relPath))))
    ensures r.Failure? ==>
      r.error == PathRequired ||
      r.error == NotFound(AbsPathOf(env, Trim(relPath)))
  {
    var rawPath := Trim(relPath);
    if rawPath == [] {
      return Failure(PathRequired);
    }
    var absPath := AbsPathOf(env, rawPath);
    var rel := RelPathOf(env, absPath);
    var allowedWorkspace := InWorkspace(env, rel) && env.isMemoryPath(rel);
    var allowedAdditional := false;
    if !allowedWorkspace && |extraPaths| > 0 {
      allowedAdditional := CheckExtraPaths(env, absPath, env.normalizeExtraPaths(env.workspaceDir, extraPaths));
    }
    if !allowedWorkspace && !allowedAdditional {
      return Failure(PathRequired);
    }
    if !EndsWith(absPath, ".md") {
      return Failure(PathRequired);
    }
    if absPath !in env.files {
      return Failure(NotFound(absPath));
    }
    var stat := env.files[absPath];
    if stat.SymbolicLink? || !stat.RegularFile? {
      return Failure(PathRequired);
    }
    r := Success(ReadResult(SelectLines(stat.content, from, lines), rel));
  }
}
