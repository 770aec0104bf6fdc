/**
 * Locating ADL module files and assembling the compiler's source arguments:
 * a module name becomes a relative `.adl` path, looked up along the search
 * path with the standard library directory first.
 */
module Sources {
  import opened Adl
  import Text

  /** `module.replace(".", "/") + ".adl"`: a string pattern, so only the first "." changes. */
  function ModuleFile(m: string): string {
    Text.ReplaceFirst(m, '.', '/') + ".adl"
  }

  lemma {:induction false} ReplaceFirstNoDot(s: string)
    requires '.' !in s
    ensures Text.ReplaceFirst(s, '.', '/') == s
  {
    if |s| > 0 {
      assert s[0] != '.';
      ReplaceFirstNoDot(s[1..]);
    }
  }

  lemma {:induction false} ReplaceFirstAt(s: string, i: nat)
    requires i < |s| && s[i] == '.' && '.' !in s[..i]
    ensures Text.ReplaceFirst(s, '.', '/') == s[..i] + "/" + s[i + 1..]
  {
    if i > 0 {
      assert s[0] == s[..i][0] && s[0] != '.';
      var t := s[1..];
      assert t[..i - 1] == s[1..i];
      ReplaceFirstAt(t, i - 1);
      assert t[i..] == s[i + 1..];
      assert s[..i] == [s[0]] + t[..i - 1];
    }
  }

  /**
   * A dotted module name maps to the path with its first "." turned into a
   * directory separator and the rest kept; a name without "." just gains
   * the extension.
   */
  lemma ModuleFileShape(m: string)
    ensures '.' !in m ==> ModuleFile(m) == m + ".adl"
    ensures forall i :: 0 <= i < |m| && m[i] == '.' && '.' !in m[..i] ==>
              ModuleFile(m) == m[..i] + "/" + m[i + 1..] + ".adl"
  {
    if '.' !in m {
      ReplaceFirstNoDot(m);
    }
    forall i | 0 <= i < |m| && m[i] == '.' && '.' !in m[..i]
      ensures ModuleFile(m) == m[..i] + "/" + m[i + 1..] + ".adl"
    {
      ReplaceFirstAt(m, i);
    }
  }

  /** The file of `a.b.c` is `a/b.c.adl`: the second "." stays. */
  lemma ModuleFileExample()
    ensures ModuleFile("a.b.c") == "a/b.c.adl"
  {
    assert Text.ReplaceFirst(".b.c", '.', '/') == "/b.c";
    assert Text.ReplaceFirst("a.b.c", '.', '/') == "a" + "/b.c";
  }

  /**
   * `path.join(base, rel)` for a relative path without "." or ".." segments:
   * a separator is inserted unless base is empty or already ends in one.
   */
  function PathJoin(base: string, rel: string): (r: string)
    ensures Text.EndsWith(r, rel)
    ensures base == "" ==> r == rel
    ensures base != "" ==> |base| < |r| + 1 && r[..|base|] == base
    ensures base != "" ==> |rel| < |r| && r[|r| - |rel| - 1] == '/'
    ensures base != "" ==> |r| == |base| + |rel| + (if base[|base| - 1] == '/' then 0 else 1)
  {
    if base == "" then rel
    else if base[|base| - 1] == '/' then base + rel
    else base + "/" + rel
  }

  /** `path` is the first candidate along dirs that exists. */
  ghost predicate FoundFirst(dirs: seq<string>, m: string, fileExists: string -> bool, path: string) {
    exists i :: 0 <= i < |dirs| && path == PathJoin(dirs[i], ModuleFile(m)) && fileExists(path)
                && forall k :: 0 <= k < i ==> !fileExists(PathJoin(dirs[k], ModuleFile(m)))
  }

  /** Each module's file is the first candidate that exists. */
  ghost predicate FoundAll(dirs: seq<string>, ms: seq<string>, fileExists: string -> bool, files: seq<string>) {
    |files| == |ms| && forall k :: 0 <= k < |ms| ==> FoundFirst(dirs, ms[k], fileExists, files[k])
  }

  /** No candidate along dirs exists. */
  predicate NotFound(dirs: seq<string>, m: string, fileExists: string -> bool) {
    forall k :: 0 <= k < |dirs| ==> !fileExists(PathJoin(dirs[k], ModuleFile(m)))
  }

  /** Module k of ms is the first one that no directory along dirs holds. */
  predicate FirstMissing(dirs: seq<string>, ms: seq<string>, fileExists: string -> bool, k: int) {
    && 0 <= k < |ms|
    && NotFound(dirs, ms[k], fileExists)
    && forall l :: 0 <= l < k ==> !NotFound(dirs, ms[l], fileExists)
  }

  /**
   * `getAdlModuleFile`: the search path is tried in order and the first
   * existing file wins; when none exists the module is reported not found.
   * The file system is the `fileExists` snapshot.
   */
  method GetAdlModuleFile(searchPath: seq<string>, m: string, fileExists: string -> bool) returns (r: Result<string>)
    ensures r.Ok? ==> FoundFirst(searchPath, m, fileExists, r.value)
    ensures r.Err? ==> r.error == ModuleNotFound(m) && NotFound(searchPath, m, fileExists)
  {
    var rel := ModuleFile(m);
    var i := 0;
    while i < |searchPath|
      invariant 0 <= i <= |searchPath|
      invariant forall k :: 0 <= k < i ==> !fileExists(PathJoin(searchPath[k], rel))
    {
      var fileName := PathJoin(searchPath[i], rel);
      if fileExists(fileName) {
        return Ok(fileName);
      }
      i := i + 1;
    }
    return Err(ModuleNotFound(m));
  }

  /** `flag, v` for each v, in order. */
  function FlagArgs(flag: string, vals: seq<string>): (r: seq<string>)
    ensures |r| == 2 * |vals|
    ensures forall i :: 0 <= i < |vals| ==> r[2 * i] == flag && r[2 * i + 1] == vals[i]
  {
    if |vals| == 0 then []
    else
      var init := FlagArgs(flag, vals[..|vals| - 1]);
      assert forall i :: 0 <= i < |vals| - 1 ==> vals[..|vals| - 1][i] == vals[i];
      init + [flag, vals[|vals| - 1]]
  }

  /** `args = args.concat([flag, v])` for each v, in order. */
  method FlagPairs(flag: string, vals: seq<string>) returns (args: seq<string>)
    ensures args == FlagArgs(flag, vals)
  {
    args := [];
    var i := 0;
    while i < |vals|
      invariant 0 <= i <= |vals|
      invariant args == FlagArgs(flag, vals[..i])
    {
      assert vals[..i + 1][..i] == vals[..i];
      args := args + [flag, vals[i]];
      i := i + 1;
    }
    assert vals[..i] == vals;
  }

  lemma SplitAt(a: seq<string>, b: seq<string>)
    ensures (a + b)[..|a|] == a && (a + b)[|a|..] == b
  {
  }

  /** A module whose file was found is not missing. */
  lemma FoundIsNotMissing(dirs: seq<string>, m: string, fileExists: string -> bool, path: string)
    requires FoundFirst(dirs, m, fileExists, path)
    ensures !NotFound(dirs, m, fileExists)
  {
    var i :| 0 <= i < |dirs| && path == PathJoin(dirs[i], ModuleFile(m)) && fileExists(path);
    assert !fileExists(PathJoin(dirs[i], ModuleFile(m))) ==> false;
  }

  /** The module files, in module order; the first module not found aborts. */
  method ModuleFiles(dirs: seq<string>, adlModules: seq<string>, fileExists: string -> bool)
    returns (r: Result<seq<string>>)
    ensures r.Ok? ==> FoundAll(dirs, adlModules, fileExists, r.value)
    ensures r.Err? ==> exists k :: FirstMissing(dirs, adlModules, fileExists, k) && r.error == ModuleNotFound(adlModules[k])
  {
    var files: seq<string> := [];
    var k := 0;
    while k < |adlModules|
      invariant 0 <= k <= |adlModules|
      invariant |files| == k
      invariant forall l :: 0 <= l < k ==> FoundFirst(dirs, adlModules[l], fileExists, files[l])
    {
      var filePath := GetAdlModuleFile(dirs, adlModules[k], fileExists);
      if filePath.Err? {
        forall l | 0 <= l < k
          ensures !NotFound(dirs, adlModules[l], fileExists)
        {
          FoundIsNotMissing(dirs, adlModules[l], fileExists, files[l]);
        }
        assert FirstMissing(dirs, adlModules, fileExists, k);
        return Err(filePath.error);
      }
      assert FoundFirst(dirs, adlModules[k], fileExists, filePath.value);
      files := files + [filePath.value];
      k := k + 1;
    }
    return Ok(files);
  }

  /**
   * `compilerSourceArgsFromParams`: a `--searchdir` pair per directory of
   * the search path (the standard library's first), a `--merge-adlext` pair
   * per extension, then the file of each module in order. A module missing
   * from every directory aborts with its name.
   */
  method CompilerSourceArgs(stdLibDir: string, searchPath: seq<string>, mergeAdlExts: Option<seq<string>>,
                            adlModules: seq<string>, fileExists: string -> bool)
    returns (r: Result<seq<string>>)
    ensures var dirs := [stdLibDir] + searchPath;
            var exts := if mergeAdlExts.Some? then mergeAdlExts.value else [];
            var flags := FlagArgs("--searchdir", dirs) + FlagArgs("--merge-adlext", exts);
            r.Ok? ==>
              && |r.value| == 2 * (1 + |searchPath|) + 2 * |exts| + |adlModules|
              && r.value[..|flags|] == flags
              && FoundAll(dirs, adlModules, fileExists, r.value[|flags|..])
    ensures r.Err? ==> exists k :: FirstMissing([stdLibDir] + searchPath, adlModules, fileExists, k)
                                  && r.error == ModuleNotFound(adlModules[k])
  {
    var dirs := [stdLibDir] + searchPath;
    var exts := if mergeAdlExts.Some? then mergeAdlExts.value else [];
    var searchArgs := FlagPairs("--searchdir", dirs);
    var extArgs := FlagPairs("--merge-adlext", exts);
    var files := ModuleFiles(dirs, adlModules, fileExists);
    if files.Err? {
      return Err(files.error);
    }
    var args := searchArgs + extArgs;
    assert |args| == 2 * (1 + |searchPath|) + 2 * |exts|;
    SplitAt(args, files.value);
    return Ok(args + files.value);
  }
}
