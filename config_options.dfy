/**
 * The `framework.options.rules` and `framework.options.msw` settings of
 * `@astrostory/core` (`rules-options.ts` and `msw-options.ts`, which differ
 * only in the option's name): the option is a path or `{ configFile }`,
 * resolved against the working directory and then searched for on disk,
 * first as given, then with each script extension, then as a directory
 * index.
 *
 * The file system is a given set of existing paths, and `path.resolve`
 * and `path.extname` are given functions.
 */
module ConfigOptions {
  import opened Wrappers
  import opened Text
  import opened Values

  /** Which option is being resolved. */
  datatype OptionKind = RulesOption | MswOption
  {
    function Name(): string
    {
      match this
      case RulesOption => "rules"
      case MswOption => "msw"
    }
  }

  /** The host: the working directory, the existing paths, `path.resolve` and `path.extname`. */
  datatype Host = Host(
    cwd: string,
    existing: set<string>,
    resolve: (string, string) -> string,
    extname: string -> string)

  function ShapeError(kind: OptionKind): Error
  {
    Fail("framework.options." + kind.Name() + " must be either a string path or an object with a string configFile.")
  }

  function EmptyError(kind: OptionKind): Error
  {
    Fail("framework.options." + kind.Name() + " config file path cannot be empty.")
  }

  function NotFoundError(kind: OptionKind, resolved: string): (r: Error)
    ensures Contains(r.message, resolved)
  {
    var head := "framework.options." + kind.Name() + " config file was not found: ";
    var tail := ". Provide an existing path in framework.options." + kind.Name() + ".";
    ContainsInfix(head, resolved, tail);
    Fail(head + resolved + tail)
  }

  /**
   * `normalizeConfigFileOption`: a string, or the `configFile` of an object
   * (an array has none); anything else, or a `configFile` that is not a
   * string, is refused; the path is trimmed and must not be blank.
   */
  function NormalizeConfigFileOption(kind: OptionKind, options: Value): (r: Result<string>)
    ensures options.Str? && !IsBlank(options.s) ==> r == Ok(Trim(options.s))
    ensures options.Obj? && Get(options.fields, "configFile").Str? && !IsBlank(Get(options.fields, "configFile").s) ==>
      r == Ok(Trim(Get(options.fields, "configFile").s))
    ensures !options.Str? && !(options.Obj? && Get(options.fields, "configFile").Str?) ==> r == Err(ShapeError(kind))
    ensures r.Ok? ==> r.value != "" && Trim(r.value) == r.value
    ensures r.Err? && r.error != ShapeError(kind) ==> r.error == EmptyError(kind)
  {
    var configFile := if options.Str? then options else if IsObject(options) then Prop(options, "configFile") else Undefined;
    if !configFile.Str? then Err(ShapeError(kind))
    else
      var normalized := Trim(configFile.s);
      TrimIdempotent(configFile.s);
      if normalized == "" then Err(EmptyError(kind)) else Ok(normalized)
  }

  /** `['.ts', '.mts', '.cts', '.js', '.mjs', '.cjs']`. */
  const Extensions: seq<string> := [".ts", ".mts", ".cts", ".js", ".mjs", ".cjs"]

  /** The paths tried, in order: the path; then, when it has no extension, each extension appended, then each directory index. */
  function Candidates(filePath: string, host: Host): (r: seq<string>)
    ensures |r| >= 1 && r[0] == filePath
    ensures host.extname(filePath) != "" ==> r == [filePath]
    ensures host.extname(filePath) == "" ==> |r| == 1 + 2 * |Extensions|
    ensures host.extname(filePath) == "" ==> forall k :: 0 <= k < |Extensions| ==> r[1 + k] == filePath + Extensions[k]
    ensures host.extname(filePath) == "" ==>
      forall k :: 0 <= k < |Extensions| ==> r[1 + |Extensions| + k] == host.resolve(filePath, "index" + Extensions[k])
  {
    if host.extname(filePath) != "" then [filePath]
    else
      [filePath]
      + seq(|Extensions|, k requires 0 <= k < |Extensions| => filePath + Extensions[k])
      + seq(|Extensions|, k requires 0 <= k < |Extensions| => host.resolve(filePath, "index" + Extensions[k]))
  }

  /** The first candidate that exists, if any. */
  function FirstExisting(candidates: seq<string>, existing: set<string>): (r: Option<string>)
    ensures r.None? <==> forall k :: 0 <= k < |candidates| ==> candidates[k] !in existing
    ensures r.Some? ==> r.value in existing && r.value in candidates
  {
    if candidates == [] then None
    else if candidates[0] in existing then Some(candidates[0])
    else FirstExisting(candidates[1..], existing)
  }

  /** The first existing candidate is the one at `k` when it exists and none before it does. */
  lemma {:induction false} FirstExistingAt(candidates: seq<string>, existing: set<string>, k: nat)
    requires k < |candidates| && candidates[k] in existing
    requires forall j :: 0 <= j < k ==> candidates[j] !in existing
    ensures FirstExisting(candidates, existing) == Some(candidates[k])
  {
    if k > 0 {
      FirstExistingAt(candidates[1..], existing, k - 1);
    }
  }

  /** When the path and the first `k` extended paths are missing and the next one exists, the search finds it. */
  lemma ExtensionFound(filePath: string, host: Host, k: nat)
    requires host.extname(filePath) == "" && k < |Extensions| && filePath !in host.existing
    requires forall j :: 0 <= j < k ==> filePath + Extensions[j] !in host.existing
    requires filePath + Extensions[k] in host.existing
    ensures FirstExisting(Candidates(filePath, host), host.existing) == Some(filePath + Extensions[k])
  {
    var candidates := Candidates(filePath, host);
    forall j | 0 <= j < 1 + k ensures candidates[j] !in host.existing {
      if j > 0 {
        assert candidates[j] == filePath + Extensions[j - 1];
      }
    }
    FirstExistingAt(candidates, host.existing, 1 + k);
  }

  /** When every extended path and the first `k` directory indexes are missing and the next one exists, the search finds it. */
  lemma IndexFound(filePath: string, host: Host, k: nat)
    requires host.extname(filePath) == "" && k < |Extensions| && filePath !in host.existing
    requires forall j :: 0 <= j < |Extensions| ==> filePath + Extensions[j] !in host.existing
    requires forall j :: 0 <= j < k ==> host.resolve(filePath, "index" + Extensions[j]) !in host.existing
    requires host.resolve(filePath, "index" + Extensions[k]) in host.existing
    ensures FirstExisting(Candidates(filePath, host), host.existing) == Some(host.resolve(filePath, "index" + Extensions[k]))
  {
    var candidates := Candidates(filePath, host);
    forall j | 0 <= j < 1 + |Extensions| + k ensures candidates[j] !in host.existing {
      if 0 < j <= |Extensions| {
        assert candidates[j] == filePath + Extensions[j - 1];
      } else if j > |Extensions| {
        assert candidates[j] == host.resolve(filePath, "index" + Extensions[j - 1 - |Extensions|]);
      }
    }
    FirstExistingAt(candidates, host.existing, 1 + |Extensions| + k);
  }

  /** When no candidate exists, the search finds nothing. */
  lemma NoneFound(filePath: string, host: Host)
    requires host.extname(filePath) == "" && filePath !in host.existing
    requires forall j :: 0 <= j < |Extensions| ==> filePath + Extensions[j] !in host.existing
    requires forall j :: 0 <= j < |Extensions| ==> host.resolve(filePath, "index" + Extensions[j]) !in host.existing
    ensures FirstExisting(Candidates(filePath, host), host.existing) == None
  {
    var candidates := Candidates(filePath, host);
    forall j | 0 <= j < |candidates| ensures candidates[j] !in host.existing {
      if 0 < j <= |Extensions| {
        assert candidates[j] == filePath + Extensions[j - 1];
      } else if j > |Extensions| {
        assert candidates[j] == host.resolve(filePath, "index" + Extensions[j - 1 - |Extensions|]);
      }
    }
  }

  /**
   * `resolveConfigFilePath`: returns the path when it exists; gives up when
   * it has an extension; otherwise tries each extension appended, then
   * each directory index, in order, and returns the first that exists.
   */
  method ResolveConfigFilePath(filePath: string, host: Host) returns (r: Option<string>)
    ensures r == FirstExisting(Candidates(filePath, host), host.existing)
  {
    if filePath in host.existing {
      FirstExistingAt(Candidates(filePath, host), host.existing, 0);
      return Some(filePath);
    }
    if host.extname(filePath) != "" {
      return None;
    }
    var i := 0;
    while i < |Extensions|
      invariant 0 <= i <= |Extensions|
      invariant forall j :: 0 <= j < i ==> filePath + Extensions[j] !in host.existing
    {
      var candidate := filePath + Extensions[i];
      if candidate in host.existing {
        ExtensionFound(filePath, host, i);
        return Some(candidate);
      }
      i := i + 1;
    }
    i := 0;
    while i < |Extensions|
      invariant 0 <= i <= |Extensions|
      invariant forall j :: 0 <= j < i ==> host.resolve(filePath, "index" + Extensions[j]) !in host.existing
    {
      var candidate := host.resolve(filePath, "index" + Extensions[i]);
      if candidate in host.existing {
        IndexFound(filePath, host, i);
        return Some(candidate);
      }
      i := i + 1;
    }
    NoneFound(filePath, host);
    return None;
  }

  /**
   * What `resolveRulesConfigFilePath` and `resolveMswConfigFilePath`
   * settle with: no option means no file; otherwise the normalised path,
   * resolved against the working directory, must be found.
   */
  function OptionPath(kind: OptionKind, options: Value, host: Host): (r: Result<Option<string>>)
    ensures options.Undefined? ==> r == Ok(None)
    ensures !options.Undefined? && NormalizeConfigFileOption(kind, options).Err? ==>
      r == Err(NormalizeConfigFileOption(kind, options).error)
    ensures !options.Undefined? && NormalizeConfigFileOption(kind, options).Ok? ==>
      var resolved := host.resolve(host.cwd, NormalizeConfigFileOption(kind, options).value);
      match FirstExisting(Candidates(resolved, host), host.existing)
      case None => r == Err(NotFoundError(kind, resolved))
      case Some(path) => r == Ok(Some(path))
    ensures r.Ok? && r.value.Some? ==> r.value.value in host.existing
  {
    if options.Undefined? then Ok(None)
    else
      match NormalizeConfigFileOption(kind, options)
      case Err(e) => Err(e)
      case Ok(configFile) =>
        var resolved := host.resolve(host.cwd, configFile);
        match FirstExisting(Candidates(resolved, host), host.existing)
        case None => Err(NotFoundError(kind, resolved))
        case Some(path) => Ok(Some(path))
  }

  /**
   * `resolveRulesConfigFilePath` and `resolveMswConfigFilePath`: no option
   * means no file, without touching the disk; otherwise the normalised
   * path is resolved against the working directory and searched for.
   */
  method ResolveOption(kind: OptionKind, options: Value, host: Host) returns (r: Result<Option<string>>)
    ensures r == OptionPath(kind, options, host)
  {
    if options.Undefined? {
      return Ok(None);
    }
    var configFile := NormalizeConfigFileOption(kind, options);
    if configFile.Err? {
      return Err(configFile.error);
    }
    var resolved := host.resolve(host.cwd, configFile.value);
    var found := ResolveConfigFilePath(resolved, host);
    if found.None? {
      return Err(NotFoundError(kind, resolved));
    }
    return Ok(found);
  }

  /** A path with an extension that does not exist is not searched further. */
  lemma ExtensionStopsSearch(filePath: string, host: Host)
    requires filePath !in host.existing && host.extname(filePath) != ""
    ensures FirstExisting(Candidates(filePath, host), host.existing) == None
  {
  }

  /** An extensionless path whose `.ts` file exists resolves to that file, even if a `.js` file exists too. */
  lemma TypeScriptFirst(filePath: string, host: Host)
    requires filePath !in host.existing && host.extname(filePath) == ""
    requires filePath + ".ts" in host.existing
    ensures FirstExisting(Candidates(filePath, host), host.existing) == Some(filePath + ".ts")
  {
    FirstExistingAt(Candidates(filePath, host), host.existing, 1);
  }
}
