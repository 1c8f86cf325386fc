/**
 * The virtual modules `@astrostory/core` serves to Vite: the generic
 * plugin factory (`vite/createVirtualModulePlugin.ts`), the modules that
 * expose the rules and MSW configuration files, and the module that picks
 * the renderer for the mode and render mode.
 */
module VirtualModules {
  import opened Wrappers
  import opened Text
  import opened Values
  import ConfigOptions

  /** What a module loader settles with: code, nothing, or a thrown error. */
  type Loader = string -> Result<Option<string>>

  /** The options of `createVirtualModulePlugin`. */
  datatype VirtualModulePlugin = VirtualModulePlugin(pluginName: string, virtualModuleId: string, load: Loader)
  {
    /** Vite's convention for an id no other plugin should touch. */
    function ResolvedId(): string
    {
      "\0" + virtualModuleId
    }

    /** `name`. */
    function Name(): (r: string)
      ensures r == pluginName
    {
      pluginName
    }

    /** `resolveId`: only the virtual id resolves, to its prefixed form. */
    function ResolveId(id: string): (r: Option<string>)
      ensures r.Some? <==> id == virtualModuleId
      ensures r.Some? ==> r.value == "\0" + id && r.value[1..] == id
    {
      if id == virtualModuleId then Some(ResolvedId()) else None
    }

    /**
     * `load`: for the resolved id the options' loader is called once, with
     * that id, and its (awaited) result is passed through; any other id
     * gives nothing without calling it. `calls` lists the loader's calls.
     */
    function Load(id: string): (r: (seq<string>, Result<Option<string>>))
      ensures id == ResolvedId() ==> r.0 == [id] && r.1 == load(id)
      ensures id != ResolvedId() ==> r.0 == [] && r.1 == Ok(None)
    {
      if id == ResolvedId() then ([id], load(id)) else ([], Ok(None))
    }
  }

  /** The id `resolveId` returns is the one `load` answers, and the unprefixed id is not. */
  lemma ResolveThenLoad(plugin: VirtualModulePlugin)
    ensures plugin.Load(plugin.ResolveId(plugin.virtualModuleId).value).0 == [plugin.ResolvedId()]
    ensures plugin.Load(plugin.virtualModuleId) == ([], Ok(None))
  {
    assert |plugin.ResolvedId()| == |plugin.virtualModuleId| + 1;
  }

  /** `configFilePath.replace(/\\/g, '/')` quoted by `JSON.stringify`. */
  function ImportSpecifier(configFilePath: string): string
  {
    JsonQuote(ReplaceAll(configFilePath, "\\", "/"))
  }

  /** For a path without quotes or control characters the specifier is the slash-separated path between quotes. */
  lemma ImportSpecifierPlain(configFilePath: string)
    requires forall k :: 0 <= k < |configFilePath| ==> configFilePath[k] != '"' && (configFilePath[k] as int) >= 0x20
    ensures var posix := ReplaceAll(configFilePath, "\\", "/");
      ImportSpecifier(configFilePath) == "\"" + posix + "\"" && '\\' !in posix
  {
    var posix := ReplaceAll(configFilePath, ['\\'], ['/']);
    ReplaceAllChar(configFilePath, '\\', '/');
    forall k | 0 <= k < |posix|
      ensures posix[k] != '\\' && posix[k] != '"' && (posix[k] as int) >= 0x20
    {
      assert posix[k] == if configFilePath[k] == '\\' then '/' else configFilePath[k];
    }
    JsonEscapePlain(posix);
  }

  const RulesModuleId := "virtual:storybook-astro-rules-config"
  const RulesPluginName := "storybook-astro:virtual-rules-config"

  /** The identifiers the rules-configuration module declares. */
  const RulesConfigName := "storybookAstroRulesConfig"
  const RulesNamespace := "storybookAstroRulesConfigModule"
  const RulesPathExport := "storybookAstroRulesConfigFilePath"

  /** The lines of the rules-configuration module, for the found file or for none. */
  function RulesModuleLines(configFilePath: Option<string>): (r: seq<string>)
    ensures |r| == 3
    ensures configFilePath.Some? ==>
      r[0] == "import * as " + RulesNamespace + " from " + ImportSpecifier(configFilePath.value) + ";"
      && r[2] == "export const " + RulesPathExport + " = " + ImportSpecifier(configFilePath.value) + ";"
    ensures forall k :: 0 <= k < |r| ==> '\n' !in r[k]
  {
    match configFilePath
    case None =>
      NoFileLinesPlain();
      [
        "const " + RulesConfigName + " = { rules: [] };",
        "export default " + RulesConfigName + ";",
        "export const " + RulesPathExport + " = undefined;"
      ]
    case Some(path) =>
      var specifier := ImportSpecifier(path);
      JsonQuoteNoLineFeed(ReplaceAll(path, "\\", "/"));
      FileLinesPlain(specifier);
      [
        "import * as " + RulesNamespace + " from " + specifier + ";",
        "export default " + RulesNamespace + ";",
        "export const " + RulesPathExport + " = " + specifier + ";"
      ]
  }

  /** The lines of the module for no file hold no line feed. */
  lemma NoFileLinesPlain()
    ensures '\n' !in "const " + RulesConfigName + " = { rules: [] };"
    ensures '\n' !in "export default " + RulesConfigName + ";"
    ensures '\n' !in "export const " + RulesPathExport + " = undefined;"
  {
    assert '\n' !in RulesConfigName && '\n' !in RulesPathExport;
  }

  /** The lines of the module for a file hold no line feed when its specifier holds none. */
  lemma FileLinesPlain(specifier: string)
    requires '\n' !in specifier
    ensures '\n' !in "import * as " + RulesNamespace + " from " + specifier + ";"
    ensures '\n' !in "export default " + RulesNamespace + ";"
    ensures '\n' !in "export const " + RulesPathExport + " = " + specifier + ";"
  {
    assert '\n' !in RulesNamespace && '\n' !in RulesPathExport;
  }

  /** The rules-configuration module's source. */
  function RulesModuleCode(configFilePath: Option<string>): string
  {
    Join(RulesModuleLines(configFilePath), "\n")
  }

  /** The module has exactly its three lines, and imports and exports the same path text. */
  lemma RulesModuleCodeLines(configFilePath: Option<string>)
    ensures Split(RulesModuleCode(configFilePath), '\n') == RulesModuleLines(configFilePath)
  {
    SplitJoin(RulesModuleLines(configFilePath), '\n');
  }

  /** What loading the rules module settles with: the option's error, or the module for the file found. */
  function RulesLoad(options: Value, host: ConfigOptions.Host): (r: Result<Option<string>>)
    ensures r.Ok? <==> ConfigOptions.OptionPath(ConfigOptions.RulesOption, options, host).Ok?
    ensures r.Ok? ==> r.value == Some(RulesModuleCode(ConfigOptions.OptionPath(ConfigOptions.RulesOption, options, host).value))
  {
    match ConfigOptions.OptionPath(ConfigOptions.RulesOption, options, host)
    case Err(e) => Err(e)
    case Ok(path) => Ok(Some(RulesModuleCode(path)))
  }

  /** `storybookAstroRulesConfigVirtualModulePlugin`: the module for the `rules` option. */
  function RulesConfigPlugin(options: Value, host: ConfigOptions.Host): (r: VirtualModulePlugin)
    ensures r.pluginName == RulesPluginName && r.virtualModuleId == RulesModuleId
    ensures forall id :: r.load(id) == RulesLoad(options, host)
  {
    VirtualModulePlugin(RulesPluginName, RulesModuleId,
      (id: string) => RulesLoad(options, host))
  }

  /** Without a `rules` option the module default-exports an empty rule list and no path. */
  lemma NoRulesOptionEmptyRules(host: ConfigOptions.Host)
    ensures var plugin := RulesConfigPlugin(Undefined, host);
      plugin.Load("\0" + RulesModuleId).1 == Ok(Some(RulesModuleCode(None)))
      && StartsWith(RulesModuleCode(None), "const " + RulesConfigName + " = { rules: [] };" + "\n")
  {
    var lines := RulesModuleLines(None);
    assert RulesModuleCode(None) == lines[0] + "\n" + Join(lines[1..], "\n");
  }

  const MswModuleId := "virtual:storybook-astro-msw-config"
  const MswPluginName := "storybook-astro:virtual-msw-config"

  const MswNamespace := "storybookMswConfigModule"

  /** The MSW-configuration module's source: a default export of the file's namespace, or of `undefined`. */
  function MswModuleCode(configFilePath: Option<string>): (r: string)
    ensures configFilePath.None? ==> r == "export default undefined;"
    ensures configFilePath.Some? ==> Split(r, '\n') == [
      "import * as " + MswNamespace + " from " + ImportSpecifier(configFilePath.value) + ";",
      "export default " + MswNamespace + ";"]
  {
    match configFilePath
    case None => "export default undefined;"
    case Some(path) =>
      var lines := [
        "import * as " + MswNamespace + " from " + ImportSpecifier(path) + ";",
        "export default " + MswNamespace + ";"];
      JsonQuoteNoLineFeed(ReplaceAll(path, "\\", "/"));
      SplitJoin(lines, '\n');
      Join(lines, "\n")
  }

  /** What loading the MSW module settles with: the option's error, or the module for the file found. */
  function MswLoad(options: Value, host: ConfigOptions.Host): (r: Result<Option<string>>)
    ensures r.Ok? <==> ConfigOptions.OptionPath(ConfigOptions.MswOption, options, host).Ok?
    ensures r.Ok? ==> r.value == Some(MswModuleCode(ConfigOptions.OptionPath(ConfigOptions.MswOption, options, host).value))
  {
    match ConfigOptions.OptionPath(ConfigOptions.MswOption, options, host)
    case Err(e) => Err(e)
    case Ok(path) => Ok(Some(MswModuleCode(path)))
  }

  /** `storybookAstroMswConfigVirtualModulePlugin`: the module for the `msw` option. */
  function MswConfigPlugin(options: Value, host: ConfigOptions.Host): (r: VirtualModulePlugin)
    ensures r.pluginName == MswPluginName && r.virtualModuleId == MswModuleId
    ensures forall id :: r.load(id) == MswLoad(options, host)
  {
    VirtualModulePlugin(MswPluginName, MswModuleId,
      (id: string) => MswLoad(options, host))
  }

  datatype Mode = Development | Production

  /** The three renderer modules of `@astrostory/core`. */
  datatype RendererModule = DevRenderer | StaticRenderer | HttpRenderer
  {
    function File(): string
    {
      match this
      case DevRenderer => "renderer-dev.ts"
      case StaticRenderer => "renderer-static.ts"
      case HttpRenderer => "renderer.ts"
    }
  }

  /** Development always uses the hot-channel renderer; production the static one for render mode `static`, else HTTP. */
  function SelectRenderer(mode: Mode, renderMode: Option<string>): (r: RendererModule)
    ensures mode == Development ==> r == DevRenderer
    ensures mode == Production ==> (r == StaticRenderer <==> renderMode == Some("static"))
    ensures mode == Production ==> r != DevRenderer
  {
    if mode != Production then DevRenderer
    else if renderMode == Some("static") then StaticRenderer
    else HttpRenderer
  }

  const RendererModuleId := "virtual:storybook-astro-renderer"
  const RendererPluginName := "storybook-astro:renderer-module"
  const RendererExportPrefix := "export * from '@astrostory/core/renderer/"

  /** The one re-export line of the renderer module. */
  function RendererModuleCode(mode: Mode, renderMode: Option<string>): (r: string)
    ensures r == RendererExportPrefix + SelectRenderer(mode, renderMode).File() + "';"
    ensures Split(r, '\n') == [r]
  {
    var file := SelectRenderer(mode, renderMode).File();
    assert '\n' !in RendererExportPrefix;
    assert '\n' !in file;
    var r := RendererExportPrefix + file + "';";
    assert '\n' !in r;
    SplitNoSeparator(r, '\n');
    r
  }

  /** `viteStorybookAstroRendererPlugin`. */
  function RendererPlugin(mode: Mode, renderMode: Option<string>): (r: VirtualModulePlugin)
    ensures r.pluginName == RendererPluginName && r.virtualModuleId == RendererModuleId
    ensures forall id :: r.load(id) == Ok(Some(RendererModuleCode(mode, renderMode)))
  {
    VirtualModulePlugin(RendererPluginName, RendererModuleId, (id: string) => Ok(Some(RendererModuleCode(mode, renderMode))))
  }

  /** The three modes produce three different modules. */
  lemma RendererModulesDiffer(renderMode: Option<string>)
    requires renderMode != Some("static")
    ensures RendererModuleCode(Development, renderMode) != RendererModuleCode(Production, renderMode)
    ensures RendererModuleCode(Production, Some("static")) != RendererModuleCode(Production, renderMode)
    ensures RendererModuleCode(Development, renderMode) == RendererModuleCode(Development, Some("static"))
  {
    var p := |RendererExportPrefix|;
    assert |RendererModuleCode(Development, renderMode)| == p + 17;
    assert |RendererModuleCode(Production, renderMode)| == p + 13;
    assert |RendererModuleCode(Production, Some("static"))| == p + 20;
  }
}
