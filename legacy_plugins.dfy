/**
 * The code-generating Vite plugins of `@storybook/astro`: the container
 * renderers module (one import and one pair of registrations per
 * integration), the Storybook renderer fallback (one re-export per entry
 * preview), the renderer module for the mode, the `virtual:astro-files`
 * module that imports every Astro component under a numbered name, and the
 * collector that records which files import an `.astro` file.
 *
 * Each generated module is given to Vite through the same resolve/load
 * gating as `createVirtualModulePlugin`; `path.resolve` and `path.dirname`
 * are parameters.
 */
module LegacyPlugins {
  import opened Wrappers
  import opened Text
  import opened Values
  import Integrations
  import VirtualModules

  type Integration = Integrations.Integration

  /** A plugin whose `load` answers the resolved id with fixed code. */
  function CodePlugin(name: string, virtualModuleId: string, code: string): (r: VirtualModules.VirtualModulePlugin)
    ensures r.pluginName == name && r.virtualModuleId == virtualModuleId
    ensures r.ResolveId(virtualModuleId) == Some("\0" + virtualModuleId)
    ensures r.Load("\0" + virtualModuleId).1 == Ok(Some(code))
    ensures forall id :: id != "\0" + virtualModuleId ==> r.Load(id).1 == Ok(None)
  {
    VirtualModules.VirtualModulePlugin(name, virtualModuleId, (id: string) => Ok(Some(code)))
  }

  // The container renderers module

  const ContainerRenderersName := "astro-container-renderers"

  /** The identifier the server renderer of an integration is imported as. */
  function RendererBinding(integration: Integration): string
  {
    integration.name + "Renderer"
  }

  /** The integrations that declare a server renderer, in order. */
  function WithServer(integrations: seq<Integration>): (r: seq<Integration>)
    ensures |r| <= |integrations|
    ensures forall k :: 0 <= k < |r| ==> r[k].renderer.server.Some? && r[k] in integrations
    ensures forall i :: i in integrations && i.renderer.server.Some? ==> i in r
  {
    if integrations == [] then []
    else
      var rest := WithServer(integrations[1..]);
      if integrations[0].renderer.server.Some? then [integrations[0]] + rest else rest
  }

  /** Filtering a concatenation filters each part and keeps their order. */
  lemma {:induction false} WithServerAppend(a: seq<Integration>, b: seq<Integration>)
    ensures WithServer(a + b) == WithServer(a) + WithServer(b)
    decreases |a|
  {
    if a == [] {
      assert a + b == b;
    } else {
      assert (a + b)[1..] == a[1..] + b;
      WithServerAppend(a[1..], b);
    }
  }

  /** One integration is kept exactly when it declares a server renderer. */
  lemma WithServerSingle(i: Integration)
    ensures WithServer([i]) == if i.renderer.server.Some? then [i] else []
  {
    assert [i][1..] == [];
  }

  /** The import of one server renderer. */
  function ImportLine(integration: Integration): string
    requires integration.renderer.server.Some?
  {
    "import " + RendererBinding(integration) + " from '" + integration.renderer.server.value.entrypoint + "';"
  }

  /** `buildImportStatements`, line by line. */
  function ImportLines(integrations: seq<Integration>): (r: seq<string>)
    ensures |r| == |WithServer(integrations)|
    ensures forall k :: 0 <= k < |r| ==> r[k] == ImportLine(WithServer(integrations)[k])
  {
    var servers := WithServer(integrations);
    seq(|servers|, k requires 0 <= k < |servers| => ImportLine(servers[k]))
  }

  /** `buildImportStatements`. */
  function ImportStatements(integrations: seq<Integration>): string
  {
    Join(ImportLines(integrations), "\n")
  }

  /** Neither a name nor an entrypoint breaks a line. */
  predicate SingleLine(integration: Integration)
  {
    '\n' !in integration.name
    && (integration.renderer.server.Some? ==> '\n' !in integration.renderer.server.value.entrypoint)
  }

  lemma ImportLineSingle(integration: Integration)
    requires integration.renderer.server.Some? && SingleLine(integration)
    ensures '\n' !in ImportLine(integration)
  {
    var e := integration.renderer.server.value.entrypoint;
    assert ImportLine(integration) == "import " + integration.name + ("Renderer from '" + e + "';");
  }

  /**
   * The import statements are exactly one line per integration with a
   * server renderer, in order, each importing `<name>Renderer` from its
   * server entrypoint; the text holds every such import.
   */
  lemma ImportStatementsLines(integrations: seq<Integration>)
    requires forall k :: 0 <= k < |integrations| ==> SingleLine(integrations[k])
    ensures |WithServer(integrations)| >= 1 ==> Split(ImportStatements(integrations), '\n') == ImportLines(integrations)
    ensures forall i :: i in integrations && i.renderer.server.Some? ==> Contains(ImportStatements(integrations), ImportLine(i))
  {
    var lines := ImportLines(integrations);
    var servers := WithServer(integrations);
    forall k | 0 <= k < |lines| ensures '\n' !in lines[k] {
      ImportLineSingle(servers[k]);
    }
    if |servers| >= 1 {
      SplitJoin(lines, '\n');
    }
    forall i | i in integrations && i.renderer.server.Some? ensures Contains(ImportStatements(integrations), ImportLine(i)) {
      var k :| 0 <= k < |servers| && servers[k] == i;
      JoinHasPart(lines, "\n", k);
    }
  }

  /** The `name: '<name>'` property of a registration. */
  function NameProperty(name: string): string
  {
    "name: '" + name + "'"
  }

  /** `buildServerRenderer`: nothing without a server renderer; Solid's renderer is spread with its name overridden. */
  function ServerRegistration(integration: Integration): string
  {
    match integration.renderer.server
    case None => ""
    case Some(server) =>
      if integration.name == "solid" then
        "\n      container.addServerRenderer({\n        " + NameProperty(server.name)
        + ",\n        renderer: {\n          " + ("..." + RendererBinding(integration))
        + (",\n          " + NameProperty(server.name) + "\n        }\n      });\n    ")
      else
        "\n    container.addServerRenderer({\n      " + NameProperty(server.name)
        + ",\n      " + ("renderer: " + RendererBinding(integration)) + "\n    });\n  "
  }

  /** `buildClientRenderer`: nothing without a client renderer, else its name and entrypoint. */
  function ClientRegistration(integration: Integration): string
  {
    match integration.renderer.client
    case None => ""
    case Some(client) =>
      "\n      container.addClientRenderer({\n        " + NameProperty(client.name)
      + ",\n        " + ("entrypoint: '" + client.entrypoint + "'") + "\n      });\n    "
  }

  /**
   * A server registration exists exactly when a server renderer does and
   * names it; Solid's spreads its imported renderer and repeats the name
   * inside it, every other one passes the imported renderer as it is.
   */
  lemma ServerRegistrationFacts(integration: Integration)
    ensures ServerRegistration(integration) == "" <==> integration.renderer.server.None?
    ensures integration.renderer.server.Some? ==>
      Contains(ServerRegistration(integration), NameProperty(integration.renderer.server.value.name))
    ensures integration.renderer.server.Some? && integration.name == "solid" ==>
      Contains(ServerRegistration(integration), "..." + RendererBinding(integration))
    ensures integration.renderer.server.Some? && integration.name != "solid" ==>
      Contains(ServerRegistration(integration), "renderer: " + RendererBinding(integration))
  {
    match integration.renderer.server
    case None =>
    case Some(server) =>
      var name := NameProperty(server.name);
      var binding := RendererBinding(integration);
      if integration.name == "solid" {
        ContainsSecondAndFourth("\n      container.addServerRenderer({\n        ", name, ",\n        renderer: {\n          ",
          "..." + binding, ",\n          " + name + "\n        }\n      });\n    ");
      } else {
        ContainsSecondAndFourth("\n    container.addServerRenderer({\n      ", name, ",\n      ", "renderer: " + binding, "\n    });\n  ");
      }
  }

  /** A client registration exists exactly when a client renderer does, and passes its name and entrypoint. */
  lemma ClientRegistrationFacts(integration: Integration)
    ensures ClientRegistration(integration) == "" <==> integration.renderer.client.None?
    ensures integration.renderer.client.Some? ==>
      Contains(ClientRegistration(integration), NameProperty(integration.renderer.client.value.name))
      && Contains(ClientRegistration(integration), "entrypoint: '" + integration.renderer.client.value.entrypoint + "'")
  {
    match integration.renderer.client
    case None =>
    case Some(client) =>
      ContainsSecondAndFourth("\n      container.addClientRenderer({\n        ", NameProperty(client.name), ",\n        ",
        "entrypoint: '" + client.entrypoint + "'", "\n      });\n    ");
  }

  /** One integration's registrations: the server one, a line break, the client one. */
  function Registration(integration: Integration): string
  {
    ServerRegistration(integration) + "\n" + ClientRegistration(integration)
  }

  /** The integrations' registrations, in list order. */
  function RegistrationList(integrations: seq<Integration>): (r: seq<string>)
    ensures |r| == |integrations| && forall k :: 0 <= k < |r| ==> r[k] == Registration(integrations[k])
  {
    seq(|integrations|, k requires 0 <= k < |integrations| => Registration(integrations[k]))
  }

  /** The body of `addRenderers`. */
  function Registrations(integrations: seq<Integration>): string
  {
    Join(RegistrationList(integrations), "\n")
  }

  /** The container renderers module. */
  function ContainerRenderersCode(integrations: seq<Integration>): string
  {
    "\n          " + ImportStatements(integrations)
    + "\n          export function addRenderers(container) {\n            "
    + Registrations(integrations) + "\n          }\n        "
  }

  /** `viteAstroContainerRenderersPlugin`. */
  function ContainerRenderersPlugin(integrations: seq<Integration>): (r: VirtualModules.VirtualModulePlugin)
    ensures r.virtualModuleId == "virtual:" + ContainerRenderersName
    ensures r.Load(r.ResolvedId()).1 == Ok(Some(ContainerRenderersCode(integrations)))
  {
    CodePlugin(ContainerRenderersName, "virtual:" + ContainerRenderersName, ContainerRenderersCode(integrations))
  }

  /**
   * `addRenderers` registers every integration: the module holds each
   * one's server registration followed by its client registration.
   */
  lemma ContainerRenderersRegisterAll(integrations: seq<Integration>, k: nat)
    requires k < |integrations|
    ensures Contains(ContainerRenderersCode(integrations), Registration(integrations[k]))
    ensures Contains(ContainerRenderersCode(integrations), ServerRegistration(integrations[k]))
    ensures Contains(ContainerRenderersCode(integrations), ClientRegistration(integrations[k]))
  {
    var code := ContainerRenderersCode(integrations);
    var server := ServerRegistration(integrations[k]);
    var client := ClientRegistration(integrations[k]);
    JoinHasPart(RegistrationList(integrations), "\n", k);
    ContainsInfix("\n          " + ImportStatements(integrations) + "\n          export function addRenderers(container) {\n            ",
      Registrations(integrations), "\n          }\n        ");
    ContainsTrans(code, Registrations(integrations), Registration(integrations[k]));
    ContainsEnds(server + "\n", client);
    ContainsEnds(server, "\n");
    ContainsTrans(code, server + "\n" + client, client);
    ContainsTrans(code, server + "\n" + client, server + "\n");
    ContainsTrans(code, server + "\n", server);
  }

  // The Storybook renderer fallback

  const RendererFallbackName := "storybook-renderer-fallback"

  /** `integration.storybookEntryPreview` when it is a non-empty string. */
  function EntryPreview(integration: Integration): Option<string>
  {
    var p := integration.storybookEntryPreview;
    if p.Some? && p.value != "" then p else None
  }

  /** `export * as <name> from '<preview>';` */
  function ExportLine(name: string, preview: string): string
  {
    "export * as " + name + " from '" + preview + "';"
  }

  /** One export line per integration with an entry preview, in order. */
  function FallbackLines(integrations: seq<Integration>): (r: seq<string>)
    ensures |r| <= |integrations|
    ensures forall i :: i in integrations && EntryPreview(i).Some? ==>
      ExportLine(i.name, EntryPreview(i).value) in r
  {
    if integrations == [] then []
    else
      var rest := FallbackLines(integrations[1..]);
      match EntryPreview(integrations[0])
      case None => rest
      case Some(preview) => [ExportLine(integrations[0].name, preview)] + rest
  }

  /** The lines of a concatenation are the lines of each part, in order. */
  lemma {:induction false} FallbackLinesAppend(a: seq<Integration>, b: seq<Integration>)
    ensures FallbackLines(a + b) == FallbackLines(a) + FallbackLines(b)
    decreases |a|
  {
    if a == [] {
      assert a + b == b;
    } else {
      assert (a + b)[1..] == a[1..] + b;
      FallbackLinesAppend(a[1..], b);
    }
  }

  /** One integration gives its export line exactly when it has an entry preview. */
  lemma FallbackLinesSingle(i: Integration)
    ensures FallbackLines([i]) == if EntryPreview(i).Some? then [ExportLine(i.name, EntryPreview(i).value)] else []
  {
    assert [i][1..] == [];
  }

  /** The fallback module: the export lines joined by line breaks. */
  function FallbackCode(integrations: seq<Integration>): string
  {
    Join(FallbackLines(integrations), "\n")
  }

  /** `viteStorybookRendererFallbackPlugin`. */
  function RendererFallbackPlugin(integrations: seq<Integration>): (r: VirtualModules.VirtualModulePlugin)
    ensures r.virtualModuleId == "virtual:" + RendererFallbackName
    ensures r.Load(r.ResolvedId()).1 == Ok(Some(FallbackCode(integrations)))
  {
    CodePlugin(RendererFallbackName, "virtual:" + RendererFallbackName, FallbackCode(integrations))
  }

  /** Integrations without an entry preview add nothing to the fallback module. */
  lemma {:induction false} FallbackSkipsOthers(before: seq<Integration>, other: Integration, after: seq<Integration>)
    requires EntryPreview(other).None?
    ensures FallbackLines(before + [other] + after) == FallbackLines(before + after)
    decreases |before|
  {
    if before == [] {
      assert before + [other] + after == [other] + after && before + after == after;
      assert ([other] + after)[1..] == after;
    } else {
      FallbackSkipsOthers(before[1..], other, after);
      assert (before + [other] + after)[1..] == before[1..] + [other] + after;
      assert (before + after)[1..] == before[1..] + after;
    }
  }

  /** Only the Vue integration declares an entry preview. */
  lemma EntryPreviewOfMade(f: Integrations.Framework, options: Option<Value>)
    ensures EntryPreview(Integrations.Make(f, options)) ==
      if f == Integrations.Vue then Some(Integrations.VueEntryPreview) else None
  {
  }

  /** Of the five framework integrations, Vue is the one the fallback module re-exports. */
  lemma FallbackExportsVueOnly(react: Integration, preact: Integration, solid: Integration, svelte: Integration, vue: Integration,
                               options: seq<Option<Value>>)
    requires |options| == 5
    requires react == Integrations.Make(Integrations.React, options[0])
    requires preact == Integrations.Make(Integrations.Preact, options[1])
    requires solid == Integrations.Make(Integrations.Solid, options[2])
    requires svelte == Integrations.Make(Integrations.Svelte, options[3])
    requires vue == Integrations.Make(Integrations.Vue, options[4])
    ensures FallbackCode([react, preact, solid, svelte, vue]) == ExportLine("vue", Integrations.VueEntryPreview)
  {
    EntryPreviewOfMade(Integrations.React, options[0]);
    EntryPreviewOfMade(Integrations.Preact, options[1]);
    EntryPreviewOfMade(Integrations.Solid, options[2]);
    EntryPreviewOfMade(Integrations.Svelte, options[3]);
    EntryPreviewOfMade(Integrations.Vue, options[4]);
    assert [react, preact, solid, svelte, vue][1..] == [preact, solid, svelte, vue];
    assert [preact, solid, svelte, vue][1..] == [solid, svelte, vue];
    assert [solid, svelte, vue][1..] == [svelte, vue];
    assert [svelte, vue][1..] == [vue];
    assert FallbackLines([react, preact, solid, svelte, vue]) == FallbackLines([preact, solid, svelte, vue]);
    assert FallbackLines([preact, solid, svelte, vue]) == FallbackLines([solid, svelte, vue]);
    assert FallbackLines([solid, svelte, vue]) == FallbackLines([svelte, vue]);
    assert FallbackLines([svelte, vue]) == FallbackLines([vue]);
    assert vue.name == "vue";
    assert FallbackLines([vue]) == [ExportLine("vue", Integrations.VueEntryPreview)] by {
      assert [vue][1..] == [];
    }
  }

  // The renderer module for the mode

  const AstroRendererName := "storybook-astro-renderer"

  /** The renderer module: `renderer.ts` in production mode, `renderer-dev.ts` otherwise (an absent mode is development). */
  function AstroRendererCode(mode: Option<string>): (r: string)
    ensures mode == Some("production") <==> r == "export * from '@storybook/astro/renderer/renderer.ts';"
    ensures mode != Some("production") <==> r == "export * from '@storybook/astro/renderer/renderer-dev.ts';"
  {
    var suffix := if mode == Some("production") then "" else "-dev";
    var r := "export * from '@storybook/astro/renderer/renderer" + suffix + ".ts';";
    assert r[49] == (if mode == Some("production") then '.' else '-');
    r
  }

  /** `viteStorybookAstroRendererPlugin`; `load` answers with the code as a `{ code }` object. */
  function AstroRendererPlugin(mode: Option<string>): (r: VirtualModules.VirtualModulePlugin)
    ensures r.virtualModuleId == "virtual:" + AstroRendererName
    ensures r.Load(r.ResolvedId()).1 == Ok(Some(AstroRendererCode(mode)))
  {
    CodePlugin(AstroRendererName, "virtual:" + AstroRendererName, AstroRendererCode(mode))
  }

  // The `virtual:astro-files` module

  const AstroFilesId := "virtual:astro-files"

  /** One record of the `reduce`: the numbered identifier, the file and its import statement. */
  datatype ImportRecord = ImportRecord(id: string, file: string, importStatement: string)

  /** `_astroFile<index>`. */
  function AstroFileId(index: nat): string
  {
    "_astroFile" + NatToString(index)
  }

  /** The record the `reduce` appends for the file at `index`. */
  function RecordFor(file: string, index: nat): ImportRecord
  {
    ImportRecord(AstroFileId(index), file, "import " + AstroFileId(index) + " from '" + file + "';")
  }

  /** The `reduce` over the components: each file's record, numbered by its position. */
  function ImportRecords(files: seq<string>): (r: seq<ImportRecord>)
    ensures |r| == |files|
    ensures forall k :: 0 <= k < |r| ==> r[k] == RecordFor(files[k], k)
  {
    if files == [] then []
    else ImportRecords(files[..|files| - 1]) + [RecordFor(files[|files| - 1], |files| - 1)]
  }

  /** The imports, in order. */
  function ImportStatementsOf(records: seq<ImportRecord>): (r: seq<string>)
    ensures |r| == |records| && forall k :: 0 <= k < |r| ==> r[k] == records[k].importStatement
  {
    seq(|records|, k requires 0 <= k < |records| => records[k].importStatement)
  }

  /** The default export's properties, `'<file>': <id>`, in order. */
  function ExportEntriesOf(records: seq<ImportRecord>): (r: seq<string>)
    ensures |r| == |records| && forall k :: 0 <= k < |r| ==> r[k] == "'" + records[k].file + "': " + records[k].id
  {
    seq(|records|, k requires 0 <= k < |records| => "'" + records[k].file + "': " + records[k].id)
  }

  /** `astroFilesVirtualModulePlugin`'s module: the imports, then the default export, joined by line breaks. */
  function AstroFilesCode(files: seq<string>): string
  {
    var records := ImportRecords(files);
    Join([Join(ImportStatementsOf(records), "\n"), "export default {", Join(ExportEntriesOf(records), ",\n"), "};"], "\n")
  }

  /** `astroFilesVirtualModulePlugin`. */
  function AstroFilesVirtualModulePlugin(files: seq<string>): (r: VirtualModules.VirtualModulePlugin)
    ensures r.pluginName == "storybook-astro:virtual-astro-files" && r.virtualModuleId == AstroFilesId
    ensures r.Load(r.ResolvedId()).1 == Ok(Some(AstroFilesCode(files)))
  {
    CodePlugin("storybook-astro:virtual-astro-files", AstroFilesId, AstroFilesCode(files))
  }

  /** The module `astroFilesPlugin` of the server build generates, with its template's indentation. */
  function ServerAstroFilesCode(files: seq<string>): string
  {
    var records := ImportRecords(files);
    "\n            " + Join(ImportStatementsOf(records), "\n")
    + "\n            export default {\n              " + Join(ExportEntriesOf(records), ",\n")
    + "\n            };\n          "
  }

  /** `astroFilesPlugin` of the server build. */
  function ServerAstroFilesPlugin(files: seq<string>): (r: VirtualModules.VirtualModulePlugin)
    ensures r.pluginName == "astro-files" && r.virtualModuleId == AstroFilesId
    ensures r.Load(r.ResolvedId()).1 == Ok(Some(ServerAstroFilesCode(files)))
  {
    CodePlugin("astro-files", AstroFilesId, ServerAstroFilesCode(files))
  }

  /**
   * Each component is imported under its numbered identifier, and the
   * default export maps the file to that identifier.
   */
  lemma AstroFilesBindings(files: seq<string>, k: nat)
    requires k < |files|
    ensures Contains(AstroFilesCode(files), "import " + AstroFileId(k) + " from '" + files[k] + "';")
    ensures Contains(AstroFilesCode(files), "'" + files[k] + "': " + AstroFileId(k))
  {
    var records := ImportRecords(files);
    var imports := Join(ImportStatementsOf(records), "\n");
    var entries := Join(ExportEntriesOf(records), ",\n");
    var parts := [imports, "export default {", entries, "};"];
    JoinHasPart(ImportStatementsOf(records), "\n", k);
    JoinHasPart(parts, "\n", 0);
    ContainsTrans(AstroFilesCode(files), imports, records[k].importStatement);
    JoinHasPart(ExportEntriesOf(records), ",\n", k);
    JoinHasPart(parts, "\n", 2);
    ContainsTrans(AstroFilesCode(files), entries, ExportEntriesOf(records)[k]);
  }

  /** No two components share an identifier. */
  lemma AstroFileIdsDistinct(files: seq<string>)
    ensures forall j, k :: 0 <= j < k < |files| ==> ImportRecords(files)[j].id != ImportRecords(files)[k].id
  {
    forall j, k | 0 <= j < k < |files| ensures AstroFileId(j) != AstroFileId(k) {
      if AstroFileId(j) == AstroFileId(k) {
        assert NatToString(j) == AstroFileId(j)[10..];
        assert NatToString(k) == AstroFileId(k)[10..];
        NatToStringInjective(j, k);
      }
    }
  }

  /** With no components the module has no imports and an empty default export. */
  lemma NoAstroFiles()
    ensures Split(AstroFilesCode([]), '\n') == ["", "export default {", "", "};"]
  {
    assert ImportStatementsOf(ImportRecords([])) == [] && ExportEntriesOf(ImportRecords([])) == [];
    SplitJoin(["", "export default {", "", "};"], '\n');
  }

  // Collecting the files that import Astro components

  /** `set.add(x)` on a set kept in insertion order. */
  function AddDistinct(xs: seq<string>, x: string): (r: seq<string>)
    ensures x in r && forall y :: y in r <==> y in xs || y == x
    ensures (forall i, j :: 0 <= i < j < |xs| ==> xs[i] != xs[j]) ==> forall i, j :: 0 <= i < j < |r| ==> r[i] != r[j]
  {
    if x in xs then xs else xs + [x]
  }

  /**
   * `storiesMap` of `astroServerRenderPlugin`: for each resolved Astro
   * component, in first-seen order, the set of files that import it.
   */
  class StoriesMap {
    var keys: seq<string>
    var importers: map<string, seq<string>>

    /** The keys are distinct and are the map's keys; each importer set is distinct. */
    ghost predicate Valid()
      reads this
    {
      (forall i, j :: 0 <= i < j < |keys| ==> keys[i] != keys[j])
      && (forall key :: key in importers <==> key in keys)
      && (forall key :: key in importers ==> forall i, j :: 0 <= i < j < |importers[key]| ==> importers[key][i] != importers[key][j])
    }

    constructor ()
      ensures Valid() && keys == [] && importers == map[]
    {
      keys := [];
      importers := map[];
    }

    /**
     * The `collect-astro-files` hook: an id ending in `.astro` that has a
     * truthy (present and non-empty) importer is resolved against the
     * importer's directory, and the importer is added to that component's
     * set. The hook never resolves the id itself.
     */
    method ResolveId(id: string, importer: Option<string>, resolve: (string, string) -> string, dirname: string -> string)
      returns (r: Option<string>)
      requires Valid()
      modifies this
      ensures Valid() && r == None
      ensures !(EndsWith(id, ".astro") && importer.Some? && importer.value != "") ==> keys == old(keys) && importers == old(importers)
      ensures EndsWith(id, ".astro") && importer.Some? && importer.value != "" ==>
        var key := resolve(dirname(importer.value), id);
        keys == (if key in old(keys) then old(keys) else old(keys) + [key])
        && importers == old(importers)[key := AddDistinct(if key in old(importers) then old(importers)[key] else [], importer.value)]
    {
      r := None;
      if EndsWith(id, ".astro") {
        if importer.Some? && importer.value != "" {
          var absAstroPath := resolve(dirname(importer.value), id);
          if absAstroPath !in importers {
            importers := importers[absAstroPath := []];
            keys := keys + [absAstroPath];
          }
          importers := importers[absAstroPath := AddDistinct(importers[absAstroPath], importer.value)];
        }
      }
    }

    /** `buildEnd`: the components handed to the server build are the map's keys, in insertion order. */
    method AstroComponents() returns (components: seq<string>)
      requires Valid()
      ensures components == keys
      ensures forall c :: c in components <==> c in importers
      ensures forall i, j :: 0 <= i < j < |components| ==> components[i] != components[j]
    {
      components := keys;
    }
  }

  /**
   * Two imports of the same component from two files record it once, with
   * both importers; an empty importer is falsy and records nothing, so the
   * component is recorded with the importers that are non-empty.
   */
  method TwoImporters(resolve: (string, string) -> string, dirname: string -> string, id: string, a: string, b: string)
    returns (components: seq<string>, importerSet: seq<string>)
    requires EndsWith(id, ".astro") && a != b
    requires resolve(dirname(a), id) == resolve(dirname(b), id)
    ensures a != "" && b != "" ==> components == [resolve(dirname(a), id)] && importerSet == [a, b]
    ensures a == "" ==> components == [resolve(dirname(a), id)] && importerSet == [b]
    ensures b == "" ==> components == [resolve(dirname(a), id)] && importerSet == [a]
  {
    var key := resolve(dirname(a), id);
    var m := new StoriesMap();
    var _ := m.ResolveId(id, Some(a), resolve, dirname);
    assert m.keys == (if a != "" then [key] else []);
    assert a != "" ==> m.importers[key] == [a];
    var _ := m.ResolveId(id, Some(b), resolve, dirname);
    assert m.keys == [key];
    var both := m.importers[key];
    assert both == (if a == "" then [b] else if b == "" then [a] else [a, b]);
    var _ := m.ResolveId(id, Some(a), resolve, dirname);
    assert m.importers[key] == both;
    components := m.AstroComponents();
    importerSet := m.importers[components[0]];
  }

  /** An import with an empty importer leaves the recorded components unchanged. */
  method EmptyImporterIgnored(resolve: (string, string) -> string, dirname: string -> string, id: string, first: string)
    returns (components: seq<string>)
    requires EndsWith(id, ".astro") && first != ""
    ensures components == [resolve(dirname(first), id)]
  {
    var m := new StoriesMap();
    var _ := m.ResolveId(id, Some(first), resolve, dirname);
    var _ := m.ResolveId(id, Some(""), resolve, dirname);
    components := m.AstroComponents();
  }
}
