/**
 * The framework integrations of `@storybook/astro` (the files under `integrations`):
 * what each declares (name, dependencies, options, server and client
 * renderers, an optional Storybook entry preview) and `resolveClient`,
 * which sends the framework's Astro client module through Vite's `/@id/`
 * prefix. Loading the Astro integration and rendering to a canvas are
 * imports of foreign packages and are not part of this model.
 */
module Integrations {
  import opened Wrappers
  import opened Text
  import opened Records
  import opened Values

  /** One renderer of an integration: its registered name and the module that implements it. */
  datatype RendererEntry = RendererEntry(name: string, entrypoint: string)

  /** `RendererDeclaration`: the server and the client renderer, each optional. */
  datatype RendererDeclaration = RendererDeclaration(server: Option<RendererEntry>, client: Option<RendererEntry>)

  /**
   * An integration as the plugins see it. `resolveClient` answers with a
   * module id or with nothing (`undefined`).
   */
  datatype Integration = Integration(
    name: string,
    dependencies: seq<string>,
    options: Value,
    renderer: RendererDeclaration,
    storybookEntryPreview: Option<string>,
    resolveClient: string -> Option<string>)

  /** The five integrations with a renderer. */
  datatype Framework = React | Preact | Solid | Svelte | Vue
  {
    /** The integration's `name`. */
    function Name(): string
    {
      match this
      case React => "react"
      case Preact => "preact"
      case Solid => "solid"
      case Svelte => "svelte"
      case Vue => "vue"
    }

    /** The part after `@astrojs/` of the Astro package. */
    function PackageTail(): string
    {
      match this
      case React => "react"
      case Preact => "preact"
      case Solid => "solid-js"
      case Svelte => "svelte"
      case Vue => "vue"
    }

    /** The Astro package whose renderers the integration declares. */
    function AstroPackage(): string
    {
      AstroScope + PackageTail()
    }

    /** `dependencies`. */
    function Dependencies(): seq<string>
    {
      match this
      case React => ["@astrojs/react", "@storybook/react", "react", "react-dom"]
      case Preact => ["@astrojs/preact", "@storybook/preact", "preact"]
      case Solid => ["@astrojs/solid-js", "storybook-solidjs", "solid-js"]
      case Svelte => ["@astrojs/svelte", "@storybook/svelte", "svelte"]
      case Vue => ["@astrojs/vue", "@storybook/vue3"]
    }

    /** The options the constructor uses when given none. */
    function DefaultOptions(): Value
    {
      match this
      case Svelte => Obj([Entry("extensions", Arr([Str(".svelte")]))])
      case Vue => Obj([Entry("include", Arr([Str(VueFilePattern)]))])
      case _ => Obj([])
    }

    /** `storybookEntryPreview`: only the Vue integration declares one. */
    function EntryPreview(): Option<string>
    {
      if this == Vue then Some(VueEntryPreview) else None
    }
  }

  const AstroScope := "@astrojs/"

  /** The Vue integration's default `include` pattern, every `.vue` file at any depth. */
  const VueFilePattern := "**/*.vue"

  /** The Vue integration's `storybookEntryPreview`. */
  const VueEntryPreview := "@storybook/vue3/dist/entry-preview.mjs"

  /** Vite's prefix for serving a bare module id. */
  const IdPrefix := "/@id/"

  /** The prefix `resolveClient` recognises: the package's `client` path. */
  function ClientPrefix(f: Framework): string
  {
    f.AstroPackage() + "/client"
  }

  /**
   * `resolveClient`: a module name starting with the package's client path
   * is served as `/@id/<name>`; any other gives `undefined`.
   */
  function ResolveClient(f: Framework, moduleName: string): (r: Option<string>)
    ensures r.Some? <==> StartsWith(moduleName, ClientPrefix(f))
    ensures r.Some? ==> StartsWith(r.value, IdPrefix) && r.value[|IdPrefix|..] == moduleName
  {
    if StartsWith(moduleName, ClientPrefix(f)) then Some(IdPrefix + moduleName) else None
  }

  /** The renderer declaration: both renderers carry the package's name, with its `server.js` and `client.js`. */
  function Declaration(f: Framework): RendererDeclaration
  {
    var name := f.AstroPackage();
    RendererDeclaration(
      Some(RendererEntry(name, name + "/server.js")),
      Some(RendererEntry(name, name + "/client.js")))
  }

  /** The integration the factory builds, with the given options or the framework's defaults. */
  function Make(f: Framework, options: Option<Value>): (r: Integration)
    ensures r.name == f.Name() && r.dependencies == f.Dependencies()
    ensures options.Some? ==> r.options == options.value
    ensures options.None? ==> r.options == f.DefaultOptions()
    ensures r.renderer == Declaration(f) && r.storybookEntryPreview == f.EntryPreview()
    ensures forall m :: r.resolveClient(m) == ResolveClient(f, m)
  {
    Integration(f.Name(), f.Dependencies(), options.UnwrapOr(f.DefaultOptions()), Declaration(f), f.EntryPreview(),
      (m: string) => ResolveClient(f, m))
  }

  /** Both renderers are named after the Astro package, and the client one resolves through the integration's own `resolveClient`. */
  lemma DeclarationFacts(f: Framework)
    ensures var d := Declaration(f);
      d.server.Some? && d.client.Some?
      && d.server.value.name == d.client.value.name == f.AstroPackage()
      && d.server.value.entrypoint == f.AstroPackage() + "/server.js"
      && d.client.value.entrypoint == f.AstroPackage() + "/client.js"
      && ResolveClient(f, d.client.value.entrypoint) == Some(IdPrefix + d.client.value.entrypoint)
  {
    var c := f.AstroPackage() + "/client.js";
    assert c == ClientPrefix(f) + ".js";
    assert c[..|ClientPrefix(f)|] == ClientPrefix(f);
  }

  /** The integrations' own options defaults: empty for React, Preact and Solid; the file patterns for Svelte and Vue. */
  lemma DefaultOptionsFacts(f: Framework)
    ensures f.DefaultOptions().Obj?
    ensures f != Svelte && f != Vue <==> f.DefaultOptions() == Obj([])
    ensures f == Svelte ==> Get(f.DefaultOptions().fields, "extensions") == Arr([Str(".svelte")])
    ensures f == Vue ==> Get(f.DefaultOptions().fields, "include") == Arr([Str(VueFilePattern)])
  {
  }

  /** The client prefixes of two integrations differ in the two characters after `@astrojs/`. */
  lemma ClientPrefixesDiffer(f: Framework, g: Framework)
    requires f != g
    ensures |ClientPrefix(f)| >= 11 && |ClientPrefix(g)| >= 11
    ensures ClientPrefix(f)[9..11] != ClientPrefix(g)[9..11]
  {
    assert ClientPrefix(f)[9..11] == f.PackageTail()[..2];
    assert ClientPrefix(g)[9..11] == g.PackageTail()[..2];
    assert f.PackageTail()[0] != g.PackageTail()[0] || f.PackageTail()[1] != g.PackageTail()[1];
  }

  /** No module name is claimed by two different integrations. */
  lemma ResolversDisjoint(f: Framework, g: Framework, moduleName: string)
    requires f != g
    ensures ResolveClient(f, moduleName).None? || ResolveClient(g, moduleName).None?
  {
    ClientPrefixesDiffer(f, g);
    if ResolveClient(f, moduleName).Some? && ResolveClient(g, moduleName).Some? {
      PrefixPart(moduleName, ClientPrefix(f));
      PrefixPart(moduleName, ClientPrefix(g));
      assert false;
    }
  }

  /** A string agrees with its prefix on the two characters after `@astrojs/`. */
  lemma PrefixPart(s: string, prefix: string)
    requires |prefix| >= 11 && StartsWith(s, prefix)
    ensures s[9..11] == prefix[9..11]
  {
    assert s[..|prefix|][9..11] == s[9..11];
  }
}
