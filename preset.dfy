/**
 * The Storybook preset of `@astrostory/core` (`preset.ts`): the changes
 * `viteFinal` makes to the Vite configuration before handing it to Astro,
 * namely the environment-variable prefixes, the plugins it adds, the
 * React aliases and, for a production build, the manifest and the strict
 * entry signatures.
 */
module Preset {
  import opened Wrappers
  import opened Text
  import opened Records
  import opened Values

  /** Vite's `envPrefix`: unset, one prefix, or a list. */
  datatype EnvPrefix = NoPrefix | OnePrefix(prefix: string) | PrefixList(prefixes: seq<string>)

  /** The prefixes an `envPrefix` setting stands for; an empty string stands for none. */
  function PrefixesOf(existing: EnvPrefix): (r: seq<string>)
    ensures existing.PrefixList? ==> r == existing.prefixes
    ensures existing.OnePrefix? && existing.prefix != "" ==> r == [existing.prefix]
    ensures existing.NoPrefix? || existing == OnePrefix("") ==> r == []
  {
    match existing
    case NoPrefix => []
    case OnePrefix(p) => if p != "" then [p] else []
    case PrefixList(ps) => ps
  }

  /** `mergeEnvPrefixes`: the existing prefixes and the added one, each once, in first-occurrence order. */
  function MergeEnvPrefixes(existing: EnvPrefix, additionalPrefix: string): seq<string>
  {
    Dedup(PrefixesOf(existing) + [additionalPrefix])
  }

  /**
   * The merged list holds the added prefix, has no repetitions, holds
   * exactly the existing prefixes besides, and starts with the existing
   * ones in their order.
   */
  lemma MergeEnvPrefixesFacts(existing: EnvPrefix, additionalPrefix: string)
    ensures var r := MergeEnvPrefixes(existing, additionalPrefix);
      additionalPrefix in r
      && (forall i, j :: 0 <= i < j < |r| ==> r[i] != r[j])
      && (forall p :: p in r <==> p in PrefixesOf(existing) || p == additionalPrefix)
      && r[..|Dedup(PrefixesOf(existing))|] == Dedup(PrefixesOf(existing))
  {
    var xs := PrefixesOf(existing) + [additionalPrefix];
    DedupSameElements(xs);
    DedupDistinct(xs);
    assert xs[..|xs| - 1] == PrefixesOf(existing);
  }

  /** A list without repetitions that already holds the prefix is kept as it is; otherwise the prefix is appended. */
  lemma MergeIntoDistinctList(prefixes: seq<string>, additionalPrefix: string)
    requires forall i, j :: 0 <= i < j < |prefixes| ==> prefixes[i] != prefixes[j]
    ensures MergeEnvPrefixes(PrefixList(prefixes), additionalPrefix)
      == if additionalPrefix in prefixes then prefixes else prefixes + [additionalPrefix]
  {
    var xs := prefixes + [additionalPrefix];
    assert xs[..|xs| - 1] == prefixes;
    DedupOfDistinct(prefixes);
  }

  /** The plugins `viteFinal` adds, by kind (the plugin objects themselves are not modelled). */
  datatype PluginTag =
    | RendererFallback
    | RendererModule(production: bool)
    | AstroMiddleware
    | AstroServerRender

  datatype ConfigType = Development | Production

  /** The plugins added for every configuration type: the fallback, then the renderer module for the mode. */
  function RendererPlugins(configType: ConfigType): seq<PluginTag>
  {
    [RendererFallback, RendererModule(configType == Production)]
  }

  /**
   * The plugins added last, as one tag for the whole group: in development
   * the dev-server middleware followed by the plugins of its Vite
   * configuration (CSS and asset serving); in a build every plugin
   * `astroServerRenderPlugin` returns, spread in order.
   */
  function ModePlugin(configType: ConfigType): PluginTag
  {
    if configType == Development then AstroMiddleware else AstroServerRender
  }

  /** `aliases.react ??= 'react'` and the same for `react-dom`. */
  function AliasDefaults(alias: seq<Field>): seq<Field>
  {
    var a := if Defined(Get(alias, "react")) then alias else Assign(alias, "react", Str("react"));
    if Defined(Get(a, "react-dom")) then a else Assign(a, "react-dom", Str("react-dom"))
  }

  /** Each React alias is set to its package name only when it is unset or `null`; every other alias is kept. */
  lemma AliasDefaultsFacts(alias: seq<Field>)
    ensures var r := AliasDefaults(alias);
      Get(r, "react") == (if Defined(Get(alias, "react")) then Get(alias, "react") else Str("react"))
      && Get(r, "react-dom") == (if Defined(Get(alias, "react-dom")) then Get(alias, "react-dom") else Str("react-dom"))
      && (forall k :: k != "react" && k != "react-dom" ==> Lookup(r, k) == Lookup(alias, k))
      && (UniqueKeys(alias) ==> UniqueKeys(r))
  {
  }

  /** `{...v}` for the values a build option holds: a record's own entries, nothing for `undefined` and `null`. */
  function SpreadOf(v: Value): (r: seq<Field>)
    ensures v.Obj? ==> r == v.fields
  {
    if v.Obj? then v.fields else []
  }

  /**
   * The production build options: `manifest` set, and the Rollup options
   * spread with `preserveEntrySignatures: 'strict'`.
   */
  function ProductionBuild(build: seq<Field>): seq<Field>
  {
    var withManifest := Assign(build, "manifest", Bool(true));
    var rollup := Assign(SpreadOf(Get(withManifest, "rollupOptions")), "preserveEntrySignatures", Str("strict"));
    Assign(withManifest, "rollupOptions", Obj(rollup))
  }

  /** A spread that adds one property is that property's assignment, as `ProductionBuild` writes it. */
  lemma SpreadOne<V>(a: seq<Entry<V>>, key: string, v: V)
    ensures Spread(a, [Entry(key, v)]) == Assign(a, key, v)
  {
    assert [Entry(key, v)][1..] == [];
  }

  /**
   * A production build always writes the manifest and keeps entry
   * signatures strictly; every other build and Rollup option is kept.
   */
  lemma ProductionBuildFacts(build: seq<Field>)
    ensures var r := ProductionBuild(build);
      Get(r, "manifest") == Bool(true)
      && Get(r, "rollupOptions").Obj?
      && Get(Get(r, "rollupOptions").fields, "preserveEntrySignatures") == Str("strict")
      && (forall k :: k != "preserveEntrySignatures" ==>
            Lookup(Get(r, "rollupOptions").fields, k) == Lookup(SpreadOf(Get(build, "rollupOptions")), k))
      && (forall k :: k != "manifest" && k != "rollupOptions" ==> Lookup(r, k) == Lookup(build, k))
  {
  }

  /** The parts of the Vite configuration `viteFinal` changes, updated in place. */
  class ViteConfig {
    var plugins: Option<seq<PluginTag>>
    var envPrefix: EnvPrefix
    var alias: Option<seq<Field>>
    var build: Option<seq<Field>>

    constructor (plugins: Option<seq<PluginTag>>, envPrefix: EnvPrefix, alias: Option<seq<Field>>, build: Option<seq<Field>>)
      ensures this.plugins == plugins && this.envPrefix == envPrefix && this.alias == alias && this.build == build
    {
      this.plugins := plugins;
      this.envPrefix := envPrefix;
      this.alias := alias;
      this.build := build;
    }

    /**
     * `viteFinal` up to the merge with the Astro configuration: the
     * `STORYBOOK_` prefix, the renderer plugins, the React aliases; then
     * the dev middleware for development, or the build flags and the
     * server-render plugin for production.
     */
    method ViteFinal(configType: ConfigType)
      modifies this
      ensures envPrefix == PrefixList(MergeEnvPrefixes(old(envPrefix), "STORYBOOK_"))
      ensures alias == Some(AliasDefaults(old(alias).UnwrapOr([])))
      ensures plugins == Some(old(plugins).UnwrapOr([]) + RendererPlugins(configType) + [ModePlugin(configType)])
      ensures configType == Development ==> build == old(build)
      ensures configType == Production ==> build == Some(ProductionBuild(old(build).UnwrapOr([])))
    {
      var newBuild := if configType == Production then Some(ProductionBuild(build.UnwrapOr([]))) else build;
      var newAlias := Some(AliasDefaults(alias.UnwrapOr([])));
      var newPrefix := PrefixList(MergeEnvPrefixes(envPrefix, "STORYBOOK_"));
      var newPlugins := Some(plugins.UnwrapOr([]) + RendererPlugins(configType) + [ModePlugin(configType)]);
      plugins, envPrefix, alias, build := newPlugins, newPrefix, newAlias, newBuild;
    }
  }

  /** Existing React aliases are never overwritten. */
  lemma ExistingAliasesKept(alias: seq<Field>)
    requires Defined(Get(alias, "react")) && Defined(Get(alias, "react-dom"))
    ensures forall k :: Lookup(AliasDefaults(alias), k) == Lookup(alias, k)
  {
    AliasDefaultsFacts(alias);
    forall k ensures Lookup(AliasDefaults(alias), k) == Lookup(alias, k) {
      if k == "react" || k == "react-dom" {
        assert HasKey(alias, k);
      }
    }
  }
}
