/**
 * The static-prerender plugins of `@astrostory/core`
 * (`vite/astroStaticPrerenderPlugin.ts`): the virtual modules that make
 * Rollup emit a chunk per client entrypoint and per hydratable component,
 * the map from module specifier to emitted file, the resolution of client
 * modules the Astro container asks for, and the preparation of each
 * story's args and slots.
 *
 * Rollup's `emitFile`/`getFileName`, reading the story index from disk,
 * walking the source tree and rendering in the Astro container are given
 * as inputs.
 */
module StaticPrerender {
  import opened Wrappers
  import opened Text
  import opened Records
  import opened Values
  import Integrations

  // Percent-encoding (section 2.1 of RFC 3986), as encodeURIComponent and decodeURIComponent apply it

  /** The characters `encodeURIComponent` leaves as they are. */
  predicate Unescaped(c: char)
  {
    ('A' <= c <= 'Z') || ('a' <= c <= 'z') || ('0' <= c <= '9')
    || c == '-' || c == '_' || c == '.' || c == '!' || c == '~' || c == '*' || c == '\'' || c == '(' || c == ')'
  }

  predicate IsHexDigit(c: char)
  {
    ('0' <= c <= '9') || ('A' <= c <= 'F') || ('a' <= c <= 'f')
  }

  /** The upper-case hexadecimal digit for `n`. */
  function UpperHexDigit(n: nat): (c: char)
    requires n < 16
    ensures IsHexDigit(c)
  {
    if n < 10 then ('0' as int + n) as char else ('A' as int + n - 10) as char
  }

  /** The value of a hexadecimal digit, in either case. */
  function HexValue(c: char): (n: nat)
    requires IsHexDigit(c)
    ensures n < 16
  {
    if '0' <= c <= '9' then c as int - '0' as int
    else if 'A' <= c <= 'F' then c as int - 'A' as int + 10
    else c as int - 'a' as int + 10
  }

  lemma HexRoundTrip(n: nat)
    requires n < 16
    ensures HexValue(UpperHexDigit(n)) == n
  {
  }

  /** The UTF-8 bytes of a character. */
  function Utf8Bytes(c: char): (r: seq<nat>)
    ensures 1 <= |r| <= 4
    ensures forall k :: 0 <= k < |r| ==> r[k] < 256
    ensures (c as int) < 0x80 ==> r == [c as int]
  {
    var n := c as int;
    if n < 0x80 then [n]
    else if n < 0x800 then [0xC0 + n / 64, 0x80 + n % 64]
    else if n < 0x10000 then [0xE0 + n / 4096, 0x80 + (n / 64) % 64, 0x80 + n % 64]
    else [0xF0 + n / 262144, 0x80 + (n / 4096) % 64, 0x80 + (n / 64) % 64, 0x80 + n % 64]
  }

  /** `%HH` for each byte. */
  function Escapes(bytes: seq<nat>): (r: string)
    requires forall k :: 0 <= k < |bytes| ==> bytes[k] < 256
    ensures |r| == 3 * |bytes|
  {
    if bytes == [] then ""
    else ['%', UpperHexDigit(bytes[0] / 16), UpperHexDigit(bytes[0] % 16)] + Escapes(bytes[1..])
  }

  function EncodeChar(c: char): string
  {
    if Unescaped(c) then [c] else Escapes(Utf8Bytes(c))
  }

  /** `encodeURIComponent`. */
  function EncodeComponent(s: string): string
  {
    if s == [] then "" else EncodeChar(s[0]) + EncodeComponent(s[1..])
  }

  /** What `decodeURIComponent` throws for a malformed escape. */
  const UriError := Error("URIError", "URI malformed")

  /**
   * `decodeURIComponent` for escapes of single bytes: `%` must be followed
   * by two hexadecimal digits, and the byte is the character with that code.
   * An escaped byte of 0x80 or more, which would start or continue a UTF-8
   * sequence, is reported as malformed.
   */
  function DecodeComponent(s: string): (r: Option<string>)
    decreases |s|
  {
    if s == [] then Some("")
    else if s[0] != '%' then
      match DecodeComponent(s[1..])
      case None => None
      case Some(rest) => Some([s[0]] + rest)
    else if |s| < 3 || !IsHexDigit(s[1]) || !IsHexDigit(s[2]) then None
    else
      var b := HexValue(s[1]) * 16 + HexValue(s[2]);
      if b >= 0x80 then None
      else
        match DecodeComponent(s[3..])
        case None => None
        case Some(rest) => Some([b as char] + rest)
  }

  predicate IsAscii(s: string)
  {
    forall k :: 0 <= k < |s| ==> (s[k] as int) < 0x80
  }

  /** Decoding an encoded character gives it back ahead of whatever the rest decodes to. */
  lemma DecodeEncodedChar(c: char, rest: string)
    requires (c as int) < 0x80
    ensures DecodeComponent(EncodeChar(c) + rest) ==
      match DecodeComponent(rest)
      case None => None
      case Some(t) => Some([c] + t)
  {
    var s := EncodeChar(c) + rest;
    if Unescaped(c) {
      assert s[0] == c && s[1..] == rest;
    } else {
      var n := c as int;
      HexRoundTrip(n / 16);
      HexRoundTrip(n % 16);
      assert EncodeChar(c) == ['%', UpperHexDigit(n / 16), UpperHexDigit(n % 16)];
      assert s[3..] == rest;
      assert (n as char) == c;
    }
  }

  /** `decodeURIComponent(encodeURIComponent(s)) === s` for an ASCII string. */
  lemma {:induction false} DecodeEncode(s: string)
    requires IsAscii(s)
    ensures DecodeComponent(EncodeComponent(s)) == Some(s)
  {
    if s != [] {
      DecodeEncode(s[1..]);
      DecodeEncodedChar(s[0], EncodeComponent(s[1..]));
      assert [s[0]] + s[1..] == s;
    }
  }

  // The module-map plugin's virtual modules

  const StaticModulePrefix := "virtual:astro-static-module/"
  const ComponentModulePrefix := "virtual:astro-component-module/"

  /** `toStaticVirtualId`. */
  function StaticVirtualId(specifier: string): string
  {
    StaticModulePrefix + EncodeComponent(specifier)
  }

  /** `toComponentVirtualId`. */
  function ComponentVirtualId(specifier: string): string
  {
    ComponentModulePrefix + EncodeComponent(specifier)
  }

  /** `resolveId`: either virtual prefix resolves, to the id behind `\0`; anything else is left to other plugins. */
  function ResolveId(id: string): (r: Option<string>)
    ensures r.Some? <==> StartsWith(id, StaticModulePrefix) || StartsWith(id, ComponentModulePrefix)
    ensures r.Some? ==> r.value == "\0" + id
  {
    if StartsWith(id, StaticModulePrefix) then Some("\0" + id)
    else if StartsWith(id, ComponentModulePrefix) then Some("\0" + id)
    else None
  }

  /** `isClientEntrypoint`: an `@astrojs/` package's `client.js`. */
  predicate IsClientEntrypoint(specifier: string)
  {
    StartsWith(specifier, Integrations.AstroScope) && EndsWith(specifier, "/client.js")
  }

  /** A module that re-exports the specifier's default and named exports. */
  function ReExportCode(specifier: string): string
  {
    Join(["export { default } from '" + specifier + "';", "export * from '" + specifier + "';"], "\n")
  }

  /** A module that only imports the specifier for its side effects. */
  function SideEffectCode(specifier: string): string
  {
    Join(["import '" + specifier + "';", "export default undefined;"], "\n")
  }

  /** The code of a static module: a re-export for a client entrypoint, a side-effect import otherwise. */
  function StaticModuleCode(specifier: string): string
  {
    if IsClientEntrypoint(specifier) then ReExportCode(specifier) else SideEffectCode(specifier)
  }

  /**
   * `load`: the resolved static and component ids are stripped of their
   * prefix and percent-decoded back to the specifier; a malformed escape
   * throws; any other id gives nothing.
   */
  function Load(id: string): (r: Result<Option<string>>)
    ensures !StartsWith(id, "\0" + StaticModulePrefix) && !StartsWith(id, "\0" + ComponentModulePrefix) ==> r == Ok(None)
    ensures r.Err? ==> r.error == UriError
  {
    if StartsWith(id, "\0" + StaticModulePrefix) then
      match DecodeComponent(ReplaceFirst(id, "\0" + StaticModulePrefix, ""))
      case None => Err(UriError)
      case Some(specifier) => Ok(Some(StaticModuleCode(specifier)))
    else if StartsWith(id, "\0" + ComponentModulePrefix) then
      match DecodeComponent(ReplaceFirst(id, "\0" + ComponentModulePrefix, ""))
      case None => Err(UriError)
      case Some(specifier) => Ok(Some(ReExportCode(specifier)))
    else Ok(None)
  }

  /** A static virtual id resolves and loads back to the module for its (ASCII) specifier. */
  lemma StaticModuleRoundTrip(specifier: string)
    requires IsAscii(specifier)
    ensures ResolveId(StaticVirtualId(specifier)) == Some("\0" + StaticVirtualId(specifier))
    ensures Load("\0" + StaticVirtualId(specifier)) == Ok(Some(StaticModuleCode(specifier)))
  {
    var p := "\0" + StaticModulePrefix;
    assert "\0" + StaticVirtualId(specifier) == p + EncodeComponent(specifier);
    StripPrefix(p, EncodeComponent(specifier));
    DecodeEncode(specifier);
  }

  /** A component virtual id resolves and loads back to the re-export of its (ASCII) specifier. */
  lemma ComponentModuleRoundTrip(specifier: string)
    requires IsAscii(specifier)
    ensures ResolveId(ComponentVirtualId(specifier)) == Some("\0" + ComponentVirtualId(specifier))
    ensures Load("\0" + ComponentVirtualId(specifier)) == Ok(Some(ReExportCode(specifier)))
  {
    var p := "\0" + ComponentModulePrefix;
    assert "\0" + ComponentVirtualId(specifier) == p + EncodeComponent(specifier);
    ComponentIdNotStatic(EncodeComponent(specifier));
    StripPrefix(p, EncodeComponent(specifier));
    DecodeEncode(specifier);
  }

  /** A prefix followed by a rest starts with the prefix, and removing the prefix gives the rest back. */
  lemma StripPrefix(p: string, rest: string)
    ensures StartsWith(p + rest, p)
    ensures ReplaceFirst(p + rest, p, "") == rest
  {
    assert (p + rest)[..|p|] == p;
    ReplaceFirstAtStart(p + rest, p);
    assert (p + rest)[|p|..] == rest;
  }

  /** A resolved component id does not pass for a resolved static id. */
  lemma ComponentIdNotStatic(rest: string)
    ensures !StartsWith("\0" + ComponentModulePrefix + rest, "\0" + StaticModulePrefix)
  {
    var id := "\0" + ComponentModulePrefix + rest;
    assert id[15] == 'c' && ("\0" + StaticModulePrefix)[15] == 's';
  }

  /** A resolved id is never resolved again. */
  lemma ResolvedIdsAreFinal(id: string)
    requires ResolveId(id).Some?
    ensures ResolveId(ResolveId(id).value) == None
  {
    var r := ResolveId(id).value;
    assert r[0] == '\0';
  }

  // Tracked specifiers

  const PageScript := "astro:scripts/page.js"
  const BeforeHydrationScript := "astro:scripts/before-hydration.js"

  /** `integration.renderer?.client?.entrypoint`, when it is a non-empty string. */
  function ClientEntrypoint(integration: Integrations.Integration): Option<string>
  {
    var client := integration.renderer.client;
    if client.Some? && client.value.entrypoint != "" then Some(client.value.entrypoint) else None
  }

  /** The client entrypoints of the integrations, in order. */
  function ClientEntrypoints(integrations: seq<Integrations.Integration>): (r: seq<string>)
    ensures forall s :: s in r <==> exists k :: 0 <= k < |integrations| && ClientEntrypoint(integrations[k]) == Some(s)
  {
    if integrations == [] then []
    else
      var init := ClientEntrypoints(integrations[..|integrations| - 1]);
      var last := integrations[|integrations| - 1];
      assert forall k :: 0 <= k < |integrations| - 1 ==> integrations[..|integrations| - 1][k] == integrations[k];
      match ClientEntrypoint(last)
      case None => init
      case Some(e) => init + [e]
  }

  /** The set `collectTrackedSpecifiers` builds, in insertion order. */
  function TrackedSpecifiers(integrations: seq<Integrations.Integration>): seq<string>
  {
    Dedup([PageScript, BeforeHydrationScript] + ClientEntrypoints(integrations))
  }

  /**
   * `collectTrackedSpecifiers`: the two Astro scripts, then each
   * integration's client entrypoint added to the set in turn.
   */
  method CollectTrackedSpecifiers(integrations: seq<Integrations.Integration>) returns (specifiers: seq<string>)
    ensures specifiers == TrackedSpecifiers(integrations)
  {
    specifiers := [PageScript, BeforeHydrationScript];
    assert specifiers == Dedup([PageScript, BeforeHydrationScript] + ClientEntrypoints(integrations[..0])) by {
      DedupOfDistinct(specifiers);
      assert integrations[..0] == [];
    }
    var i := 0;
    while i < |integrations|
      invariant 0 <= i <= |integrations|
      invariant specifiers == Dedup([PageScript, BeforeHydrationScript] + ClientEntrypoints(integrations[..i]))
    {
      var entrypoint := ClientEntrypoint(integrations[i]);
      assert integrations[..i + 1][..i] == integrations[..i];
      ghost var before := [PageScript, BeforeHydrationScript] + ClientEntrypoints(integrations[..i]);
      if entrypoint.Some? {
        assert [PageScript, BeforeHydrationScript] + ClientEntrypoints(integrations[..i + 1]) == before + [entrypoint.value];
        DedupAppend(before, entrypoint.value);
        if entrypoint.value !in specifiers {
          specifiers := specifiers + [entrypoint.value];
        }
      } else {
        assert [PageScript, BeforeHydrationScript] + ClientEntrypoints(integrations[..i + 1]) == before;
      }
      i := i + 1;
    }
    assert integrations[..i] == integrations;
  }

  /**
   * The tracked specifiers start with the two Astro scripts, hold every
   * integration's client entrypoint and nothing else, each once.
   */
  lemma TrackedSpecifiersFacts(integrations: seq<Integrations.Integration>)
    ensures var r := TrackedSpecifiers(integrations);
      |r| >= 2 && r[..2] == [PageScript, BeforeHydrationScript]
      && (forall i, j :: 0 <= i < j < |r| ==> r[i] != r[j])
      && (forall s :: s in r <==>
            (s == PageScript || s == BeforeHydrationScript
             || exists k :: 0 <= k < |integrations| && ClientEntrypoint(integrations[k]) == Some(s)))
  {
    var base := [PageScript, BeforeHydrationScript];
    var xs := base + ClientEntrypoints(integrations);
    assert PageScript != BeforeHydrationScript by {
      assert |PageScript| != |BeforeHydrationScript|;
    }
    DedupOfDistinct(base);
    DedupPrefix(base, ClientEntrypoints(integrations));
    DedupDistinct(xs);
    DedupSameElements(xs);
  }

  // Client module resolution

  /** `/\?.*$/` removed: from the first `?` after which the line does not break to the end. */
  function StripQuery(s: string): (r: string)
    ensures |r| <= |s| && r == s[..|r|]
  {
    if s == [] then ""
    else if s[0] == '?' && NoLineTerminator(s[1..]) then ""
    else [s[0]] + StripQuery(s[1..])
  }

  /** Without a `?` nothing is stripped. */
  lemma {:induction false} StripQueryNoQuery(s: string)
    requires '?' !in s
    ensures StripQuery(s) == s
  {
    if s != [] {
      StripQueryNoQuery(s[1..]);
    }
  }

  /** On one line, everything from the first `?` is stripped. */
  lemma {:induction false} StripQueryAt(path: string, query: string)
    requires '?' !in path && NoLineTerminator(query)
    ensures StripQuery(path + "?" + query) == path
  {
    if path == [] {
      assert ("?" + query)[1..] == query;
    } else {
      StripQueryAt(path[1..], query);
      assert (path + "?" + query)[1..] == path[1..] + "?" + query;
    }
  }

  /** The normalised specifier: back-slashes made forward, the query removed. */
  function NormalizeSpecifier(specifier: string): string
  {
    StripQuery(ReplaceAll(specifier, "\\", "/"))
  }

  /** A resolution `if (resolution)` accepts: defined and not empty. */
  predicate Accepted(resolution: Option<string>)
  {
    resolution.Some? && resolution.value != ""
  }

  /** The `k`-th integration is the first to accept the specifier. */
  predicate FirstAccepting(integrations: seq<Integrations.Integration>, specifier: string, k: int)
  {
    0 <= k < |integrations| && Accepted(integrations[k].resolveClient(specifier))
    && forall j :: 0 <= j < k ==> !Accepted(integrations[j].resolveClient(specifier))
  }

  /** The first integration whose `resolveClient` accepts the specifier, and its answer. */
  function FirstResolution(integrations: seq<Integrations.Integration>, specifier: string): (r: Option<string>)
    ensures r.None? <==> forall k :: 0 <= k < |integrations| ==> !Accepted(integrations[k].resolveClient(specifier))
    ensures r.Some? ==> Accepted(r) && exists k :: FirstAccepting(integrations, specifier, k) && integrations[k].resolveClient(specifier) == r
  {
    if integrations == [] then None
    else if Accepted(integrations[0].resolveClient(specifier)) then
      integrations[0].resolveClient(specifier)
    else
      var r := FirstResolution(integrations[1..], specifier);
      assert forall k :: 1 <= k < |integrations| ==> integrations[1..][k - 1] == integrations[k];
      if r.Some? then
        var k :| FirstAccepting(integrations[1..], specifier, k) && integrations[1..][k].resolveClient(specifier) == r;
        assert FirstAccepting(integrations, specifier, k + 1);
        r
      else r
  }

  /** The client module for a specifier: the exact map entry, then the normalised one, then the first integration's answer. */
  function ClientModule(integrations: seq<Integrations.Integration>, staticModuleMap: map<string, string>, specifier: string): Option<string>
  {
    if specifier in staticModuleMap then Some(staticModuleMap[specifier])
    else
      var normalized := NormalizeSpecifier(specifier);
      if normalized in staticModuleMap then Some(staticModuleMap[normalized])
      else FirstResolution(integrations, specifier)
  }

  /** `resolveClientModule`, the function `createClientModuleResolver` returns. */
  method ResolveClientModule(integrations: seq<Integrations.Integration>, staticModuleMap: map<string, string>, specifier: string)
    returns (r: Option<string>)
    ensures r == ClientModule(integrations, staticModuleMap, specifier)
  {
    if specifier in staticModuleMap {
      return Some(staticModuleMap[specifier]);
    }
    var normalized := NormalizeSpecifier(specifier);
    if normalized in staticModuleMap {
      return Some(staticModuleMap[normalized]);
    }
    var i := 0;
    while i < |integrations|
      invariant 0 <= i <= |integrations|
      invariant FirstResolution(integrations[i..], specifier) == FirstResolution(integrations, specifier)
    {
      var resolution := integrations[i].resolveClient(specifier);
      assert integrations[i..][1..] == integrations[i + 1..];
      if Accepted(resolution) {
        return resolution;
      }
      i := i + 1;
    }
    return None;
  }

  /** A specifier with a query string finds the emitted file of its bare path. */
  lemma QueryStringIgnored(integrations: seq<Integrations.Integration>, staticModuleMap: map<string, string>, path: string, query: string)
    requires '?' !in path && '\\' !in path && NoLineTerminator(query)
    requires path + "?" + query !in staticModuleMap && path in staticModuleMap
    ensures ClientModule(integrations, staticModuleMap, path + "?" + query) == Some(staticModuleMap[path])
  {
    var s := path + "?" + query;
    ReplaceAllChar(s, '\\', '/');
    var posix := ReplaceAll(s, "\\", "/");
    var posixQuery := posix[|path| + 1..];
    assert posix[..|path|] == path by {
      forall k | 0 <= k < |path| ensures posix[k] == path[k] {
        assert s[k] == path[k];
      }
    }
    assert posix[|path|] == '?' by {
      assert s[|path|] == '?';
    }
    assert NoLineTerminator(posixQuery) by {
      forall k | 0 <= k < |posixQuery| ensures !IsLineTerminator(posixQuery[k]) {
        assert posixQuery[k] == posix[|path| + 1 + k];
        assert s[|path| + 1 + k] == query[k];
      }
    }
    assert posix == path + "?" + posixQuery;
    StripQueryAt(path, posixQuery);
  }

  /** A built-in integration's client entrypoint that was not emitted is served through Vite's `/@id/` prefix. */
  lemma UnemittedClientEntrypoint(f: Integrations.Framework, options: Option<Value>)
    ensures var entrypoint := Integrations.Declaration(f).client.value.entrypoint;
      ClientModule([Integrations.Make(f, options)], map[], entrypoint) == Some(Integrations.IdPrefix + entrypoint)
  {
    Integrations.DeclarationFacts(f);
  }

  // The static module map

  /** A reference to an emitted chunk: the specifier and Rollup's file reference id. */
  datatype FileRef = FileRef(specifier: string, referenceId: string)

  /** `toPublicPath`. */
  function PublicPath(fileName: string): string
  {
    "./" + fileName
  }

  /** Some reference to `specifier` has a chunk whose public path is `path`. */
  predicate PublishedFrom(refs: seq<FileRef>, getFileName: string -> string, specifier: string, path: string)
  {
    exists k :: 0 <= k < |refs| && refs[k].specifier == specifier
      && getFileName(refs[k].referenceId) != "" && path == PublicPath(getFileName(refs[k].referenceId))
  }

  /**
   * The entries one `forEach` over a reference map adds: each specifier
   * whose chunk got a (non-empty) file name maps to its public path, a
   * later reference replacing an earlier one.
   */
  function Published(refs: seq<FileRef>, getFileName: string -> string, m: map<string, string>): (r: map<string, string>)
    ensures forall s :: s in r <==> s in m || exists k :: 0 <= k < |refs| && refs[k].specifier == s && getFileName(refs[k].referenceId) != ""
    ensures forall s :: s in r ==> (s in m && r[s] == m[s]) || PublishedFrom(refs, getFileName, s, r[s])
    decreases |refs|
  {
    if refs == [] then m
    else
      var fileName := getFileName(refs[0].referenceId);
      var next := if fileName != "" then m[refs[0].specifier := PublicPath(fileName)] else m;
      var r := Published(refs[1..], getFileName, next);
      assert forall k :: 1 <= k < |refs| ==> refs[1..][k - 1] == refs[k];
      r
  }

  /** `buildStaticModuleMap`: the static entrypoints' files, then the components' files over them. */
  function StaticModuleMap(staticRefs: seq<FileRef>, componentRefs: seq<FileRef>, getFileName: string -> string): map<string, string>
  {
    Published(componentRefs, getFileName, Published(staticRefs, getFileName, map[]))
  }

  /** `buildStaticModuleMap`, filling the map in the two `forEach` loops. */
  method BuildStaticModuleMap(staticRefs: seq<FileRef>, componentRefs: seq<FileRef>, getFileName: string -> string)
    returns (m: map<string, string>)
    ensures m == StaticModuleMap(staticRefs, componentRefs, getFileName)
  {
    m := map[];
    var i := 0;
    while i < |staticRefs|
      invariant 0 <= i <= |staticRefs|
      invariant Published(staticRefs[i..], getFileName, m) == Published(staticRefs, getFileName, map[])
    {
      var fileName := getFileName(staticRefs[i].referenceId);
      assert staticRefs[i..][1..] == staticRefs[i + 1..];
      if fileName != "" {
        m := m[staticRefs[i].specifier := PublicPath(fileName)];
      }
      i := i + 1;
    }
    i := 0;
    ghost var afterStatic := m;
    while i < |componentRefs|
      invariant 0 <= i <= |componentRefs|
      invariant Published(componentRefs[i..], getFileName, m) == Published(componentRefs, getFileName, afterStatic)
    {
      var fileName := getFileName(componentRefs[i].referenceId);
      assert componentRefs[i..][1..] == componentRefs[i + 1..];
      if fileName != "" {
        m := m[componentRefs[i].specifier := PublicPath(fileName)];
      }
      i := i + 1;
    }
  }

  /** Later references win, so a component chunk replaces a static chunk for the same specifier. */
  lemma {:induction false} PublishedLastWins(refs: seq<FileRef>, getFileName: string -> string, m: map<string, string>, k: nat)
    requires k < |refs| && getFileName(refs[k].referenceId) != ""
    requires forall j :: k < j < |refs| ==> refs[j].specifier != refs[k].specifier
    ensures Published(refs, getFileName, m)[refs[k].specifier] == PublicPath(getFileName(refs[k].referenceId))
    decreases |refs|
  {
    var fileName := getFileName(refs[0].referenceId);
    var next := if fileName != "" then m[refs[0].specifier := PublicPath(fileName)] else m;
    if k == 0 {
      PublishedKeeps(refs[1..], getFileName, next, refs[0].specifier);
    } else {
      PublishedLastWins(refs[1..], getFileName, next, k - 1);
    }
  }

  /** An entry no reference touches is kept. */
  lemma {:induction false} PublishedKeeps(refs: seq<FileRef>, getFileName: string -> string, m: map<string, string>, s: string)
    requires s in m
    requires forall j :: 0 <= j < |refs| ==> refs[j].specifier != s
    ensures Published(refs, getFileName, m)[s] == m[s]
    decreases |refs|
  {
    if refs != [] {
      var fileName := getFileName(refs[0].referenceId);
      var next := if fileName != "" then m[refs[0].specifier := PublicPath(fileName)] else m;
      PublishedKeeps(refs[1..], getFileName, next, s);
    }
  }

  /**
   * Every mapped file is a public path of an emitted chunk; a specifier
   * with no named chunk is absent; and a component's chunk takes
   * precedence over a static entrypoint's for the same specifier.
   */
  lemma StaticModuleMapFacts(staticRefs: seq<FileRef>, componentRefs: seq<FileRef>, getFileName: string -> string, k: nat)
    requires k < |componentRefs| && getFileName(componentRefs[k].referenceId) != ""
    requires forall j :: k < j < |componentRefs| ==> componentRefs[j].specifier != componentRefs[k].specifier
    ensures var m := StaticModuleMap(staticRefs, componentRefs, getFileName);
      m[componentRefs[k].specifier] == PublicPath(getFileName(componentRefs[k].referenceId))
      && (forall s :: s in m ==> StartsWith(m[s], "./"))
  {
    var m0 := Published(staticRefs, getFileName, map[]);
    var m := Published(componentRefs, getFileName, m0);
    PublishedLastWins(componentRefs, getFileName, m0, k);
    forall s | s in m ensures StartsWith(m[s], "./") {
      if s in m0 && m[s] == m0[s] {
        assert PublishedFrom(staticRefs, getFileName, s, m[s]);
      }
    }
  }

  // Story args

  /** The story's value for `key` when it has one, else the meta's. */
  function StoryFirst(metaArgs: Option<seq<Field>>, storyArgs: Option<seq<Field>>, key: string): Option<Value>
  {
    if storyArgs.Some? && HasKey(storyArgs.value, key) then Lookup(storyArgs.value, key) else Lookup(metaArgs.UnwrapOr([]), key)
  }

  /** `mergeStoryArgs`: the meta args with the story's args over them; a missing side counts as `{}`. */
  function MergeStoryArgs(metaArgs: Option<seq<Field>>, storyArgs: Option<seq<Field>>): (r: seq<Field>)
    requires metaArgs.Some? ==> UniqueKeys(metaArgs.value)
    requires storyArgs.Some? ==> UniqueKeys(storyArgs.value)
    ensures forall k :: HasKey(r, k) <==> (metaArgs.Some? && HasKey(metaArgs.value, k)) || (storyArgs.Some? && HasKey(storyArgs.value, k))
    ensures forall k :: Lookup(r, k) == StoryFirst(metaArgs, storyArgs, k)
    ensures UniqueKeys(r)
  {
    Spread(Spread([], metaArgs.UnwrapOr([])), storyArgs.UnwrapOr([]))
  }

  /**
   * `separateSlots`: a copy of the args without `slots`, and the `slots`
   * value when it is an object or an array, else `{}`.
   */
  function SeparateSlots(inputArgs: seq<Field>): (r: (seq<Field>, Value))
    ensures !HasKey(r.0, "slots")
    ensures forall k :: k != "slots" ==> Lookup(r.0, k) == Lookup(inputArgs, k)
    ensures IsObject(Get(inputArgs, "slots")) ==> r.1 == Get(inputArgs, "slots")
    ensures !IsObject(Get(inputArgs, "slots")) ==> r.1 == Obj([])
  {
    var candidate := Get(inputArgs, "slots");
    (Remove(inputArgs, "slots"), if IsObject(candidate) then candidate else Obj([]))
  }

  // The story index

  /** An entry of Storybook's `index.json`, every field optional. */
  datatype IndexEntry = IndexEntry(
    entryType: Option<string>,
    id: Option<string>,
    importPath: Option<string>,
    exportName: Option<string>,
    componentPath: Option<string>)

  datatype StoryEntry = StoryEntry(id: string, importPath: string, exportName: string)

  /** The filter: a story whose component is an `.astro` file. */
  predicate IsAstroStory(e: IndexEntry)
  {
    e.entryType == Some("story") && e.componentPath.Some? && EndsWith(e.componentPath.value, ".astro")
  }

  /** An entry with a (non-empty) id, import path and export name. */
  predicate IsComplete(e: IndexEntry)
  {
    e.id.Some? && e.id.value != "" && e.importPath.Some? && e.importPath.value != ""
    && e.exportName.Some? && e.exportName.value != ""
  }

  predicate AllComplete(stories: seq<IndexEntry>)
  {
    forall k :: 0 <= k < |stories| ==> IsComplete(stories[k])
  }

  /** The story entry the `map` step returns for a complete index entry. */
  function ToStoryEntry(e: IndexEntry): StoryEntry
    requires IsComplete(e)
  {
    StoryEntry(e.id.value, e.importPath.value, e.exportName.value)
  }

  function InvalidEntryError(indexFile: string): Error
  {
    Fail("Encountered an invalid Storybook index entry in " + indexFile + ".")
  }

  /** The Astro stories among the entries, in order. */
  function AstroStories(entries: seq<IndexEntry>): (r: seq<IndexEntry>)
    ensures forall k :: 0 <= k < |r| ==> IsAstroStory(r[k]) && r[k] in entries
    ensures forall e :: e in entries && IsAstroStory(e) ==> e in r
  {
    if entries == [] then []
    else
      var rest := AstroStories(entries[1..]);
      if IsAstroStory(entries[0]) then [entries[0]] + rest else rest
  }

  /**
   * `collectAstroStories` once the index is parsed: the Astro stories, in
   * order, as story entries; the first incomplete one throws.
   */
  function CollectAstroStories(entries: seq<IndexEntry>, indexFile: string): (r: Result<seq<StoryEntry>>)
    ensures r.Ok? <==> AllComplete(AstroStories(entries))
    ensures r.Err? ==> r.error == InvalidEntryError(indexFile)
    ensures r.Ok? ==> (|r.value| == |AstroStories(entries)|
      && forall k :: 0 <= k < |r.value| ==> r.value[k] == ToStoryEntry(AstroStories(entries)[k]))
  {
    CompleteEntries(AstroStories(entries), indexFile)
  }

  /** The `map` step: each entry converted, or the error for the first incomplete one. */
  function CompleteEntries(stories: seq<IndexEntry>, indexFile: string): (r: Result<seq<StoryEntry>>)
    ensures r.Ok? <==> AllComplete(stories)
    ensures r.Err? ==> r.error == InvalidEntryError(indexFile)
    ensures r.Ok? ==> (|r.value| == |stories|
      && forall k :: 0 <= k < |stories| ==> r.value[k] == ToStoryEntry(stories[k]))
  {
    if stories == [] then Ok([])
    else if !IsComplete(stories[0]) then Err(InvalidEntryError(indexFile))
    else
      var e := stories[0];
      match CompleteEntries(stories[1..], indexFile)
      case Err(err) => Err(err)
      case Ok(rest) =>
        assert forall k :: 1 <= k < |stories| ==> stories[1..][k - 1] == stories[k];
        Ok([ToStoryEntry(e)] + rest)
  }

  // Hydratable source files

  const HydratableExtensions := [".jsx", ".tsx", ".vue", ".svelte", ".js", ".ts"]

  /** The script extensions `[jt]sx?` stands for. */
  const ScriptExtensions := [".js", ".jsx", ".ts", ".tsx"]

  /** `isHydratableSourceFile`: one of the framework or script extensions. */
  predicate IsHydratableSourceFile(path: string)
  {
    exists k :: 0 <= k < |HydratableExtensions| && EndsWith(path, HydratableExtensions[k])
  }

  /** `isNonHydratableSourceFile`: a stories, spec or test file. */
  predicate IsNonHydratableSourceFile(path: string)
  {
    (exists k :: 0 <= k < |ScriptExtensions| &&
      (EndsWith(path, ".stories" + ScriptExtensions[k]) || EndsWith(path, ".spec" + ScriptExtensions[k])
       || EndsWith(path, ".test" + ScriptExtensions[k])))
    || EndsWith(path, ".stories.vue") || EndsWith(path, ".stories.svelte")
  }

  /** A hydratable source file that is not a stories, spec or test file. */
  predicate Kept(path: string)
  {
    IsHydratableSourceFile(path) && !IsNonHydratableSourceFile(path)
  }

  /** The files the component walk keeps, with forward slashes, in the order given. */
  function HydratableModules(files: seq<string>): (r: seq<string>)
    ensures forall k :: 0 <= k < |r| ==> Kept(r[k])
    ensures forall f :: f in files && Kept(ReplaceAll(f, "\\", "/")) ==> ReplaceAll(f, "\\", "/") in r
    ensures forall k :: 0 <= k < |r| ==> exists f :: f in files && r[k] == ReplaceAll(f, "\\", "/")
    ensures |r| <= |files|
  {
    if files == [] then []
    else
      var path := ReplaceAll(files[0], "\\", "/");
      var rest := HydratableModules(files[1..]);
      assert forall f :: f in files[1..] ==> f in files;
      assert files[0] in files;
      if Kept(path) then [path] + rest else rest
  }

  /** The walk over a concatenation keeps each part's files, in order. */
  lemma {:induction false} HydratableModulesAppend(a: seq<string>, b: seq<string>)
    ensures HydratableModules(a + b) == HydratableModules(a) + HydratableModules(b)
    decreases |a|
  {
    if a == [] {
      assert a + b == b;
    } else {
      assert (a + b)[1..] == a[1..] + b;
      HydratableModulesAppend(a[1..], b);
    }
  }

  /** One file is kept, with forward slashes, exactly when its normalised path is kept. */
  lemma HydratableModulesSingle(f: string)
    ensures HydratableModules([f]) == if Kept(ReplaceAll(f, "\\", "/")) then [ReplaceAll(f, "\\", "/")] else []
  {
    assert [f][1..] == [];
  }

  /** A stories or test file of a hydratable kind is excluded, whatever its name. */
  lemma StoriesAndTestsExcluded(stem: string, k: nat)
    requires k < |ScriptExtensions|
    ensures IsHydratableSourceFile(stem + ".stories" + ScriptExtensions[k])
    ensures IsNonHydratableSourceFile(stem + ".stories" + ScriptExtensions[k])
    ensures IsNonHydratableSourceFile(stem + ".test" + ScriptExtensions[k])
    ensures IsNonHydratableSourceFile(stem + ".spec" + ScriptExtensions[k])
  {
    var ext := ScriptExtensions[k];
    var j := if k == 0 then 4 else if k == 1 then 0 else if k == 2 then 5 else 1;
    assert HydratableExtensions[j] == ext;
    EndsWithAppend(stem + ".stories", ext);
    HydratableWith(stem + ".stories" + ext, j);
    TaggedNonHydratable(stem, ".stories", k);
    TaggedNonHydratable(stem, ".test", k);
    TaggedNonHydratable(stem, ".spec", k);
  }

  /** A name ending in one of the hydratable extensions is hydratable. */
  lemma HydratableWith(path: string, j: nat)
    requires j < |HydratableExtensions| && EndsWith(path, HydratableExtensions[j])
    ensures IsHydratableSourceFile(path)
  {
  }

  /** A stem followed by a stories, spec or test tag and a script extension is excluded. */
  lemma TaggedNonHydratable(stem: string, tag: string, k: nat)
    requires k < |ScriptExtensions|
    requires tag == ".stories" || tag == ".spec" || tag == ".test"
    ensures IsNonHydratableSourceFile(stem + tag + ScriptExtensions[k])
  {
    var ext := ScriptExtensions[k];
    EndsWithAppend(stem, tag + ext);
    assert stem + tag + ext == stem + (tag + ext);
  }

  lemma EndsWithAppend(s: string, t: string)
    ensures EndsWith(s + t, t)
  {
    assert (s + t)[|s|..] == t;
  }
}
