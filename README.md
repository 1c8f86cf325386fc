# storybook-astro in Dafny

A model of the story-rendering coordination layer of storybook-astro. This is the code that lets Storybook show Astro components. It sends each story's render request to an Astro renderer running in another process, or looks the html up among prerendered stories. It decides per story which mock request handlers and module mocks apply, and it sanitises the render payload. It also generates the Vite virtual modules that tie the pieces together.

One Dafny module per concern, each in its own file:

- `wrappers.dfy`, `text.dfy`, `records.dfy`, `values.dfy`: `undefined` and thrown errors, the JavaScript string operations the code uses, objects as ordered entry lists, and JavaScript values.
- `sanitization.dfy`, `sanitization_options.dfy`: `sanitization.ts`: dot-path pattern matching, payload sanitisation, option resolution, the function check and the option serialiser.
- `rules.dfy`: story keys, slugs, rule patterns, the `use` entries and the selection they build, mock normalisation, the config export.
- `msw.dfy`: `msw.ts`: export selection, runtime configuration, and the start/sync state machine as a class.
- `config_options.dfy`: `rules-options.ts` and `msw-options.ts` (the same code under two names): option normalisation and the candidate-file search.
- `middleware.dfy`: `middleware.ts`: module resolution, the render queue as a class, the steps of one render, image metadata.
- `correlation.dfy`: the pending-render tables of the three development renderers as a class, style-update detection and the style rewrite, and the uncorrelated listener of the oldest renderer.
- `http_renderer.dfy`, `static_renderer.dfy`: `renderer.ts` (HTTP, headers, error classification) and `renderer-static.ts` (the memoised prerendered map as a class).
- `auth.dfy`: `server/auth.ts`: the auth mode, bearer-token parsing under section 2.1 of RFC 6750, the allow/deny decision.
- `virtual_modules.dfy`: `createVirtualModulePlugin.ts`, the rules and MSW config modules, the renderer-selection module.
- `static_prerender.dfy`: `astroStaticPrerenderPlugin.ts`: virtual ids and percent-encoding, tracked specifiers, the static module map, client-module resolution, args and slots, index filtering.
- `integrations.dfy`: the five framework integrations of `@storybook/astro`.
- `legacy_plugins.dfy`: the code-generating plugins of `@storybook/astro`, and the stories map of `astroServerRenderPlugin.ts` as a class.
- `render_dispatch.dfy`: the three `render.tsx` files: `render` dispatch, placeholder substitution, attribute cloning, the canvas decisions, unavailable-error recognition.
- `portable_stories.dfy`: `portable-stories.ts`: the local render and the project-annotation merge.
- `accordion.dfy`: the React, Preact and Solid Accordion components: the open-index state as a class, the toggle, and the view.

The form of the model follows the code:
- Code that mutates state becomes a `class` with `modifies` clauses: the MSW state, the render queue, the pending-render tables, the prerendered-story cache, the stories map, the Vite configuration and the accordion state.
- Loops become methods with invariants, proved equal to a specification function. Examples are the placeholder loops, the image-metadata walk, the tracked specifiers, the static module map and the candidate-file search.
- Expression code becomes functions and lemmas.

Foreign calls are parameters of the model, so each one is given rather than computed. These are `path.resolve`, `dirname`, `extname`, `existsSync`, `fetch`, the fresh ids from `crypto.randomUUID`, Rollup's `getFileName`, `sanitize-html`, and user-supplied functions.

`packages/@storybook/astro/src/build-server.ts` holds an `astroFilesPlugin` identical to the one in `astroServerRenderPlugin.ts`; `LegacyPlugins.ServerAstroFilesPlugin` models both.

Where the code and the intended behaviour disagree, the model follows the code. One such case is rule patterns: `*` repeats the preceding character rather than matching any run of characters. See "## Findings".

## Model

| member | source | states |
|---|---|---|
| Sanitization.MatchEmptyPattern | packages/@astrostory/core/src/sanitization.ts:311-314 | an empty pattern matches exactly the empty path |
| Sanitization.MatchStar | packages/@astrostory/core/src/sanitization.ts:334-342 | `*` consumes exactly one path segment, whatever it is, and the rest must match the pattern's tail |
| Sanitization.MatchGlobstar | packages/@astrostory/core/src/sanitization.ts:318-332 | `**` followed by more segments matches iff the tail matches some suffix of the path, the whole path included |
| Sanitization.MatchTrailingGlobstar | packages/@astrostory/core/src/sanitization.ts:318-321 | a trailing `**` matches any remainder, the empty one included |
| Sanitization.MatchLiteral | packages/@astrostory/core/src/sanitization.ts:334-344 | any other segment matches only an equal first path segment, and the rest must match the tail |
| Sanitization.MatchPlain | packages/@astrostory/core/src/sanitization.ts:311-345 | a pattern without wildcard segments matches exactly the identical path |
| Sanitization.ItemsWildcardExample | packages/@astrostory/core/src/sanitization.ts:304-309 | `items.*.html` matches `items.<i>.html` for every single-segment index |
| Sanitization.ItemsWildcardOtherKey | packages/@astrostory/core/src/sanitization.ts:304-309 | `items.*.html` does not match `items.<i>.title` |
| Sanitization.CatchAllExample | packages/@astrostory/core/src/sanitization.ts:300-309 | the catch-all pattern `**` matches every dot path |
| Sanitization.SanitizedItems | packages/@astrostory/core/src/sanitization.ts:277-283 | array items are rebuilt one for one, so the array keeps its length |
| Sanitization.SanitizedFields | packages/@astrostory/core/src/sanitization.ts:285-295 | record entries are rebuilt one for one, so the record keeps its entry count |
| Sanitization.SanitizeValue | packages/@astrostory/core/src/sanitization.ts:263-298 | the recursive walk returns exactly the sanitised value defined by the path rules |
| Sanitization.SanitizeRecord | packages/@astrostory/core/src/sanitization.ts:249-261 | the key-by-key loop fills a fresh record with exactly the sanitised entries |
| Sanitization.SanitizedSameShape | packages/@astrostory/core/src/sanitization.ts:263-298 | sanitising keeps the shape: same keys in the same order, same array lengths, non-string leaves untouched |
| Sanitization.SanitizedItemsAt | packages/@astrostory/core/src/sanitization.ts:278-282 | item `k` is sanitised under the path `<path>.<k>` |
| Sanitization.SanitizedFieldsAt | packages/@astrostory/core/src/sanitization.ts:288-292 | entry `k` keeps its key and is sanitised under `<path>.<key>`, or under the bare key at the top level |
| Sanitization.GetSanitizedFields | packages/@astrostory/core/src/sanitization.ts:256-258 | reading a key of the sanitised record gives its value sanitised under that key's path |
| Sanitization.SanitizedChildAt | packages/@astrostory/core/src/sanitization.ts:277-295 | every child of the sanitised value is the child sanitised under the child's path |
| Sanitization.SanitizedLeaf | packages/@astrostory/core/src/sanitization.ts:263-302 | a string leaf is replaced by its cleaned text exactly when its dot path matches some pattern, else kept; other leaves are kept |
| Sanitization.SanitizedIdempotent | packages/@astrostory/core/src/sanitization.ts:263-298 | with an idempotent HTML sanitiser, sanitising twice equals sanitising once |
| Sanitization.SanitizedItemsIdempotent | packages/@astrostory/core/src/sanitization.ts:277-283 | the same for array items |
| Sanitization.SanitizedFieldsIdempotent | packages/@astrostory/core/src/sanitization.ts:285-295 | the same for record entries |
| Sanitization.SanitizedNoPatterns | packages/@astrostory/core/src/sanitization.ts:300-302 | with no pattern nothing is selected and the value comes back unchanged |
| Sanitization.SanitizedItemsNoPatterns | packages/@astrostory/core/src/sanitization.ts:277-283 | the same for array items |
| Sanitization.SanitizedFieldsNoPatterns | packages/@astrostory/core/src/sanitization.ts:285-295 | the same for record entries |
| SanitizationOptions.OGet | packages/@astrostory/core/src/sanitization.ts:437-449 | reading a property gives `undefined` on anything but a plain record, and for a key the record lacks |
| SanitizationOptions.TrimmedPatterns | packages/@astrostory/core/src/sanitization.ts:232-237 | one trimmed text per list entry |
| SanitizationOptions.TrimmedPatternsAt | packages/@astrostory/core/src/sanitization.ts:237 | entry `k` of a string entry is its trimmed text |
| SanitizationOptions.NormalizePathList | packages/@astrostory/core/src/sanitization.ts:221-247 | `undefined` gives `[]`; the result is an error exactly when the value is not an array or some entry is not a string or is blank after trimming, and the error is the one for the first bad entry with its index; otherwise the trimmed entries without repeats in first-occurrence order |
| SanitizationOptions.CollectPatterns | packages/@astrostory/core/src/sanitization.ts:230-246 | the entries pass exactly when each is a non-blank string; the error then names the first bad entry and its index; otherwise the result is the trimmed entries without repeats, in first-occurrence order |
| SanitizationOptions.NormalizedPatterns | packages/@astrostory/core/src/sanitization.ts:237-246 | every normalised pattern is trimmed and non-blank, comes from some entry and every trimmed entry is present, and none appears twice |
| SanitizationOptions.ItemFresh | packages/@astrostory/core/src/sanitization.ts:416-421 | an item of an unvisited tree-shaped array is itself a tree whose records were not visited before it |
| SanitizationOptions.EntryFresh | packages/@astrostory/core/src/sanitization.ts:424-433 | the same for the value of an entry of an unvisited record |
| SanitizationOptions.AssertNoFunctionsRecursive | packages/@astrostory/core/src/sanitization.ts:404-435 | an error is raised only for a tree holding a function and it names a path under the given one; a tree without functions never raises; on a tree of distinct unvisited records it raises exactly when a function is present, and otherwise marks every record visited |
| SanitizationOptions.AssertNoFunctionsInItems | packages/@astrostory/core/src/sanitization.ts:416-422 | the same for the array branch, each item walked under `path[i]` |
| SanitizationOptions.ItemThrew | packages/@astrostory/core/src/sanitization.ts:417-419 | an error from item `i` is an error of the array naming a path under the array's |
| SanitizationOptions.ItemWalked | packages/@astrostory/core/src/sanitization.ts:417-419 | walking item `i` without error extends the invariant of the items loop by one item |
| SanitizationOptions.AssertNoFunctionsInEntries | packages/@astrostory/core/src/sanitization.ts:424-434 | the same for the record branch: the record is marked visited, then each entry is walked under `path.key` |
| SanitizationOptions.EntryThrew | packages/@astrostory/core/src/sanitization.ts:431-433 | an error from entry `i` is an error of the record naming a path under the record's |
| SanitizationOptions.EntryWalked | packages/@astrostory/core/src/sanitization.ts:431-433 | walking entry `i` without error extends the invariant of the entries loop by one entry |
| SanitizationOptions.AssertNoFunctions | packages/@astrostory/core/src/sanitization.ts:396-402 | starting with nothing visited, an error means a function is present, and on a tree of distinct records an error is raised exactly when one is |
| SanitizationOptions.RenderedItems | packages/@astrostory/core/src/sanitization.ts:365-367 | one text per serialised item |
| SanitizationOptions.SerializeValue | packages/@astrostory/core/src/sanitization.ts:347-394 | succeeds exactly on supported values whose records are distinct and unvisited, giving the literal text and marking those records; a record met twice is the circular-reference error, any other failure is the unsupported-value error, both naming a path under the given one |
| SanitizationOptions.SerializeItems | packages/@astrostory/core/src/sanitization.ts:364-370 | the array branch meets the same specification, writing `[a, b]` with each item under `path[i]` |
| SanitizationOptions.ItemSerialized | packages/@astrostory/core/src/sanitization.ts:365-367 | writing item `i` extends the items-loop invariant by its text |
| SanitizationOptions.ItemSerializeFailed | packages/@astrostory/core/src/sanitization.ts:365-367 | a failure in item `i` is the array's failure |
| SanitizationOptions.SerializeEntries | packages/@astrostory/core/src/sanitization.ts:372-388 | the record branch meets the same specification: marked visited, `undefined` entries skipped, each other entry written as its quoted key, `: ` and its value |
| SanitizationOptions.EntrySkipped | packages/@astrostory/core/src/sanitization.ts:380 | an `undefined` entry adds nothing |
| SanitizationOptions.EntrySerialized | packages/@astrostory/core/src/sanitization.ts:381-385 | a defined entry adds `"key": text` to the parts |
| SanitizationOptions.EntrySerializeFailed | packages/@astrostory/core/src/sanitization.ts:381-385 | a failure in an entry's value is the record's failure |
| SanitizationOptions.RenderedEntryShown | packages/@astrostory/core/src/sanitization.ts:379-387 | the text of a record contains the text of every entry whose value is defined |
| SanitizationOptions.RenderedEntryIndex | packages/@astrostory/core/src/sanitization.ts:379-385 | every defined entry has its text among the record's parts |
| SanitizationOptions.RenderedItemShown | packages/@astrostory/core/src/sanitization.ts:364-370 | the text of an array contains the text of every item |
| SanitizationOptions.RenderedItemsAt | packages/@astrostory/core/src/sanitization.ts:365-367 | part `i` of an array's text is item `i`'s text |
| SanitizationOptions.RegExpOptionWritten | packages/@astrostory/core/src/sanitization.ts:360-387 | a regular expression nested four records deep in the options is written as its own `/source/flags` literal |
| SanitizationOptions.EntryValueShown | packages/@astrostory/core/src/sanitization.ts:379-387 | whatever a defined entry's text contains, the record's text contains |
| SanitizationOptions.Strings | packages/@astrostory/core/src/sanitization.ts:24-107 | a list of strings becomes an array value of the same length |
| SanitizationOptions.WellKeyedGet | packages/@astrostory/core/src/sanitization.ts:437-449 | a value read from a record with distinct keys has distinct keys too |
| SanitizationOptions.DefaultsLackClassesAndStyles | packages/@astrostory/core/src/sanitization.ts:23-112 | the default sanitiser options set neither `allowedClasses` nor `allowedStyles` |
| SanitizationOptions.DefaultAttributesOption | packages/@astrostory/core/src/sanitization.ts:84-101 | the default `allowedAttributes` is the record of per-tag attribute lists |
| SanitizationOptions.MergeShape | packages/@astrostory/core/src/sanitization.ts:182-219 | over such defaults, only the `allowedAttributes` nested merge can take place |
| SanitizationOptions.MergeWithoutUserOptions | packages/@astrostory/core/src/sanitization.ts:182-186 | without user options the sanitiser gets exactly the defaults |
| SanitizationOptions.MergedOption | packages/@astrostory/core/src/sanitization.ts:182-216 | every option but `allowedAttributes` is the user's when the user sets it and the default otherwise |
| SanitizationOptions.MergedAllowedAttributes | packages/@astrostory/core/src/sanitization.ts:188-196 | with a user record, each tag's list is the user's when listed there, else the default's; any other user value replaces the default; without one the default stays |
| SanitizationOptions.NestedMerge | packages/@astrostory/core/src/sanitization.ts:183-196 | the same nested merge stated over any defaults holding a record under that key |
| SanitizationOptions.EnabledOption | packages/@astrostory/core/src/sanitization.ts:128 | `enabled` is on unless a non-nullish falsy value is given |
| SanitizationOptions.ResolveSanitizationOptions | packages/@astrostory/core/src/sanitization.ts:114-142 | falsy options resolve to disabled with empty lists and the default sanitiser options; otherwise, for distinct records, success exactly when the hooks hold no function and both pattern lists are good; the hooks are checked first, then `args`, then `slots` (which defaults to `["**"]`), and each error is the one its check raises |
| SanitizationOptions.FunctionOptionUnserializable | packages/@astrostory/core/src/sanitization.ts:347-394 | a function anywhere in one option makes the options unwritable |
| SanitizationOptions.FunctionUnserializable | packages/@astrostory/core/src/sanitization.ts:390-393 | a value holding a function cannot be serialised |
| SanitizationOptions.ItemsFunctionUnserializable | packages/@astrostory/core/src/sanitization.ts:364-370 | the same for array items |
| SanitizationOptions.EntriesFunctionUnserializable | packages/@astrostory/core/src/sanitization.ts:372-388 | the same for record entries |
| SanitizationOptions.SerializeSanitizationOptions | packages/@astrostory/core/src/sanitization.ts:168-180 | falsy options are written `undefined`; otherwise success exactly for supported distinct options, giving their literal text; a function in the hooks is reported as the hooks' function error first |
| SanitizationOptions.SanitizeRenderPayload | packages/@astrostory/core/src/sanitization.ts:144-166 | disabled leaves the payload unchanged; a side with no patterns is unchanged; otherwise the side is sanitised from its top-level keys with the resolved sanitiser |
| SanitizationOptions.SanitizedSide | packages/@astrostory/core/src/sanitization.ts:249-261 | a sanitised side keeps its keys in order and each value's shape, each value sanitised under its own key |
| Rules.SkipRun | packages/@astrostory/core/src/rules.ts:289 | drops a leading run of characters outside `[a-z0-9]`, leaving a suffix that is empty or starts with a slug character |
| Rules.TrimDashStart | packages/@astrostory/core/src/rules.ts:290 | removes exactly the leading dashes: a suffix that does not start with a dash, everything dropped being a dash |
| Rules.TrimDashEnd | packages/@astrostory/core/src/rules.ts:290 | removes exactly the trailing dashes: a prefix that does not end with a dash, everything dropped being a dash |
| Rules.SkipRunSlugChars | packages/@astrostory/core/src/rules.ts:289 | skipping a run keeps the slug characters |
| Rules.DashRunsFacts | packages/@astrostory/core/src/rules.ts:289 | each run of other characters becomes a single dash, the slug characters stay in order, and a leading slug character stays first |
| Rules.TrimDashStartSlugChars | packages/@astrostory/core/src/rules.ts:290 | trimming leading dashes keeps the slug characters |
| Rules.TrimDashEndSlugChars | packages/@astrostory/core/src/rules.ts:290 | trimming trailing dashes keeps the slug characters |
| Rules.SlugifyFacts | packages/@astrostory/core/src/rules.ts:285-291 | the result is a slug (slug characters separated by single dashes, none at either end) holding exactly the `[a-z0-9]` characters of the trimmed, lower-cased input, in order |
| Rules.DashSeparatedSlice | packages/@astrostory/core/src/rules.ts:289 | a slice of a dash-separated text is dash-separated |
| Rules.DashRunsOfDashSeparated | packages/@astrostory/core/src/rules.ts:289 | a dash-separated text is left alone by the run replacement |
| Rules.SlugIsFixed | packages/@astrostory/core/src/rules.ts:285-291 | a slug is its own slug |
| Rules.SlugifyIdempotent | packages/@astrostory/core/src/rules.ts:285-291 | slugifying twice is slugifying once |
| Rules.OptionalString | packages/@astrostory/core/src/rules.ts:233-241 | a value is kept exactly when it is a non-blank string, and then trimmed |
| Rules.NormalizeStoryId | packages/@astrostory/core/src/rules.ts:223-231 | a missing, non-string or blank id is ""; otherwise the trimmed id with one leading `/story/` removed |
| Rules.StoryIdStripsOnePrefix | packages/@astrostory/core/src/rules.ts:230 | only one `/story/` prefix is removed |
| Rules.AddKey | packages/@astrostory/core/src/rules.ts:161-193 | adding to an insertion-ordered set adds exactly the key, keeps the first key first and never repeats a key |
| Rules.AddKeyPair | packages/@astrostory/core/src/rules.ts:168-176 | adding a key and its `/story/` form when the condition holds, with the same guarantees |
| Rules.SlugSegments | packages/@astrostory/core/src/rules.ts:178-184 | the title's segments slugged, with empty slugs dropped |
| Rules.StoryKeysMembers | packages/@astrostory/core/src/rules.ts:160-196 | the key list starts with "", repeats nothing, and holds exactly the id, the id with `--` turned into `/`, and the slugged `title/name` path, each also with the `/story/` prefix, whenever these are non-empty |
| Rules.IdPathEmpty | packages/@astrostory/core/src/rules.ts:166 | the `--` form of an id is empty exactly when the id is |
| Rules.EscapeRoundTrip | packages/@astrostory/core/src/rules.ts:304-306 | escaping loses nothing: reading the escapes back gives the pattern |
| Rules.CompileSucceeds | packages/@astrostory/core/src/rules.ts:217-218 | building the expression fails exactly for a pattern with a leading `*` or a `**` |
| Rules.IsWildcardMatch | packages/@astrostory/core/src/rules.ts:216-221 | the match raises exactly when the compiled expression is invalid |
| Rules.Literal | packages/@astrostory/core/src/rules.ts:304-306 | a pattern without `*` compiles to one literal atom per character |
| Rules.CompileLiteral | packages/@astrostory/core/src/rules.ts:217-218 | a pattern without `*` compiles to its literal characters |
| Rules.LiteralMatches | packages/@astrostory/core/src/rules.ts:218-220 | a literal expression matches exactly the identical text |
| Rules.PlainPatternMatchesItself | packages/@astrostory/core/src/rules.ts:216-221 | a pattern without `*` matches exactly the identical key |
| Rules.StarRepeatsPrecedingCharacter | packages/@astrostory/core/src/rules.ts:216-221 | `*` repeats the character before it: `a/*` matches `a` and `a//` but not `a/b` |
| Rules.StarWithNothingToRepeat | packages/@astrostory/core/src/rules.ts:216-221 | a leading `*` and a `**` make the expression invalid, so the match raises |
| Rules.GlobTrailingStar | packages/@astrostory/core/src/rules.ts:216-221 | under glob matching a trailing `*` matches whatever follows the prefix |
| Rules.GlobStarMatchesAll | packages/@astrostory/core/src/rules.ts:216-221 | under glob matching `*` alone matches every key |
| Rules.GlobPlain | packages/@astrostory/core/src/rules.ts:216-221 | under glob matching a pattern without `*` matches exactly itself |
| Rules.GlobMatchesWhereWildcardDoesNot | packages/@astrostory/core/src/rules.ts:216-221 | `a/*` matches `a/b` as a glob but not through the compiled expression |
| Rules.RulesConfigExport | packages/@astrostory/core/src/rules.ts:128-144 | a non-record module is its own export; a defined `default` wins; otherwise a named `rules` export is wrapped as `{ rules }`; otherwise there is none |
| Rules.NormalizeRulesConfig | packages/@astrostory/core/src/rules.ts:96-126 | no export, or an export without `rules`, gives no rules; a non-record export and non-array `rules` are the two errors; otherwise the array's items |
| Rules.DefaultExportWins | packages/@astrostory/core/src/rules.ts:133-135 | a defined default export is used even when a named `rules` export exists |
| Rules.NormalizeStory | packages/@astrostory/core/src/rules.ts:146-158 | the story's keys are the keys of its normalised id, title and name, starting with "" |
| Rules.KeysMatchWritten | packages/@astrostory/core/src/rules.ts:212-221 | a key search raises exactly for an invalid pattern, and otherwise succeeds exactly when some key matches |
| Rules.PatternsMatchMeaning | packages/@astrostory/core/src/rules.ts:198-214 | the match is true exactly when some pattern hits after all earlier ones missed, and false exactly when every pattern misses |
| Rules.PatternsMatchStopsAtHit | packages/@astrostory/core/src/rules.ts:201 | patterns after the first hit are never examined, so even an invalid one causes no error |
| Rules.KeyPatternApplies | packages/@astrostory/core/src/rules.ts:198-214 | a rule whose trimmed pattern without `*` is one of the story's keys applies to the story |
| Rules.OwnKeyMatches | packages/@astrostory/core/src/rules.ts:212 | a pattern without `*` finds itself among the keys |
| Rules.PlainPatternValid | packages/@astrostory/core/src/rules.ts:217-218 | a pattern without `*` always compiles |
| Rules.ToPosixPathNoDoubleBackslash | packages/@astrostory/core/src/rules.ts:300-302 | no two backslashes in a row survive, and the result starts with a backslash only if the input did |
| Rules.ToPosixPathKeepsSlashPaths | packages/@astrostory/core/src/rules.ts:300-302 | a path without backslashes is unchanged |
| Rules.NormalizeMockSpecifier | packages/@astrostory/core/src/rules.ts:243-255 | succeeds exactly for a non-blank string, giving it trimmed; a non-string and a blank string are the two errors |
| Rules.NormalizeMockReplacement | packages/@astrostory/core/src/rules.ts:257-283 | the two type and blank errors; an absolute path made POSIX; a `.`-relative path resolved against the config file's directory and made POSIX, or the missing-config error; anything else kept as written |
| Rules.PackageReplacementKept | packages/@astrostory/core/src/rules.ts:282 | a package specifier is kept verbatim whether or not a config path is known |
| Rules.ApplyEffect | packages/@astrostory/core/src/rules.ts:79-88 | a callback fails exactly when its mock specifier or replacement is malformed, with that error |
| Rules.ApplyEffectsAppend | packages/@astrostory/core/src/rules.ts:70-90 | running callbacks `a + b` is running `a`, then `b` on its result |
| Rules.ApplyEffectsFails | packages/@astrostory/core/src/rules.ts:70-90 | a run fails exactly when some callback fails, and then with the first failure's error |
| Rules.ApplyEffectsHandlers | packages/@astrostory/core/src/rules.ts:79-81 | a successful run appends every handler, in order, to those already selected |
| Rules.ApplyEffectsOtherMocks | packages/@astrostory/core/src/rules.ts:83-88 | a successful run keeps mock specifiers unique and leaves unmocked specifiers as they were |
| Rules.LastMockWins | packages/@astrostory/core/src/rules.ts:87 | the last mock of a specifier decides its replacement |
| Rules.RunUse | packages/@astrostory/core/src/rules.ts:75-89 | one `use` call's callbacks, run in order, give the specified outcome |
| Rules.RunUses | packages/@astrostory/core/src/rules.ts:68-90 | the `use` entries of a rule, called in order, give the specified outcome; a non-function entry throws |
| Rules.SelectStep | packages/@astrostory/core/src/rules.ts:63-91 | one rule moves the selection: a match error stops the run, a miss skips the rule, a hit runs its uses |
| Rules.RunRules | packages/@astrostory/core/src/rules.ts:63-93 | the loop over rules returns exactly the selection, or the first error, that applying the matching rules' `use` entries in order defines |
| Rules.SelectStoryRules | packages/@astrostory/core/src/rules.ts:56-94 | a refused configuration is thrown; otherwise the result is the selection, or first error, of the normalised rules on the normalised story |
| Rules.NoMatchingRuleSelectsNothing | packages/@astrostory/core/src/rules.ts:63-66 | a configuration none of whose rules matches selects nothing |
| Rules.SelectedHandlers | packages/@astrostory/core/src/rules.ts:56-94 | the selected handlers are those passed to `msw.use` by the matching rules, in order, and mock specifiers are unique |
| Msw.MswModuleExport | packages/@astrostory/core/src/msw.ts:113-137 | a non-record module is its own export; a defined default export wins; otherwise, when any named export is present, exactly `handlers`, `options`, `listenOptions` and `enabled` are gathered in that order with the module's values; otherwise there is none |
| Msw.NamedExportsRead | packages/@astrostory/core/src/msw.ts:128-133 | the gathered object has the four keys in order, each holding the module's value |
| Msw.NormalizeMswConfigObject | packages/@astrostory/core/src/msw.ts:147-169 | succeeds exactly when `handlers` is absent or an array and `enabled` absent or a boolean, each failure with its own error (handlers first); the handlers and flag are kept only when of the right type, the two listen options always |
| Msw.ResolveMswRuntimeConfig | packages/@astrostory/core/src/msw.ts:85-111 | a factory's failure propagates; a nullish export gives no configuration, an array a configuration of those handlers, a record its normalised object, and anything else the export-shape error |
| Msw.ServerFor | packages/@astrostory/core/src/msw.ts:67-83 | a server is left listening exactly when there is a configuration not disabled with `enabled: false`; it has the handlers (none by default) and listens with `options`, or `listenOptions` when `options` is nullish |
| Msw.HandlerArrayStartsServer | packages/@astrostory/core/src/msw.ts:96-100 | a default export that is a handler array starts a server with exactly those handlers and no listen options |
| Msw.DisabledNamedExportsStartNothing | packages/@astrostory/core/src/msw.ts:75-77 | named exports with `enabled: false` start no server whatever the handlers |
| Msw.FactoryDecides | packages/@astrostory/core/src/msw.ts:139-145 | a factory export decides the configuration per mode: its failure is the resolution's failure, and `undefined` gives no configuration |
| Msw.MswState.constructor | packages/@astrostory/core/src/msw.ts:171-183 | the shared state starts with no server, nothing synchronised and nothing pending |
| Msw.MswState.Start | packages/@astrostory/core/src/msw.ts:39-56 | returns at once when the module and mode are those of the last successful sync, waits when a sync is pending, and otherwise marks a sync pending; nothing else changes |
| Msw.MswState.Resume | packages/@astrostory/core/src/msw.ts:46-56 | when the awaited sync rejected, this caller rejects with the same error and starts nothing; otherwise the same check again, and otherwise a sync of its own; nothing else changes |
| Msw.MswState.SwapServer | packages/@astrostory/core/src/msw.ts:70-82 | any listening server is closed, then the server the configuration asks for, if any, is started and becomes the current one; the remembered sync and the pending flag stay |
| Msw.MswState.Complete | packages/@astrostory/core/src/msw.ts:58-83 | the configuration is resolved; on success any listening server is closed, the requested one started and the module and mode remembered; on failure the server and the remembered sync stay; nothing is pending afterwards |
| Msw.StartTwice | packages/@astrostory/core/src/msw.ts:39-65 | starting twice with the same module and mode does nothing the second time once the first succeeded, and syncs again when it failed |
| Msw.OverlappingStarts | packages/@astrostory/core/src/msw.ts:39-65 | of two overlapping starts the first syncs and the second waits; when the sync rejects, the waiting caller rejects with the same error and no second server is started, and when it succeeds the waiting caller finds it current |
| ConfigOptions.NotFoundError | packages/@astrostory/core/src/rules-options.ts:19-24 | the not-found error names the resolved path |
| ConfigOptions.NormalizeConfigFileOption | packages/@astrostory/core/src/rules-options.ts:29-50 | a string, or the string `configFile` of an object, trimmed; anything else is the shape error, a blank path the empty-path error; a result is trimmed and non-empty |
| ConfigOptions.Candidates | packages/@astrostory/core/src/rules-options.ts:52-80 | the paths tried in order: the path itself; with no extension, then the path with each of the six extensions, then each `index` file in the directory |
| ConfigOptions.FirstExisting | packages/@astrostory/core/src/rules-options.ts:63-79 | nothing exactly when no candidate exists; otherwise an existing candidate |
| ConfigOptions.FirstExistingAt | packages/@astrostory/core/src/rules-options.ts:63-79 | the result is the first existing candidate |
| ConfigOptions.ResolveConfigFilePath | packages/@astrostory/core/src/rules-options.ts:52-80 | the search returns exactly the first existing candidate |
| ConfigOptions.OptionPath | packages/@astrostory/core/src/rules-options.ts:10-27 | no option means no file; a malformed option is its error; otherwise the normalised path resolved against the working directory must be found, else the not-found error naming it; a found path exists |
| ConfigOptions.ResolveOption | packages/@astrostory/core/src/rules-options.ts:10-27 | the resolution (shared by `msw-options.ts`, identical but for the option name) returns exactly that outcome |
| ConfigOptions.ExtensionStopsSearch | packages/@astrostory/core/src/rules-options.ts:57-59 | a missing path with an extension is not searched further |
| ConfigOptions.TypeScriptFirst | packages/@astrostory/core/src/rules-options.ts:61-69 | an extensionless path whose `.ts` file exists resolves to it, even when a `.js` file exists too |
| Middleware.FirstResolution | packages/@astrostory/core/src/middleware.ts:39-45 | some resolution is returned exactly when some integration gives a usable one, and it is the first such |
| Middleware.ResolveSpecifier | packages/@astrostory/core/src/middleware.ts:28-48 | a usable module mock wins; then an `astro:scripts` specifier goes through `/@id/`; then the first integration's usable resolution; otherwise the specifier itself |
| Middleware.MockBeatsScripts | packages/@astrostory/core/src/middleware.ts:29-37 | a mocked specifier resolves to its mock even when it is an Astro script module |
| Middleware.HandlerMode | packages/@astrostory/core/src/middleware.ts:25 | the given mode, or `development` without one |
| Middleware.ImageSrc | packages/@astrostory/core/src/middleware.ts:131-139 | an image's `src` is a string |
| Middleware.ProcessedItems | packages/@astrostory/core/src/middleware.ts:102-116 | an array keeps its length |
| Middleware.ProcessedIndexed | packages/@astrostory/core/src/middleware.ts:109-111 | an array processed as a record has one entry per item |
| Middleware.ProcessedFields | packages/@astrostory/core/src/middleware.ts:91-129 | a record keeps its entry count |
| Middleware.ProcessedFieldsKeys | packages/@astrostory/core/src/middleware.ts:96-126 | the processed record has exactly the input's keys, in order, each with its processed value |
| Middleware.ProcessedLookup | packages/@astrostory/core/src/middleware.ts:96-126 | looking a key up in the processed record gives the processed value of that key |
| Middleware.ProcessedItemsAt | packages/@astrostory/core/src/middleware.ts:103-115 | each array item keeps its position and is processed on its own |
| Middleware.NestedArrayBecomesRecord | packages/@astrostory/core/src/middleware.ts:109-111 | an array directly inside an array comes back as a record keyed by the indices |
| Middleware.ImageBecomesSrc | packages/@astrostory/core/src/middleware.ts:97-100 | an image value in the arguments becomes its URL |
| Middleware.ProcessValue | packages/@astrostory/core/src/middleware.ts:97-125 | one entry's value is processed as the specification says: an image becomes its URL, arrays item by item, other objects recursively, the rest kept |
| Middleware.ProcessItem | packages/@astrostory/core/src/middleware.ts:104-114 | one array item is processed as the specification says |
| Middleware.ProcessImageMetadata | packages/@astrostory/core/src/middleware.ts:91-129 | the entry-by-entry loop builds exactly the processed record |
| Middleware.ProcessIndexed | packages/@astrostory/core/src/middleware.ts:109-111 | an array reached as an object is processed into the record of its indices |
| Middleware.ExecuteRender | packages/@astrostory/core/src/middleware.ts:55-78 | a rejected configuration-module resolution ends the render with its error and no steps; a render that succeeds applied the MSW handlers and then rendered, in that order, with the processed args as props; a render that reached the container has the container's outcome, and one stopped after applying MSW has that rejection; nothing renders twice |
| Middleware.RenderOutcome | packages/@astrostory/core/src/middleware.ts:60-78 | after a successful selection the render's outcome is the container's html (or rejection) for the selected mocks and processed arguments, or else the MSW application's rejection with nothing rendered |
| Middleware.RenderUsesSelection | packages/@astrostory/core/src/middleware.ts:55-76 | the handlers applied and the module mocks in scope are exactly those the rules selected, and the slots default to `{}` |
| Middleware.SelectionFailureStopsRender | packages/@astrostory/core/src/middleware.ts:60-67 | a failing rule selection stops the render before anything happens, with the selection's error |
| Middleware.RenderQueue.constructor | packages/@astrostory/core/src/middleware.ts:52 | the queue starts empty |
| Middleware.RenderQueue.Handle | packages/@astrostory/core/src/middleware.ts:80-87 | each handler call is chained behind every earlier one |
| Middleware.RenderQueue.Running | packages/@astrostory/core/src/middleware.ts:80-85 | only the render at the head of the queue runs, and every earlier one has settled |
| Middleware.RenderQueue.Settle | packages/@astrostory/core/src/middleware.ts:80-85 | the running render settles and the next one starts whether it succeeded or failed |
| Middleware.RenderQueue.Received | packages/@astrostory/core/src/middleware.ts:87 | each caller receives its own render's outcome, a rejection included |
| Middleware.FailureDoesNotBlock | packages/@astrostory/core/src/middleware.ts:80-87 | after a failed render the next queued render still runs and its caller gets its html |
| Correlation.TimeoutMs | packages/@astrostory/core/src/renderer/renderer-dev.ts:6 | the time limit is the caller's, or 5000 ms without one |
| Correlation.TimeoutError | packages/@astrostory/core/src/renderer/renderer-dev.ts:12-20 | the core renderer's timeout error, and only that one, carries the name the canvas recognises as the server being unavailable |
| Correlation.TimeoutErrorMentions | packages/@storybook/astro-renderer/src/render.tsx:312-315 | every timeout message names the time limit, and the two Storybook renderers' messages also name the request id |
| Correlation.PendingRenders.constructor | packages/@astrostory/core/src/renderer/renderer-dev.ts:3 | the table starts with nothing pending, sent or settled |
| Correlation.PendingRenders.Render | packages/@astrostory/core/src/renderer/renderer-dev.ts:6-29 | a render registers its fresh id with its timer and sends the data with the id added, and settles nothing |
| Correlation.PendingRenders.Respond | packages/@astrostory/core/src/renderer/renderer-dev.ts:45-55 | a response naming a pending id clears that id's timer, removes it and resolves it with the response; any other response changes nothing |
| Correlation.PendingRenders.Timeout | packages/@astrostory/core/src/renderer/renderer-dev.ts:12-21 | a pending render whose timer fires is removed and rejected with its renderer's timeout error |
| Correlation.PendingRenders.SettledOnce | packages/@astrostory/core/src/renderer/renderer-dev.ts:10-55 | each render settles at most once: once settled it is no longer pending, and no other settlement names its id |
| Correlation.ResponseId | packages/@astrostory/core/src/renderer/renderer-dev.ts:47 | a response names a render exactly when its `id` is a non-empty string |
| Correlation.RequestCarriesId | packages/@astrostory/core/src/renderer/renderer-dev.ts:26 | the request carries the render data, with its `id` set to the fresh id and every other field unchanged |
| Correlation.RenderAnswered | packages/@astrostory/core/src/renderer/renderer-dev.ts:45-55 | a render answered in time is resolved with the response, its timer is cleared, and nothing stays pending |
| Correlation.LateResponseIgnored | packages/@astrostory/core/src/renderer/renderer-dev.ts:12-55 | a render that timed out stays rejected: a late response for it changes nothing |
| Correlation.TrailingDigits | packages/@storybook/astro-renderer/src/render.tsx:389-392 | counts exactly the decimal digits at the end of a string |
| Correlation.ZeroIndexIsStyleIndex | packages/@storybook/astro-renderer/src/render.tsx:391 | the first style block's index `0` is a style index the regular expression accepts |
| Correlation.FixedSuffixIsStyleUpdate | packages/@storybook/astro-renderer/src/render.tsx:389-392 | every path the older fixed-suffix check accepts, the newer regular expression accepts too |
| Correlation.StyleUpdateWider | packages/@storybook/astro-renderer/src/render.tsx:391 | the regular expression also accepts other block indices and preprocessors that the fixed suffix misses |
| Correlation.GuardHotCallsKeepsOtherText | packages/@astrostory/core/src/renderer/renderer-dev.ts:58-77 | the style rewrite leaves a style module without `import.meta.hot.accept(` or `import.meta.hot.prune(` as it is |
| Correlation.LegacyCanvas.constructor | packages/@storybook/astro-renderer/render.tsx:57-60 | the canvas starts empty, with no listener and nothing sent |
| Correlation.LegacyCanvas.RenderAstro | packages/@storybook/astro-renderer/render.tsx:74-102 | an Astro render subscribes one more listener and sends the component, the args and the slots, leaving the canvas as it is |
| Correlation.LegacyCanvas.Respond | packages/@storybook/astro-renderer/render.tsx:77-96 | a response is written to the canvas by any subscribed listener, whichever request it answers, and every listener unsubscribes |
| Correlation.OverlappingRenders | packages/@storybook/astro-renderer/render.tsx:74-102 | with two overlapping renders, the first response to arrive is shown whichever request it answers, and the other is dropped |
| HttpRenderer.ServerUrl | packages/@astrostory/core/src/renderer/renderer.ts:75-80 | the server URL is the build environment's when set, else the page's when set, else `http://localhost:3000`, and never empty |
| HttpRenderer.AuthToken | packages/@astrostory/core/src/renderer/renderer.ts:82-87 | a token exists exactly when one of the two is set, the build environment's first, and it is never empty |
| HttpRenderer.Headers | packages/@astrostory/core/src/renderer/renderer.ts:23-29 | the headers always carry the JSON content type, and carry `Bearer <token>` as `authorization` exactly when a token is configured, and nothing else |
| HttpRenderer.UnavailableError | packages/@astrostory/core/src/renderer/renderer.ts:97-103 | the unavailable error carries the name the canvas recognises and a message naming the server |
| HttpRenderer.Classify | packages/@astrostory/core/src/renderer/renderer.ts:54-72 | an abort becomes the unavailable error with the timeout reason, a `TypeError` the unavailable error with the unreachable reason, and any other error is rethrown unchanged |
| HttpRenderer.StatusErrorRethrown | packages/@astrostory/core/src/renderer/renderer.ts:44-71 | the error for a failed status reaches the `catch` and is rethrown unchanged, never as the unavailable error |
| HttpRenderer.UnavailableMentions | packages/@astrostory/core/src/renderer/renderer.ts:97-98 | the unavailable message names the server and carries the reason |
| HttpRenderer.UnavailableMessages | packages/@astrostory/core/src/renderer/renderer.ts:57-69 | the timeout message names the server and the time limit, the unreachable one the server and that it is not reachable |
| HttpRenderer.Render | packages/@astrostory/core/src/renderer/renderer.ts:15-73 | the request goes to `<server>/render` with those headers and the JSON body; the timer is armed and then cleared on every path; an OK response gives its text with the fresh id, a failed status its status error, and a rejection of `fetch` or of the body read the classified error |
| StaticRenderer.LoadOutcome | packages/@astrostory/core/src/renderer/renderer-static.ts:45-53 | the one fetch settles as `fetch` rejects, with a load failure on a failed status, or with the parsed map |
| StaticRenderer.LoadFailureNamesFileAndStatus | packages/@astrostory/core/src/renderer/renderer-static.ts:47-49 | the load failure names the stories file and the status code |
| StaticRenderer.LookupHtml | packages/@astrostory/core/src/renderer/renderer-static.ts:19-25 | a story's html is found exactly when the map has an entry for it, and the error otherwise names the story |
| StaticRenderer.RenderFrom | packages/@astrostory/core/src/renderer/renderer-static.ts:18-30 | a failed load fails the render with the same error; a loaded map gives the story's html with the fresh id, or the missing-entry error |
| StaticRenderer.PrerenderedStories.constructor | packages/@astrostory/core/src/renderer/renderer-static.ts:5 | nothing is loaded at first |
| StaticRenderer.PrerenderedStories.Load | packages/@astrostory/core/src/renderer/renderer-static.ts:41-57 | the first call fetches once and keeps its outcome, failure included; later calls return the kept outcome and never fetch again |
| StaticRenderer.PrerenderedStories.Render | packages/@astrostory/core/src/renderer/renderer-static.ts:7-31 | a missing story id fails before anything is loaded; otherwise the render is the kept or freshly loaded map's entry for the id |
| StaticRenderer.FailedLoadIsKept | packages/@astrostory/core/src/renderer/renderer-static.ts:41-57 | a failed fetch stays cached, so a later render fails the same way even when the file has become reachable |
| Auth.UnsupportedModeError | packages/@astrostory/core/src/server/auth.ts:47 | the refusal of an unsupported mode quotes that mode |
| Auth.ResolveAuthConfig | packages/@astrostory/core/src/server/auth.ts:25-48 | no mode means external; simple-token needs a token that is not blank and keeps it trimmed with its id and expiry as given; any other mode, the empty one included, is refused |
| Auth.ConfiguredTokenTrimmed | packages/@astrostory/core/src/server/auth.ts:33-44 | a configured simple token is never blank and has no white space at either end |
| Auth.LeadingSpace | packages/@astrostory/core/src/server/auth.ts:86 | counts exactly the white space a string starts with |
| Auth.ParseBearerToken | packages/@astrostory/core/src/server/auth.ts:81-93 | a token is found only in a header that starts with the bearer scheme, in any case, followed by white space |
| Auth.BearerRoundTrip | packages/@astrostory/core/src/server/auth.ts:81-93 | a token with no surrounding white space or line break, sent as `Bearer <token>` with the scheme in any case, parses back to itself |
| Auth.NoSchemeNoToken | packages/@astrostory/core/src/server/auth.ts:86-90 | without the bearer scheme and a white space after it there is no token |
| Auth.Authorize | packages/@astrostory/core/src/server/auth.ts:50-79 | external mode admits every request; simple-token mode admits a request exactly when its bearer token equals the configured one, carrying the token's id and expiry, and answers 401 otherwise |
| Auth.MissingHeaderRefused | packages/@astrostory/core/src/server/auth.ts:81-84 | in simple-token mode a request without an `Authorization` header is refused |
| Auth.SentBearerRoundTrip | packages/@astrostory/core/src/renderer/renderer.ts:28 | the `Bearer <token>` header the renderer writes parses back to the token, for a token without surrounding white space or line breaks |
| Auth.RendererTokenAdmitted | packages/@astrostory/core/src/server/auth.ts:59-72 | the header the production renderer sends with the token the server resolved is admitted by the server |
| Integrations.ResolveClient | packages/@storybook/astro/src/integrations/react.ts:27-31 | a module name is served as `/@id/<name>` exactly when it starts with the integration's client path |
| Integrations.Make | packages/@storybook/astro/src/integrations/svelte.ts:13-31 | an integration carries its name, its dependencies, its renderer declaration and preview entry, the given options or its defaults, and its own client resolver |
| Integrations.DeclarationFacts | packages/@storybook/astro/src/integrations/react.ts:12-21 | both renderers are named after the Astro package, with `server.js` and `client.js` entry points, and the client entry point resolves through the integration's own resolver |
| Integrations.DefaultOptionsFacts | packages/@storybook/astro/src/integrations/svelte.ts:9-11 | React, Preact and Solid default to no options; Svelte defaults to the `.svelte` extension and Vue to every `.vue` file |
| Integrations.ClientPrefixesDiffer | packages/@storybook/astro/src/integrations/react.ts:28 | two integrations' client paths differ |
| Integrations.ResolversDisjoint | packages/@storybook/astro/src/integrations/react.ts:27-31 | no module name is resolved by two different integrations |
| Preset.PrefixesOf | packages/@astrostory/core/src/preset.ts:97 | a list stands for its own prefixes, a non-empty string for itself, and an unset or empty setting for none |
| Preset.MergeEnvPrefixesFacts | packages/@astrostory/core/src/preset.ts:93-100 | the merged list holds the added prefix and exactly the existing ones besides, each once, with the existing ones first in their order |
| Preset.MergeIntoDistinctList | packages/@astrostory/core/src/preset.ts:99 | a list without repetitions that already holds the prefix is kept as it is; otherwise the prefix is appended |
| Preset.AliasDefaultsFacts | packages/@astrostory/core/src/preset.ts:37-44 | each React alias is set to its package name only when it is unset or `null`; every other alias is kept |
| Preset.SpreadOf | packages/@astrostory/core/src/preset.ts:64 | spreading a record gives its own entries |
| Preset.ProductionBuildFacts | packages/@astrostory/core/src/preset.ts:63-71 | a production build always writes the manifest and keeps entry signatures strict, and every other build and Rollup option is kept |
| Preset.SpreadOne | packages/@astrostory/core/src/preset.ts:63-66 | spreading an object with one added property is that property's assignment: kept in place when present, appended otherwise |
| Preset.ViteConfig.constructor | packages/@astrostory/core/src/preset.ts:14-17 | the configuration starts as given |
| Preset.ViteConfig.ViteFinal | packages/@astrostory/core/src/preset.ts:14-91 | the `STORYBOOK_` prefix is merged in, the renderer plugins and the mode's plugins are appended, the React aliases defaulted, and only a production build gets the build flags |
| Preset.ExistingAliasesKept | packages/@astrostory/core/src/preset.ts:43-44 | existing React aliases are never overwritten |
| VirtualModules.VirtualModulePlugin.Name | packages/@astrostory/core/src/vite/createVirtualModulePlugin.ts:13 | the plugin carries the given name |
| VirtualModules.VirtualModulePlugin.ResolveId | packages/@astrostory/core/src/vite/createVirtualModulePlugin.ts:14-18 | only the virtual id resolves, to itself behind a NUL prefix |
| VirtualModules.VirtualModulePlugin.Load | packages/@astrostory/core/src/vite/createVirtualModulePlugin.ts:19-23 | the resolved id calls the loader once with that id and passes its result through; any other id gives nothing and calls nothing |
| VirtualModules.ResolveThenLoad | packages/@astrostory/core/src/vite/createVirtualModulePlugin.ts:10-23 | the id `resolveId` returns is the one `load` answers, and the unprefixed id is not |
| VirtualModules.ImportSpecifierPlain | packages/@astrostory/core/src/vite/storybookAstroRulesConfigVirtualModulePlugin.ts:17 | for a path without quotes or control characters the specifier is the path with forward slashes, between quotes |
| VirtualModules.RulesModuleLines | packages/@astrostory/core/src/vite/storybookAstroRulesConfigVirtualModulePlugin.ts:15-33 | the rules module has three lines, and for a found file imports it and exports its path as the same text |
| VirtualModules.RulesModuleCodeLines | packages/@astrostory/core/src/vite/storybookAstroRulesConfigVirtualModulePlugin.ts:19-33 | the module's code splits into exactly those three lines |
| VirtualModules.RulesLoad | packages/@astrostory/core/src/vite/storybookAstroRulesConfigVirtualModulePlugin.ts:15-34 | loading fails exactly when resolving the `rules` option fails, and otherwise gives the module for the file found |
| VirtualModules.RulesConfigPlugin | packages/@astrostory/core/src/vite/storybookAstroRulesConfigVirtualModulePlugin.ts:9-36 | the rules plugin has its name and virtual id and loads the rules module |
| VirtualModules.NoRulesOptionEmptyRules | packages/@astrostory/core/src/vite/storybookAstroRulesConfigVirtualModulePlugin.ts:18-24 | without a `rules` option the module exports an empty rule list |
| VirtualModules.MswModuleCode | packages/@astrostory/core/src/vite/storybookAstroMswConfigVirtualModulePlugin.ts:14-26 | without a file the module exports `undefined`; with one it imports the file and exports its namespace |
| VirtualModules.MswLoad | packages/@astrostory/core/src/vite/storybookAstroMswConfigVirtualModulePlugin.ts:14-27 | loading fails exactly when resolving the `msw` option fails, and otherwise gives the module for the file found |
| VirtualModules.MswConfigPlugin | packages/@astrostory/core/src/vite/storybookAstroMswConfigVirtualModulePlugin.ts:8-29 | the MSW plugin has its name and virtual id and loads the MSW module |
| VirtualModules.SelectRenderer | packages/@astrostory/core/src/viteStorybookAstroRendererPlugin.ts:12-27 | development always uses the hot-channel renderer; production uses the static one exactly for render mode `static`, and HTTP otherwise |
| VirtualModules.RendererModuleCode | packages/@astrostory/core/src/viteStorybookAstroRendererPlugin.ts:19-27 | the module is the one re-export line of the selected renderer's file |
| VirtualModules.RendererPlugin | packages/@astrostory/core/src/viteStorybookAstroRendererPlugin.ts:6-30 | the renderer plugin has its name and virtual id and loads that module |
| VirtualModules.RendererModulesDiffer | packages/@astrostory/core/src/viteStorybookAstroRendererPlugin.ts:19-27 | development, static production and HTTP production give three different modules, and development ignores the render mode |
| StaticPrerender.DecodeEncodedChar | packages/@astrostory/core/src/vite/astroStaticPrerenderPlugin.ts:417 | decoding the escape of an ASCII character gives that character back ahead of the rest |
| StaticPrerender.DecodeEncode | packages/@astrostory/core/src/vite/astroStaticPrerenderPlugin.ts:416-421 | decoding an encoded ASCII specifier gives it back |
| StaticPrerender.ResolveId | packages/@astrostory/core/src/vite/astroStaticPrerenderPlugin.ts:42-50 | exactly the ids with either virtual prefix resolve, to themselves behind a NUL |
| StaticPrerender.Load | packages/@astrostory/core/src/vite/astroStaticPrerenderPlugin.ts:51-74 | ids without either resolved prefix give nothing, and the only failure is a malformed escape |
| StaticPrerender.StaticModuleRoundTrip | packages/@astrostory/core/src/vite/astroStaticPrerenderPlugin.ts:52-64 | a static virtual id resolves and loads back to the module for its specifier: a re-export for a client entrypoint, a bare import otherwise |
| StaticPrerender.ComponentModuleRoundTrip | packages/@astrostory/core/src/vite/astroStaticPrerenderPlugin.ts:66-73 | a component virtual id resolves and loads back to the re-export of its specifier |
| StaticPrerender.ResolvedIdsAreFinal | packages/@astrostory/core/src/vite/astroStaticPrerenderPlugin.ts:42-50 | a resolved id is never resolved again |
| StaticPrerender.ClientEntrypoints | packages/@astrostory/core/src/vite/astroStaticPrerenderPlugin.ts:379-385 | the client entrypoints are exactly those the integrations declare |
| StaticPrerender.CollectTrackedSpecifiers | packages/@astrostory/core/src/vite/astroStaticPrerenderPlugin.ts:373-388 | the loop builds exactly the tracked specifiers |
| StaticPrerender.TrackedSpecifiersFacts | packages/@astrostory/core/src/vite/astroStaticPrerenderPlugin.ts:373-388 | the tracked specifiers start with the two Astro scripts and hold every integration's client entrypoint and nothing else, each once |
| StaticPrerender.StripQuery | packages/@astrostory/core/src/vite/astroStaticPrerenderPlugin.ts:296 | removing the query keeps a prefix of the specifier |
| StaticPrerender.StripQueryNoQuery | packages/@astrostory/core/src/vite/astroStaticPrerenderPlugin.ts:296 | a specifier without `?` is kept whole |
| StaticPrerender.StripQueryAt | packages/@astrostory/core/src/vite/astroStaticPrerenderPlugin.ts:296 | on one line everything from the first `?` is removed |
| StaticPrerender.FirstResolution | packages/@astrostory/core/src/vite/astroStaticPrerenderPlugin.ts:302-308 | some resolution is returned exactly when some integration accepts the specifier, and it is the first one's answer |
| StaticPrerender.ResolveClientModule | packages/@astrostory/core/src/vite/astroStaticPrerenderPlugin.ts:291-309 | the resolver gives the emitted file for the specifier, else for its normalised path, else the first integration's resolution |
| StaticPrerender.QueryStringIgnored | packages/@astrostory/core/src/vite/astroStaticPrerenderPlugin.ts:296-300 | a specifier with a query string finds the emitted file of its bare path |
| StaticPrerender.UnemittedClientEntrypoint | packages/@astrostory/core/src/vite/astroStaticPrerenderPlugin.ts:302-308 | a built-in integration's client entrypoint that was not emitted is served through `/@id/` |
| StaticPrerender.Published | packages/@astrostory/core/src/vite/astroStaticPrerenderPlugin.ts:397-403 | each reference whose chunk has a file name adds its specifier, mapped to a public path of one such chunk; every other entry is kept |
| StaticPrerender.BuildStaticModuleMap | packages/@astrostory/core/src/vite/astroStaticPrerenderPlugin.ts:390-414 | the two loops build exactly the static module map |
| StaticPrerender.PublishedLastWins | packages/@astrostory/core/src/vite/astroStaticPrerenderPlugin.ts:397-411 | the last reference for a specifier decides its file |
| StaticPrerender.PublishedKeeps | packages/@astrostory/core/src/vite/astroStaticPrerenderPlugin.ts:397-403 | an entry no reference names is kept |
| StaticPrerender.StaticModuleMapFacts | packages/@astrostory/core/src/vite/astroStaticPrerenderPlugin.ts:390-430 | a component's chunk takes precedence over a static entrypoint's for the same specifier, and every mapped file is a `./` public path |
| StaticPrerender.MergeStoryArgs | packages/@astrostory/core/src/vite/astroStaticPrerenderPlugin.ts:332-340 | the merged args hold exactly the keys of either side, the story's values over the meta's, each key once |
| StaticPrerender.SeparateSlots | packages/@astrostory/core/src/vite/astroStaticPrerenderPlugin.ts:342-359 | the args lose `slots` and keep everything else; the slots are the `slots` value when it is an object or an array, else `{}` |
| StaticPrerender.AstroStories | packages/@astrostory/core/src/vite/astroStaticPrerenderPlugin.ts:317-318 | the kept entries are exactly the stories of `.astro` components |
| StaticPrerender.CollectAstroStories | packages/@astrostory/core/src/vite/astroStaticPrerenderPlugin.ts:312-330 | the Astro stories in order as story entries, or the error naming the index file when one of them is incomplete |
| StaticPrerender.CompleteEntries | packages/@astrostory/core/src/vite/astroStaticPrerenderPlugin.ts:319-329 | every entry converted in order, or the error when one lacks its id, import path or export name |
| StaticPrerender.HydratableModules | packages/@astrostory/core/src/vite/astroStaticPrerenderPlugin.ts:432-478 | every kept file has a hydratable extension and is not a stories or test file, every such file found is kept, and every kept path is the forward-slash form of a file found |
| StaticPrerender.HydratableModulesAppend | packages/@astrostory/core/src/vite/astroStaticPrerenderPlugin.ts:432-478 | the files of a concatenation are kept part by part, in the order found |
| StaticPrerender.HydratableModulesSingle | packages/@astrostory/core/src/vite/astroStaticPrerenderPlugin.ts:458-474 | one file contributes its forward-slash path exactly when that path is hydratable and not a stories, spec or test file, and nothing otherwise |
| StaticPrerender.StoriesAndTestsExcluded | packages/@astrostory/core/src/vite/astroStaticPrerenderPlugin.ts:480-488 | a stories, test or spec file of a script kind has a hydratable extension but is excluded |
| LegacyPlugins.CodePlugin | packages/@storybook/astro/src/viteAstroContainerRenderersPlugin.ts:8-31 | the plugin resolves only its virtual id, answers the resolved id with its code, and gives nothing for any other id |
| LegacyPlugins.WithServer | packages/@storybook/astro/src/viteAstroContainerRenderersPlugin.ts:36 | every kept integration declares a server renderer and every integration that declares one is kept |
| LegacyPlugins.WithServerAppend | packages/@storybook/astro/src/viteAstroContainerRenderersPlugin.ts:36 | filtering a concatenation is filtering each part, in order, so the filter keeps the integrations' order |
| LegacyPlugins.WithServerSingle | packages/@storybook/astro/src/viteAstroContainerRenderersPlugin.ts:36 | a single integration is kept exactly when it declares a server renderer |
| LegacyPlugins.ImportLines | packages/@storybook/astro/src/viteAstroContainerRenderersPlugin.ts:34-42 | one import line per integration with a server renderer, in order |
| LegacyPlugins.ImportStatementsLines | packages/@storybook/astro/src/viteAstroContainerRenderersPlugin.ts:34-42 | the import statements split into exactly those lines, and hold the import of every integration with a server renderer |
| LegacyPlugins.ServerRegistrationFacts | packages/@storybook/astro/src/viteAstroContainerRenderersPlugin.ts:44-69 | a server registration exists exactly when a server renderer does and names it; Solid's spreads its imported renderer, every other passes it as it is |
| LegacyPlugins.ClientRegistrationFacts | packages/@storybook/astro/src/viteAstroContainerRenderersPlugin.ts:71-84 | a client registration exists exactly when a client renderer does, and passes its name and entrypoint |
| LegacyPlugins.RegistrationList | packages/@storybook/astro/src/viteAstroContainerRenderersPlugin.ts:24 | one registration per integration, in list order |
| LegacyPlugins.ContainerRenderersPlugin | packages/@storybook/astro/src/viteAstroContainerRenderersPlugin.ts:3-32 | the plugin serves `virtual:astro-container-renderers` with the container renderers module |
| LegacyPlugins.ContainerRenderersRegisterAll | packages/@storybook/astro/src/viteAstroContainerRenderersPlugin.ts:17-28 | the module registers every integration: its server registration followed by its client registration |
| LegacyPlugins.FallbackLines | packages/@storybook/astro/src/viteStorybookRendererFallbackPlugin.ts:19-24 | every integration with an entry preview has its re-export line, and there are no more lines than integrations |
| LegacyPlugins.FallbackLinesAppend | packages/@storybook/astro/src/viteStorybookRendererFallbackPlugin.ts:19-24 | the lines of a concatenation are the lines of each part, in order |
| LegacyPlugins.FallbackLinesSingle | packages/@storybook/astro/src/viteStorybookRendererFallbackPlugin.ts:19-24 | one integration gives exactly its re-export line when it has a non-empty entry preview, and nothing otherwise |
| LegacyPlugins.RendererFallbackPlugin | packages/@storybook/astro/src/viteStorybookRendererFallbackPlugin.ts:3-29 | the plugin serves `virtual:storybook-renderer-fallback` with the fallback module |
| LegacyPlugins.FallbackSkipsOthers | packages/@storybook/astro/src/viteStorybookRendererFallbackPlugin.ts:20 | an integration without an entry preview adds nothing to the fallback module |
| LegacyPlugins.EntryPreviewOfMade | packages/@storybook/astro/src/viteStorybookRendererFallbackPlugin.ts:20 | of the built-in integrations only Vue declares an entry preview |
| LegacyPlugins.FallbackExportsVueOnly | packages/@storybook/astro/src/viteStorybookRendererFallbackPlugin.ts:17-26 | with the five built-in integrations the fallback module is the single re-export of Vue's entry preview |
| LegacyPlugins.AstroRendererCode | packages/@storybook/astro/src/viteStorybookAstroRendererPlugin.ts:15-22 | the module re-exports `renderer.ts` exactly in production mode and `renderer-dev.ts` otherwise |
| LegacyPlugins.AstroRendererPlugin | packages/@storybook/astro/src/viteStorybookAstroRendererPlugin.ts:1-25 | the plugin serves `virtual:storybook-astro-renderer` with that module |
| LegacyPlugins.ImportRecords | packages/@storybook/astro/src/vite/astroFilesVirtualModulePlugin.ts:18-23 | one record per component, numbered by its position |
| LegacyPlugins.ImportStatementsOf | packages/@storybook/astro/src/vite/astroFilesVirtualModulePlugin.ts:26 | the imports of the records, in order |
| LegacyPlugins.ExportEntriesOf | packages/@storybook/astro/src/vite/astroFilesVirtualModulePlugin.ts:28 | the default export maps each file to its identifier, in order |
| LegacyPlugins.AstroFilesVirtualModulePlugin | packages/@storybook/astro/src/vite/astroFilesVirtualModulePlugin.ts:10-33 | the plugin serves `virtual:astro-files` with the module importing every component |
| LegacyPlugins.ServerAstroFilesPlugin | packages/@storybook/astro/src/vite/astroServerRenderPlugin.ts:113-158 | the server build's plugin serves `virtual:astro-files` with the same imports and export inside its own layout |
| LegacyPlugins.AstroFilesBindings | packages/@storybook/astro/src/vite/astroFilesVirtualModulePlugin.ts:18-30 | each component is imported under its numbered identifier, and the default export maps the file to that identifier |
| LegacyPlugins.AstroFileIdsDistinct | packages/@storybook/astro/src/vite/astroFilesVirtualModulePlugin.ts:19 | no two components share an identifier |
| LegacyPlugins.NoAstroFiles | packages/@storybook/astro/src/vite/astroFilesVirtualModulePlugin.ts:25-30 | with no components the module has no imports and an empty default export |
| LegacyPlugins.AddDistinct | packages/@storybook/astro/src/vite/astroServerRenderPlugin.ts:32 | adding to a set keeps it free of repeats and adds exactly the new member |
| LegacyPlugins.StoriesMap.constructor | packages/@storybook/astro/src/vite/astroServerRenderPlugin.ts:14 | the map starts empty |
| LegacyPlugins.StoriesMap.ResolveId | packages/@storybook/astro/src/vite/astroServerRenderPlugin.ts:23-35 | an `.astro` id with a truthy (present, non-empty) importer records the importer under the component's resolved path, adding the path once; the hook never resolves anything |
| LegacyPlugins.StoriesMap.AstroComponents | packages/@storybook/astro/src/vite/astroServerRenderPlugin.ts:53-61 | the components handed to the server build are the map's keys, in insertion order, each once |
| LegacyPlugins.TwoImporters | packages/@storybook/astro/src/vite/astroServerRenderPlugin.ts:23-35 | two files importing the same component record it once, with both importers, and with only the non-empty one when the other importer is empty |
| LegacyPlugins.EmptyImporterIgnored | packages/@storybook/astro/src/vite/astroServerRenderPlugin.ts:25 | an import with an empty importer records nothing |
| RenderDispatch.ReplaceFirstPlaceholders | packages/@astrostory/renderer/src/render.tsx:24-32 | the loop over the args fills each arg's first placeholder in turn, exactly as the first-occurrence specification says |
| RenderDispatch.ReplaceTemplatePlaceholders | packages/@storybook/astro-renderer/src/render.tsx:97-107 | the loop over the args fills every placeholder of each arg in turn, exactly as the every-occurrence specification says |
| RenderDispatch.PlaceholderTwice | packages/@storybook/astro-renderer/src/render.tsx:97-107 | with a doubled placeholder the two older renderers fill only the first copy, the newer one both |
| RenderDispatch.ReplaceEveryNone | packages/@storybook/astro-renderer/src/render.tsx:104 | with no further occurrence the rest of the text is kept |
| RenderDispatch.NoPlaceholderIn | packages/@astrostory/renderer/src/render.tsx:28 | a text without `{{` holds no placeholder |
| RenderDispatch.TemplateWithoutPlaceholders | packages/@astrostory/renderer/src/render.tsx:24-32 | a template without `{{` is rendered unchanged by every renderer |
| RenderDispatch.AttributeValue | packages/@storybook/astro-renderer/src/render.tsx:117-126 | a string arg is its own attribute text, anything else its JSON text, and a value with no JSON text reads `undefined` |
| RenderDispatch.CloneElementWithArgs | packages/@storybook/astro-renderer/src/render.tsx:117-126 | the loop sets the attributes arg by arg, exactly as the specification says |
| RenderDispatch.AttributeOfArg | packages/@astrostory/renderer/src/render.tsx:34-45 | each arg's lower-cased attribute holds its text unless a later arg writes the same attribute |
| RenderDispatch.OtherAttributesKept | packages/@astrostory/renderer/src/render.tsx:34-45 | attributes no arg names are kept |
| RenderDispatch.DispatchOrder | packages/@storybook/astro-renderer/src/render.tsx:39-87 | a registry renderer wins over everything except in the oldest renderer; a missing component is an error naming the story; a factory comes back unchanged, another function gets the args as props; any other kind is an error naming the story |
| RenderDispatch.UnavailableErrorsRecognised | packages/@astrostory/renderer/src/render.tsx:151-160 | both ways the core renderers report an unreachable server are recognised, and a thrown non-error never is |
| RenderDispatch.UnavailableByMessage | packages/@astrostory/renderer/src/render.tsx:156-159 | an error of any name is recognised by the unreachable-server text in its message |
| RenderDispatch.SplitSlots | packages/@astrostory/renderer/src/render.tsx:76 | the args lose `slots` and keep everything else; the slots default to `{}` only when absent |
| RenderDispatch.SlotDefaultsDiffer | packages/@astrostory/renderer/src/render.tsx:76 | unlike the prerender plugin, the canvas keeps a `null` slots value as it is |
| RenderDispatch.PanelDescription | packages/@astrostory/renderer/src/render.tsx:93-100 | the unavailable panel explains the failure and ends with the error's message |
| RenderDispatch.CoreRequestFacts | packages/@astrostory/renderer/src/render.tsx:76-89 | the request carries the element's module id, the args without `slots`, the slots, and the story's id, title and name |
| RenderDispatch.CoreCanvasFacts | packages/@astrostory/renderer/src/render.tsx:62-133 | only an Astro factory sends a request; an unreachable server shows the panel with the error's message, and every other failure propagates |
| RenderDispatch.CanvasFacts | packages/@storybook/astro-renderer/src/render.tsx:133-182 | a request is sent exactly for an Astro component with a module id, whose absence throws; only Svelte is restyled after delegation; a mounted node is kept only when no remount is forced |
| RenderDispatch.TruthyFlagOnlyForCore | packages/@storybook/astro-renderer/src/render.tsx:187-197 | an element flagged with a truthy value other than `true` is an Astro factory to the core canvas only |
| RenderDispatch.LegacyCanvasFacts | packages/@storybook/astro-renderer/render.tsx:57-125 | the oldest canvas sends a request, naming no story, exactly for a flagged element; a nullish story result throws; a React element that is not a DOM node goes to the React renderer |
| PortableStories.LocalRenderFacts | packages/@storybook/astro/src/portable-stories.ts:27-36 | the local render names the `component` arg and carries every other arg, and only those |
| PortableStories.MergedProjectAnnotationsFacts | packages/@storybook/astro/src/portable-stories.ts:98-103 | a project's own truthy `render` is kept, otherwise the local one is used; every other annotation is kept and nothing else is added |
| PortableStories.AssignSame | packages/@storybook/astro/src/portable-stories.ts:98-103 | writing back the value a key already has changes nothing |
| PortableStories.MergeIdempotent | packages/@storybook/astro/src/portable-stories.ts:142-147 | merging already merged annotations again changes nothing |
| Accordion.Without | src/components/react/Accordion/Accordion.jsx:10 | the filter keeps exactly the other indexes |
| Accordion.WithoutDistinct | src/components/react/Accordion/Accordion.jsx:10 | the filter keeps a list free of repeats |
| Accordion.WithoutAbsent | src/components/react/Accordion/Accordion.jsx:10 | a list without the index is kept as it is |
| Accordion.ToggledFacts | src/components/react/Accordion/Accordion.jsx:6-18 | a toggle flips its index's membership; with several items allowed no other changes, with one allowed at most one stays open; no index is listed twice |
| Accordion.ToggleTwice | src/components/react/Accordion/Accordion.jsx:7-12 | with several items allowed, opening and closing restores the list; closing and reopening moves the item to the end |
| Accordion.WithoutAppended | src/components/react/Accordion/Accordion.jsx:10-11 | filtering out an appended index gives back the list before it |
| Accordion.AccordionState.constructor | src/components/react/Accordion/Accordion.jsx:4 | every item starts closed |
| Accordion.AccordionState.ToggleItem | src/components/solid/Accordion/Accordion.jsx:6-18 | the open list becomes its toggle; the clicked item flips, with several allowed no other changes, with one allowed at most one stays open |
| Accordion.View | src/components/preact/Accordion/Accordion.jsx:25-41 | each item shows its title, is expanded exactly when its index is open, and shows its content exactly then |
| Accordion.CloneItems | src/components/preact/Accordion/Accordion.jsx:6 | the copies equal the items, in order |
| Accordion.SingleModeShowsOne | src/components/react/Accordion/Accordion.jsx:14-17 | a click on a closed item in one-at-a-time mode shows that item alone |

## Left out

- Browser and DOM effects are outside the model. This covers `innerHTML` writes, script re-activation, `simulatePageLoad`, `simulateDOMContentLoaded`, `showMain`/`showError` and the style-script injection of `applyStyles`. The canvas outcome names what would be written, and the style rewrite is modelled as a string function.
- Timing and concurrency: promise interleavings and when timers fire are events of the model (`Timeout`, `Respond`, `Settle`, `Resume`), not times.
- The Alpine.js start in `packages/@storybook/astro-renderer/src/render.tsx` is a browser side effect and is not modelled.
- Vite, Rollup and Astro machinery is outside the model: `emitFile`, building, `ssrLoadModule`, the Astro container, and the dev-server middleware plugins. So are `prerenderStories`, `createStorySsrServer`, `addContainerRenderers` and `writePrerenderedStoriesFile`. Module mocks in scope are an explicit map, not `AsyncLocalStorage`.
- `applyMswHandlers` and msw's `setupServer`/`listen`/`close` are opaque calls whose invocations the model records.
- `JSON.parse` of the story index and of the prerendered map is taken as already done. `readdir` order is an input to `StaticPrerender.HydratableModules`, and a directory that cannot be read contributes nothing.
- `resolveImportPath` in the prerender plugin only feeds `import()` of story files and is not modelled.
- The `buildStart` hook of `astroServerRenderPlugin.ts` (`addWatchFile`, `console.log`) and the `process.exit(1)` paths of the server build have no result to state.
- `setProjectAnnotations` and Storybook's own `composeStory`/`composeStories` are foreign; only the annotation merge that is handed to them is modelled.
- Numbers in payloads are integers; floating point is out of scope.
- Records keep their keys in insertion order (`Records.Assign`, `Records.Spread` and every user of them). JavaScript lists integer-like keys first, in ascending order, in `Object.keys`, spread and `JSON.stringify`; the model does not, so for such keys the order of the entries, and of the serialised text, can differ from the source's.
- Text.ToLower: lowers ASCII letters only; `toLowerCase` on other scripts is not modelled.
- The identity (`===`) of an MSW config module is approximated by value equality.
- The freshness of `crypto.randomUUID` ids is a precondition (an id not issued before) rather than a property of randomness.
- A user function (a rule's `use` entry, an MSW config function, a placeholder value that is a function) is known by an identifier. Its effects or its text are given as inputs.
- A rejection with a value that is not an `Error` is modelled only where the source distinguishes it (`RenderDispatch.UnavailableErrorsRecognised`).
- RenderDispatch.ReplaceTemplatePlaceholders: requires arg keys that contain no regular-expression syntax and do not start with a digit, because the code builds a regular expression from each key. Keys of any other shape are not modelled.
- RenderDispatch.ReplaceFirstPlaceholders: a function-valued arg is inserted through a given `call`. The replacer function's result is taken as independent of its match arguments.
- RenderDispatch.CloneElementWithArgs: the `InvalidCharacterError` that `setAttribute` raises for an attribute name that is not a valid XML name is not modelled.
- RenderDispatch.PropertyOfNothingError: the message of the `TypeError` for reading a property of `null`/`undefined` follows V8's wording.
- RenderDispatch.CanvasFacts: `forceRemount` is a boolean. The core canvas compares it with `=== false`, so an absent value behaves as `true`, and the model passes `true` in that case.
- StaticPrerender.DecodeComponent: an escaped byte of 0x80 or more counts as malformed. `decodeURIComponent` would decode a valid UTF-8 sequence there, so the model loads a specifier with non-ASCII characters as the `URIError`, and `StaticPrerender.DecodeEncode` proves the round trip for ASCII specifiers only.
- StaticPrerender.Load: the contract states the pass-through and the only error; the decoded modules are stated by `StaticModuleRoundTrip` and `ComponentModuleRoundTrip`.
- Auth.ParseBearerToken: the contract states when a token can be found. The token's value is stated by `BearerRoundTrip` for tokens without line breaks, because the regular expression's `.` stops at a line terminator.
- Accordion.AccordionState.ToggleItem: the mode is passed per click instead of being a prop fixed at render time. The components read it when the item is clicked, so each call behaves the same.
- The render queue of the two `server/index.ts` files repeats the one in `middleware.ts` and is modelled there once.

## Findings

| source | as written | input that shows it | evidently intended | confidence | as-written member | corrected member |
|---|---|---|---|---|---|---|
| packages/@astrostory/core/src/rules.ts:216-221 | `escapeRegExp` leaves `*` unescaped, so `replaceAll('\\*', '.*')` never fires on a plain `*`, and `*` stays a quantifier of the preceding character | pattern `a/*` against story key `a/b`: no match (`a` and `a//` match instead) | `*` matches any run of characters, so `a/*` matches `a/b` | high, not executed | Rules.GlobMatchesWhereWildcardDoesNot | Rules.GlobTrailingStar |

The rule engine of the model (`Rules.SelectStoryRules` and the matching under it) keeps the pattern match as written, because that is what the code does. `Rules.GlobMatch` is the intended matcher, with `Rules.GlobTrailingStar`, `Rules.GlobStarMatchesAll` and `Rules.GlobPlain` proved about it.
