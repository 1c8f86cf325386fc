/**
 * Story rules: a rules configuration lists rules, each with `match`
 * patterns and `use` entries. A story is known by a set of keys derived
 * from its id, title and name; every rule with a pattern matching one of
 * those keys has its `use` entries called, and those register request
 * handlers and module mocks in a selection.
 */
module Rules {
  import opened Wrappers
  import opened Text
  import opened Records
  import opened Values

  // ---------------------------------------------------------------------
  // Slugs
  // ---------------------------------------------------------------------

  /** The characters `slugify` keeps: `[a-z0-9]`. */
  predicate IsSlugChar(c: char)
  {
    'a' <= c <= 'z' || '0' <= c <= '9'
  }

  /** The text after a leading run of characters other than `[a-z0-9]`. */
  function SkipRun(s: string): (r: string)
    ensures |r| <= |s| && r == s[|s| - |r|..]
    ensures s != [] && !IsSlugChar(s[0]) ==> |r| < |s|
    ensures r == [] || IsSlugChar(r[0])
  {
    if s != [] && !IsSlugChar(s[0]) then SkipRun(s[1..]) else s
  }

  /** `replace(/[^a-z0-9]+/g, '-')`: every maximal run of other characters becomes one `-`. */
  function DashRuns(s: string): string
    decreases |s|
  {
    if s == [] then []
    else if IsSlugChar(s[0]) then [s[0]] + DashRuns(s[1..])
    else "-" + DashRuns(SkipRun(s))
  }

  /** The leading `-` characters removed (`/^-+/`). */
  function TrimDashStart(s: string): (r: string)
    ensures |r| <= |s| && r == s[|s| - |r|..]
    ensures r == [] || r[0] != '-'
    ensures forall k :: 0 <= k < |s| - |r| ==> s[k] == '-'
  {
    if s != [] && s[0] == '-' then TrimDashStart(s[1..]) else s
  }

  /** The trailing `-` characters removed (`/-+$/`). */
  function TrimDashEnd(s: string): (r: string)
    ensures |r| <= |s| && r == s[..|r|]
    ensures r == [] || r[|r| - 1] != '-'
    ensures forall k :: |r| <= k < |s| ==> s[k] == '-'
  {
    if s != [] && s[|s| - 1] == '-' then TrimDashEnd(s[..|s| - 1]) else s
  }

  /**
   * `slugify`: trimmed, lower-cased, each run of characters other than
   * `[a-z0-9]` turned into one `-`, and `-` removed at both ends.
   */
  function Slugify(input: string): string
  {
    TrimDashEnd(TrimDashStart(DashRuns(ToLower(Trim(input)))))
  }

  /** Only `[a-z0-9]` and `-`, and never two `-` in a row. */
  predicate DashSeparated(s: string)
  {
    && (forall k :: 0 <= k < |s| ==> IsSlugChar(s[k]) || s[k] == '-')
    && (forall i, j {:trigger s[i], s[j]} :: 0 <= i < |s| && 0 <= j < |s| && j == i + 1 ==> !(s[i] == '-' && s[j] == '-'))
  }

  /** The shape of a slug: dash-separated runs of `[a-z0-9]`, without a `-` at either end. */
  predicate IsSlug(s: string)
  {
    DashSeparated(s) && (s == [] || (s[0] != '-' && s[|s| - 1] != '-'))
  }

  /** The `[a-z0-9]` characters of a text, in order. */
  function SlugChars(s: string): string
  {
    if s == [] then [] else (if IsSlugChar(s[0]) then [s[0]] else []) + SlugChars(s[1..])
  }

  lemma {:induction false} SkipRunSlugChars(s: string)
    ensures SlugChars(SkipRun(s)) == SlugChars(s)
  {
    if s != [] && !IsSlugChar(s[0]) {
      SkipRunSlugChars(s[1..]);
    }
  }

  /** Runs become single dashes, the kept characters stay in order, and a slug character at the front stays there. */
  lemma {:induction false} DashRunsFacts(s: string)
    ensures DashSeparated(DashRuns(s))
    ensures SlugChars(DashRuns(s)) == SlugChars(s)
    ensures s != [] && IsSlugChar(s[0]) ==> DashRuns(s) != [] && DashRuns(s)[0] == s[0]
    decreases |s|
  {
    if s == [] {
    } else if IsSlugChar(s[0]) {
      var d := DashRuns(s[1..]);
      DashRunsFacts(s[1..]);
      assert DashRuns(s) == [s[0]] + d;
      assert ([s[0]] + d)[1..] == d;
    } else {
      var t := SkipRun(s);
      var d := DashRuns(t);
      DashRunsFacts(t);
      SkipRunSlugChars(s);
      assert DashRuns(s) == "-" + d;
      assert ("-" + d)[1..] == d;
    }
  }

  lemma {:induction false} TrimDashStartSlugChars(s: string)
    ensures SlugChars(TrimDashStart(s)) == SlugChars(s)
  {
    if s != [] && s[0] == '-' {
      TrimDashStartSlugChars(s[1..]);
    }
  }

  lemma {:induction false} SlugCharsAppend(a: string, b: string)
    ensures SlugChars(a + b) == SlugChars(a) + SlugChars(b)
  {
    if a != [] {
      var head := if IsSlugChar(a[0]) then [a[0]] else [];
      assert (a + b)[0] == a[0];
      assert (a + b)[1..] == a[1..] + b;
      SlugCharsAppend(a[1..], b);
      assert SlugChars(a + b) == head + SlugChars(a[1..] + b);
      assert SlugChars(a) == head + SlugChars(a[1..]);
    } else {
      assert a + b == b;
    }
  }

  lemma TrimDashEndSlugChars(s: string)
    ensures SlugChars(TrimDashEnd(s)) == SlugChars(s)
  {
    var r := TrimDashEnd(s);
    var tail := s[|r|..];
    assert s == r + tail;
    SlugCharsAppend(r, tail);
    DashesHaveNoSlugChars(tail);
  }

  lemma {:induction false} DashesHaveNoSlugChars(s: string)
    requires forall k :: 0 <= k < |s| ==> s[k] == '-'
    ensures SlugChars(s) == []
  {
    if s != [] {
      DashesHaveNoSlugChars(s[1..]);
    }
  }

  /**
   * `slugify` gives a slug, and keeps exactly the `[a-z0-9]` characters of
   * the trimmed, lower-cased input, in order.
   */
  lemma SlugifyFacts(input: string)
    ensures IsSlug(Slugify(input))
    ensures SlugChars(Slugify(input)) == SlugChars(ToLower(Trim(input)))
  {
    var d := DashRuns(ToLower(Trim(input)));
    DashRunsFacts(ToLower(Trim(input)));
    TrimmedDashesSlug(d);
    TrimDashStartSlugChars(d);
    TrimDashEndSlugChars(TrimDashStart(d));
  }

  /** Trimming the dashes at both ends of a dash-separated text gives a slug. */
  lemma TrimmedDashesSlug(d: string)
    requires DashSeparated(d)
    ensures IsSlug(TrimDashEnd(TrimDashStart(d)))
  {
    var a := TrimDashStart(d);
    DashSeparatedSlice(d, |d| - |a|, |d|);
    var b := TrimDashEnd(a);
    DashSeparatedSlice(a, 0, |b|);
    assert b == a[0..|b|];
    if b != [] {
      assert b[0] == a[0];
    }
  }

  /** A slice of a dash-separated text is dash-separated. */
  lemma DashSeparatedSlice(s: string, i: nat, j: nat)
    requires i <= j <= |s| && DashSeparated(s)
    ensures DashSeparated(s[i..j])
  {
    var t := s[i..j];
    assert forall k :: 0 <= k < |t| ==> t[k] == s[i + k];
  }

  lemma {:induction false} DashRunsOfDashSeparated(s: string)
    requires DashSeparated(s) && (s == [] || s[0] != '-' || |s| == 1 || IsSlugChar(s[1]))
    ensures DashRuns(s) == s
    decreases |s|
  {
    if s != [] {
      var t := s[1..];
      DashSeparatedTail(s);
      DashRunsOfDashSeparated(t);
      if !IsSlugChar(s[0]) {
        SkipSingle(s);
        assert s[0] == '-';
      }
      assert DashRuns(s) == [s[0]] + DashRuns(t);
      assert s == [s[0]] + t;
    }
  }

  /** The rest of a dash-separated text is dash-separated, and a `-` at its front is followed by a slug character. */
  lemma DashSeparatedTail(s: string)
    requires s != [] && DashSeparated(s)
    ensures DashSeparated(s[1..])
    ensures s[1..] == [] || s[1..][0] != '-' || |s[1..]| == 1 || IsSlugChar(s[1..][1])
  {
    assert forall k :: 0 <= k < |s| - 1 ==> s[1..][k] == s[k + 1];
    if |s| >= 3 && s[1] == '-' {
      assert s[2] != '-';
    }
  }

  /** A single non-slug character before a slug character, or alone, is skipped by itself. */
  lemma SkipSingle(s: string)
    requires s != [] && !IsSlugChar(s[0]) && (|s| == 1 || IsSlugChar(s[1]))
    ensures SkipRun(s) == s[1..]
  {
    if |s| >= 2 {
      assert SkipRun(s[1..]) == s[1..];
    }
  }

  /** A slug is its own slug. */
  lemma SlugIsFixed(s: string)
    requires IsSlug(s)
    ensures Slugify(s) == s
  {
    if s != [] {
      assert !IsWhiteSpace(s[0]) && !IsWhiteSpace(s[|s| - 1]);
      assert TrimStart(s) == s;
      assert TrimEnd(s) == s;
      assert ToLower(s) == s;
      if |s| >= 2 && s[0] == '-' {
        assert false;
      }
      DashRunsOfDashSeparated(s);
    }
  }

  /** Slugifying twice is slugifying once. */
  lemma SlugifyIdempotent(input: string)
    ensures Slugify(Slugify(input)) == Slugify(input)
  {
    SlugifyFacts(input);
    SlugIsFixed(Slugify(input));
  }

  // ---------------------------------------------------------------------
  // Story identity and keys
  // ---------------------------------------------------------------------

  const StoryPrefix := "/story/"

  /** `normalizeOptionalString`: a string trimmed, nothing for a non-string or a blank one. */
  function OptionalString(v: Value): (r: Option<string>)
    ensures r.Some? <==> v.Str? && !IsBlank(v.s)
    ensures r.Some? ==> r.value == Trim(v.s) && r.value != ""
  {
    if v.Str? && Trim(v.s) != "" then Some(Trim(v.s)) else None
  }

  /**
   * `normalizeStoryId`: the trimmed id with one leading `/story/` removed;
   * a missing, non-string or blank id is "".
   */
  function NormalizeStoryId(id: Value): (r: string)
    ensures !(id.Str? && !IsBlank(id.s)) ==> r == ""
    ensures id.Str? && !IsBlank(id.s) && StartsWith(Trim(id.s), StoryPrefix) ==> StoryPrefix + r == Trim(id.s)
    ensures id.Str? && !IsBlank(id.s) && !StartsWith(Trim(id.s), StoryPrefix) ==> r == Trim(id.s)
  {
    var value := OptionalString(id).UnwrapOr("");
    if value == "" then ""
    else if StartsWith(value, StoryPrefix) then value[|StoryPrefix|..]
    else value
  }

  /** Only one `/story/` prefix is removed. */
  lemma StoryIdStripsOnePrefix(rest: string)
    requires Trim(StoryPrefix + StoryPrefix + rest) == StoryPrefix + StoryPrefix + rest
    ensures NormalizeStoryId(Str(StoryPrefix + StoryPrefix + rest)) == StoryPrefix + rest
  {
    var s := StoryPrefix + StoryPrefix + rest;
    assert s[..|StoryPrefix|] == StoryPrefix;
    assert s[|StoryPrefix|..] == StoryPrefix + rest;
  }

  /** `keys.add(k)` on a set kept in insertion order. */
  function AddKey(keys: seq<string>, k: string): (r: seq<string>)
    ensures forall x :: x in r <==> x in keys || x == k
    ensures Distinct(keys) ==> Distinct(r)
    ensures |keys| > 0 ==> |r| > 0 && r[0] == keys[0]
  {
    if k in keys then keys else keys + [k]
  }

  /** A key and its `/story/` form added when `cond` holds. */
  function AddKeyPair(keys: seq<string>, k: string, cond: bool): (r: seq<string>)
    ensures forall x :: x in r <==> x in keys || (cond && (x == k || x == StoryPrefix + k))
    ensures Distinct(keys) ==> Distinct(r)
    ensures |keys| > 0 ==> |r| > 0 && r[0] == keys[0]
  {
    if cond then AddKey(AddKey(keys, k), StoryPrefix + k) else keys
  }

  predicate Distinct(xs: seq<string>)
  {
    forall i, j :: 0 <= i < j < |xs| ==> xs[i] != xs[j]
  }

  /** `storyId.replaceAll('--', '/')`, or "" for no id. */
  function IdPath(id: string): string
  {
    if id != "" then ReplaceAll(id, "--", "/") else ""
  }

  /** The slugs of the segments, empty ones dropped. */
  function SlugSegments(parts: seq<string>): (r: seq<string>)
    ensures forall k :: 0 <= k < |r| ==> r[k] != ""
  {
    if parts == [] then []
    else
      var slug := Slugify(parts[0]);
      (if slug == "" then [] else [slug]) + SlugSegments(parts[1..])
  }

  /** The title as a path: each `/`-separated segment slugified, empty segments dropped. */
  function TitlePath(title: Option<string>): string
  {
    match title
    case None => ""
    case Some(t) => Join(SlugSegments(Split(t, '/')), "/")
  }

  function NamePath(name: Option<string>): string
  {
    match name
    case None => ""
    case Some(n) => Slugify(n)
  }

  /** `resolveStoryKeys`: the keys in the order they are added to the set. */
  function StoryKeys(id: string, title: Option<string>, name: Option<string>): (keys: seq<string>)
  {
    var keys := AddKeyPair([""], id, id != "");
    var keys := AddKeyPair(keys, IdPath(id), IdPath(id) != "");
    AddKeyPair(keys, TitlePath(title) + "/" + NamePath(name), TitlePath(title) != "" && NamePath(name) != "")
  }

  /**
   * The key set holds "" first and no key twice; the raw id, the id with
   * `--` turned into `/`, and the slugged `title/name` path, each with and
   * without `/story/`, and nothing else.
   */
  lemma StoryKeysMembers(id: string, title: Option<string>, name: Option<string>)
    ensures var keys := StoryKeys(id, title, name);
      && keys[0] == ""
      && Distinct(keys)
      && forall k :: k in keys <==>
        || k == ""
        || (id != "" && (k == id || k == StoryPrefix + id))
        || (IdPath(id) != "" && (k == IdPath(id) || k == StoryPrefix + IdPath(id)))
        || (TitlePath(title) != "" && NamePath(name) != ""
            && (k == TitlePath(title) + "/" + NamePath(name) || k == StoryPrefix + (TitlePath(title) + "/" + NamePath(name))))
  {
    assert Distinct([""]);
    var k1 := AddKeyPair([""], id, id != "");
    var k2 := AddKeyPair(k1, IdPath(id), IdPath(id) != "");
    assert StoryKeys(id, title, name) == AddKeyPair(k2, TitlePath(title) + "/" + NamePath(name), TitlePath(title) != "" && NamePath(name) != "");
  }

  /** An id is non-empty exactly when its `--` form is. */
  lemma IdPathEmpty(id: string)
    ensures IdPath(id) == "" <==> id == ""
  {
    if id != "" {
      if |id| >= 2 && id[..2] == "--" {
        assert ReplaceAll(id, "--", "/") == "/" + ReplaceAll(id[2..], "--", "/");
      } else {
        assert ReplaceAll(id, "--", "/") == [id[0]] + ReplaceAll(id[1..], "--", "/");
      }
    }
  }

  // ---------------------------------------------------------------------
  // Wildcard patterns
  // ---------------------------------------------------------------------

  /** The characters `escapeRegExp` escapes: the regular-expression syntax characters other than `*`. */
  predicate IsEscaped(c: char)
  {
    c in "|\\{}()[]^$+?."
  }

  /** `escapeRegExp`: a backslash before every character of `IsEscaped`. */
  function EscapeRegExp(s: string): string
  {
    if s == [] then [] else (if IsEscaped(s[0]) then ['\\', s[0]] else [s[0]]) + EscapeRegExp(s[1..])
  }

  /** Backslash escapes read back: `\c` stands for `c`. */
  function Unescape(s: string): string
    decreases |s|
  {
    if s == [] then []
    else if s[0] == '\\' && |s| >= 2 then [s[1]] + Unescape(s[2..])
    else [s[0]] + Unescape(s[1..])
  }

  /** Escaping loses nothing: reading the escapes back gives the pattern. */
  lemma {:induction false} EscapeRoundTrip(s: string)
    ensures Unescape(EscapeRegExp(s)) == s
  {
    if s != [] {
      var head := if IsEscaped(s[0]) then ['\\', s[0]] else [s[0]];
      var e := head + EscapeRegExp(s[1..]);
      EscapeRoundTrip(s[1..]);
      if IsEscaped(s[0]) {
        assert e[2..] == EscapeRegExp(s[1..]);
      } else {
        assert s[0] != '\\';
        assert e[1..] == EscapeRegExp(s[1..]);
      }
    }
  }

  /** The source text of the expression `isWildcardMatch` builds. */
  function RegexSource(pattern: string): string
  {
    "^" + ReplaceAll(EscapeRegExp(pattern), "\\*", ".*") + "$"
  }

  /** One element of the compiled expression: a literal character, repeated any number of times when `star` is set. */
  datatype Atom = Atom(c: char, star: bool)

  /**
   * The expression `isWildcardMatch` builds, atom by atom. Since
   * `escapeRegExp` leaves `*` alone, the `\*` rewrite fires only where the
   * pattern has a backslash before a `*` (on the second half of the escaped
   * backslash), giving `\.*`: a repeated literal `.`. Every other `*` stays
   * a quantifier on the character before it, and a `*` with nothing to
   * repeat (at the start, or after another `*`) is a syntax error: `None`.
   */
  function Compile(p: string): (r: Option<seq<Atom>>)
    decreases |p|
  {
    if p == [] then Some([])
    else if p[0] == '*' then None
    else
      var starred := |p| >= 2 && p[1] == '*';
      var c := if starred && p[0] == '\\' then '.' else p[0];
      var next := if starred then 2 else 1;
      match Compile(p[next..])
      case None => None
      case Some(rest) => Some([Atom(c, starred)] + rest)
  }

  /** The anchored expression matches the whole candidate. */
  function Matches(atoms: seq<Atom>, s: string): bool
    decreases |atoms|, |s|
  {
    if atoms == [] then s == []
    else if atoms[0].star then Matches(atoms[1..], s) || (s != [] && s[0] == atoms[0].c && Matches(atoms, s[1..]))
    else s != [] && s[0] == atoms[0].c && Matches(atoms[1..], s[1..])
  }

  /** A pattern the regular-expression engine accepts: no `*` first and no `**`. */
  predicate RegexValid(p: string)
  {
    (p == [] || p[0] != '*') && forall i :: 0 <= i < |p| - 1 ==> !(p[i] == '*' && p[i + 1] == '*')
  }

  /** Compilation fails exactly for a leading `*` or a `**`. */
  lemma {:induction false} CompileSucceeds(p: string)
    ensures Compile(p).Some? <==> RegexValid(p)
    decreases |p|
  {
    if p != [] && p[0] != '*' {
      var n := if |p| >= 2 && p[1] == '*' then 2 else 1;
      CompileSucceeds(p[n..]);
      if RegexValid(p[n..]) {
        forall i | 0 <= i < |p| - 1
          ensures !(p[i] == '*' && p[i + 1] == '*')
        {
          if i >= n {
            assert p[i] == p[n..][i - n];
          }
        }
      }
      if RegexValid(p) && p[n..] != [] {
        assert p[n..][0] == p[n];
      }
    }
  }

  /** The regular-expression error for a pattern with nothing to repeat. */
  function RegexError(pattern: string): Error
  {
    Error("SyntaxError", "Invalid regular expression: /" + RegexSource(pattern) + "/: Nothing to repeat")
  }

  /** `isWildcardMatch` as written: the compiled expression applied to the candidate. */
  function IsWildcardMatch(pattern: string, candidate: string): (r: Result<bool>)
    ensures r.Err? <==> !RegexValid(pattern)
  {
    CompileSucceeds(pattern);
    match Compile(pattern)
    case None => Err(RegexError(pattern))
    case Some(atoms) => Ok(Matches(atoms, candidate))
  }

  /** A pattern read character for character. */
  function Literal(s: string): (r: seq<Atom>)
    ensures |r| == |s|
  {
    if s == [] then [] else [Atom(s[0], false)] + Literal(s[1..])
  }

  lemma {:induction false} CompileLiteral(p: string)
    requires '*' !in p
    ensures Compile(p) == Some(Literal(p))
  {
    if p != [] {
      assert '*' !in p[1..];
      CompileLiteral(p[1..]);
    }
  }

  lemma {:induction false} LiteralMatches(p: string, s: string)
    ensures Matches(Literal(p), s) <==> s == p
  {
    if p != [] && s != [] {
      LiteralMatches(p[1..], s[1..]);
      assert Literal(p)[1..] == Literal(p[1..]);
      if s[0] == p[0] && s[1..] == p[1..] {
        assert s == [s[0]] + s[1..] && p == [p[0]] + p[1..];
      }
    }
  }

  /** A pattern without `*` matches exactly the identical key. */
  lemma PlainPatternMatchesItself(pattern: string, key: string)
    requires '*' !in pattern
    ensures IsWildcardMatch(pattern, key) == Ok(key == pattern)
  {
    CompileLiteral(pattern);
    LiteralMatches(pattern, key);
  }

  // `*` repeats the character before it: "a/*" matches "a" and "a//" but not "a/b".
  lemma StarRepeatsPrecedingCharacter()
    ensures IsWildcardMatch("a/*", "a/b") == Ok(false)
    ensures IsWildcardMatch("a/*", "a") == Ok(true)
    ensures IsWildcardMatch("a/*", "a//") == Ok(true)
  {
    var atoms := [Atom('a', false), Atom('/', true)];
    assert "a/*"[1..] == "/*" && "/*"[2..] == [];
    assert "/*"[0] == '/' && "/*"[1] == '*' && "a/*"[0] == 'a' && "a/*"[1] == '/';
    assert Compile([]) == Some([]);
    assert Compile("/*") == Some([Atom('/', true)]) by {
      var p := "/*";
      assert p != [] && p[0] != '*' && |p| >= 2 && p[1] == '*' && p[0] != '\\';
      assert p[2..] == [];
      assert Compile(p[2..]) == Some([]);
      assert [Atom('/', true)] + [] == [Atom('/', true)];
    }
    assert Compile("a/*") == Some(atoms) by {
      assert [Atom('a', false)] + [Atom('/', true)] == atoms;
    }
    assert Matches(atoms[1..], "/b") == false by {
      assert !Matches([], "/b");
      assert !Matches(atoms[1..], "b");
    }
    assert Matches(atoms[1..], "") by {
      assert Matches([], "");
    }
    assert Matches(atoms[1..], "//") by {
      assert Matches(atoms[1..], "//"[1..]);
      assert Matches(atoms[1..], "//"[2..]);
    }
  }

  /** A leading `*` and a `**` are rejected by the expression engine. */
  lemma StarWithNothingToRepeat(key: string)
    ensures IsWildcardMatch("*", key).Err?
    ensures IsWildcardMatch("a**", key).Err?
  {
    assert !RegexValid("a**") by {
      assert "a**"[1] == '*' && "a**"[2] == '*';
    }
  }

  /**
   * Glob matching, where `*` stands for any run of characters: what the
   * `\*` rewrite is there for, had `escapeRegExp` escaped `*` as well.
   */
  function GlobMatch(p: string, s: string): bool
    decreases |p|, |s|
  {
    if p == [] then s == []
    else if p[0] == '*' then GlobMatch(p[1..], s) || (s != [] && GlobMatch(p, s[1..]))
    else s != [] && s[0] == p[0] && GlobMatch(p[1..], s[1..])
  }

  // A trailing `*` matches whatever follows: "a/*" matches "a/b".
  lemma {:induction false} GlobTrailingStar(prefix: string, rest: string)
    requires '*' !in prefix
    ensures GlobMatch(prefix + "*", prefix + rest)
    decreases |prefix|
  {
    if prefix == [] {
      GlobStarMatchesAll(rest);
      assert prefix + "*" == "*" && prefix + rest == rest;
    } else {
      assert '*' !in prefix[1..];
      GlobTrailingStar(prefix[1..], rest);
      assert (prefix + "*")[1..] == prefix[1..] + "*";
      assert (prefix + rest)[1..] == prefix[1..] + rest;
    }
  }

  lemma {:induction false} GlobStarMatchesAll(s: string)
    ensures GlobMatch("*", s)
    decreases |s|
  {
    if s == [] {
      assert GlobMatch("*"[1..], s);
    } else {
      GlobStarMatchesAll(s[1..]);
    }
  }

  /** Without `*` the glob is the identical text. */
  lemma {:induction false} GlobPlain(p: string, s: string)
    requires '*' !in p
    ensures GlobMatch(p, s) <==> s == p
    decreases |p|
  {
    if p != [] && s != [] {
      assert '*' !in p[1..];
      GlobPlain(p[1..], s[1..]);
      if s[0] == p[0] && s[1..] == p[1..] {
        assert s == [s[0]] + s[1..] && p == [p[0]] + p[1..];
      }
    }
  }

  // The example the rewrite was written for: under glob matching "a/*" matches "a/b".
  lemma GlobMatchesWhereWildcardDoesNot()
    ensures GlobMatch("a/*", "a/b")
    ensures IsWildcardMatch("a/*", "a/b") == Ok(false)
  {
    GlobTrailingStar("a/", "b");
    assert "a/" + "*" == "a/*" && "a/" + "b" == "a/b";
    StarRepeatsPrecedingCharacter();
  }

  // ---------------------------------------------------------------------
  // The rules configuration
  // ---------------------------------------------------------------------

  /** `isRecord`: a non-null object that is not an array. */
  predicate IsRecord(v: Value)
  {
    v.Obj?
  }

  /**
   * `getRulesConfigExport`: a non-record module is its own export; a
   * defined `default` export wins; otherwise a named `rules` export is
   * wrapped as `{ rules }`; otherwise there is none.
   */
  function RulesConfigExport(m: Value): (r: Value)
    ensures !IsRecord(m) ==> r == m
    ensures IsRecord(m) && !Get(m.fields, "default").Undefined? ==> r == Get(m.fields, "default")
    ensures IsRecord(m) && Get(m.fields, "default").Undefined? && HasKey(m.fields, "rules") ==>
      r == Obj([Entry("rules", Get(m.fields, "rules"))])
    ensures IsRecord(m) && Get(m.fields, "default").Undefined? && !HasKey(m.fields, "rules") ==> r == Undefined
  {
    if !IsRecord(m) then m
    else if HasKey(m.fields, "default") && !Get(m.fields, "default").Undefined? then Get(m.fields, "default")
    else if HasKey(m.fields, "rules") then Obj([Entry("rules", Get(m.fields, "rules"))])
    else Undefined
  }

  const ConfigShapeError := "Story rules config must export an object with a \"rules\" array via a default export or named export."
  const RulesArrayError := "Story rules config \"rules\" must be an array."

  /**
   * `normalizeRulesConfig`: no export, or an export without `rules`, gives
   * no rules; an export that is not a record, or `rules` that is not an
   * array, is an error; otherwise the rules are the array's items.
   */
  function NormalizeRulesConfig(m: Value): (r: Result<seq<Value>>)
    ensures var e := RulesConfigExport(m);
      && (Nullish(e) ==> r == Ok([]))
      && (!Nullish(e) && !IsRecord(e) ==> r == Err(Fail(ConfigShapeError)))
      && (IsRecord(e) && Get(e.fields, "rules").Undefined? ==> r == Ok([]))
      && (IsRecord(e) && !Get(e.fields, "rules").Undefined? && !Get(e.fields, "rules").Arr? ==> r == Err(Fail(RulesArrayError)))
      && (IsRecord(e) && Get(e.fields, "rules").Arr? ==> r == Ok(Get(e.fields, "rules").items))
  {
    var e := RulesConfigExport(m);
    if Nullish(e) then Ok([])
    else if !IsRecord(e) then Err(Fail(ConfigShapeError))
    else
      var rules := Get(e.fields, "rules");
      if rules.Undefined? then Ok([])
      else if !rules.Arr? then Err(Fail(RulesArrayError))
      else Ok(rules.items)
  }

  predicate Nullish(v: Value)
  {
    v.Undefined? || v.Null?
  }

  /** A defined default export is used even when a named `rules` export exists. */
  lemma DefaultExportWins(d: Value, named: Value)
    requires d.Obj? && Get(d.fields, "rules").Arr?
    ensures NormalizeRulesConfig(Obj([Entry("rules", named), Entry("default", d)])) == Ok(Get(d.fields, "rules").items)
  {
    var fields := [Entry("rules", named), Entry("default", d)];
    assert fields[1..][0].key == "default";
    assert Lookup(fields, "default") == Some(d);
  }

  // ---------------------------------------------------------------------
  // Matching a rule against a story
  // ---------------------------------------------------------------------

  /** A story as the `use` entries see it. */
  datatype Story = Story(id: string, title: Option<string>, name: Option<string>, keys: seq<string>)

  /** `normalizeStory`: the normalised id, title and name and the keys they give. */
  function NormalizeStory(input: Value): (r: Story)
    ensures r.keys == StoryKeys(r.id, r.title, r.name)
    ensures r.keys != [] && r.keys[0] == ""
  {
    var id := NormalizeStoryId(Prop(input, "id"));
    var title := OptionalString(Prop(input, "title"));
    var name := OptionalString(Prop(input, "name"));
    StoryKeysMembers(id, title, name);
    Story(id, title, name, StoryKeys(id, title, name))
  }

  /** A pattern test: `isWildcardMatch`, or another matcher put in its place. */
  type Matcher = (string, string) -> Result<bool>

  /** The matcher the source uses. */
  function WrittenMatcher(): Matcher
  {
    (pattern, key) => IsWildcardMatch(pattern, key)
  }

  /** Glob matching, as the `\*` rewrite intends. */
  function GlobMatcher(): Matcher
  {
    (pattern, key) => Ok(GlobMatch(pattern, key))
  }

  /** `story.keys.some(key => isWildcardMatch(pattern, key))`: stops at the first key that matches. */
  function KeysMatch(pattern: string, keys: seq<string>, matcher: Matcher): Result<bool>
  {
    if keys == [] then Ok(false)
    else
      match matcher(pattern, keys[0])
      case Err(e) => Err(e)
      case Ok(hit) => if hit then Ok(true) else KeysMatch(pattern, keys[1..], matcher)
  }

  const MatchTypeError := "Story rule \"match\" must be a string or an array of strings."
  const MatchEmptyError := "Story rule \"match\" cannot be empty."

  /**
   * `patterns.some(...)` in `isStoryRuleMatch`: each pattern must be a
   * string that is not blank; it is trimmed and tried against the keys,
   * and the first pattern that matches ends the search.
   */
  function PatternsMatch(patterns: seq<Value>, keys: seq<string>, matcher: Matcher): Result<bool>
  {
    if patterns == [] then Ok(false)
    else if !patterns[0].Str? then Err(Fail(MatchTypeError))
    else if IsBlank(patterns[0].s) then Err(Fail(MatchEmptyError))
    else
      match KeysMatch(Trim(patterns[0].s), keys, matcher)
      case Err(e) => Err(e)
      case Ok(hit) => if hit then Ok(true) else PatternsMatch(patterns[1..], keys, matcher)
  }

  /** A pattern that matches some key, every key before it checked without error. */
  ghost predicate PatternHits(p: Value, keys: seq<string>, matcher: Matcher)
  {
    p.Str? && !IsBlank(p.s) && KeysMatch(Trim(p.s), keys, matcher) == Ok(true)
  }

  /** With the source's matcher, a key search fails exactly for an invalid pattern, and otherwise finds whether some key matches. */
  lemma {:induction false} KeysMatchWritten(pattern: string, keys: seq<string>)
    requires keys != []
    ensures KeysMatch(pattern, keys, WrittenMatcher()).Err? <==> !RegexValid(pattern)
    ensures RegexValid(pattern) ==>
      (KeysMatch(pattern, keys, WrittenMatcher()) == Ok(true) <==> exists k :: 0 <= k < |keys| && IsWildcardMatch(pattern, keys[k]) == Ok(true))
  {
    var m := WrittenMatcher();
    assert m(pattern, keys[0]) == IsWildcardMatch(pattern, keys[0]);
    if RegexValid(pattern) && IsWildcardMatch(pattern, keys[0]) == Ok(false) {
      if |keys| > 1 {
        KeysMatchWritten(pattern, keys[1..]);
        if exists k :: 0 <= k < |keys| && IsWildcardMatch(pattern, keys[k]) == Ok(true) {
          var k :| 0 <= k < |keys| && IsWildcardMatch(pattern, keys[k]) == Ok(true);
          assert keys[1..][k - 1] == keys[k];
        }
      }
    }
  }

  /**
   * The outcome of the pattern search: `true` exactly when some pattern
   * hits; an error only from a pattern before the first hit.
   */
  lemma {:induction false} PatternsMatchMeaning(patterns: seq<Value>, keys: seq<string>, matcher: Matcher)
    ensures PatternsMatch(patterns, keys, matcher) == Ok(true) <==>
      exists i :: 0 <= i < |patterns| && PatternHits(patterns[i], keys, matcher)
        && forall j :: 0 <= j < i ==> PatternsMatch([patterns[j]], keys, matcher) == Ok(false)
    ensures PatternsMatch(patterns, keys, matcher) == Ok(false) <==>
      forall i :: 0 <= i < |patterns| ==> PatternsMatch([patterns[i]], keys, matcher) == Ok(false)
  {
    if patterns != [] {
      PatternsMatchMeaning(patterns[1..], keys, matcher);
      var one := PatternsMatch([patterns[0]], keys, matcher);
      assert [patterns[0]][1..] == [];
      assert one == PatternsMatch(patterns, keys, matcher) || PatternsMatch(patterns, keys, matcher) == PatternsMatch(patterns[1..], keys, matcher);
      assert forall j :: 0 < j < |patterns| ==> patterns[1..][j - 1] == patterns[j];
      if one == Ok(false) {
        assert PatternsMatch(patterns, keys, matcher) == PatternsMatch(patterns[1..], keys, matcher);
      }
    }
  }

  /** Patterns after the first hit are never looked at: even an invalid one causes no error. */
  lemma {:induction false} PatternsMatchStopsAtHit(patterns: seq<Value>, more: seq<Value>, keys: seq<string>, matcher: Matcher)
    requires PatternsMatch(patterns, keys, matcher) == Ok(true)
    ensures PatternsMatch(patterns + more, keys, matcher) == Ok(true)
  {
    assert (patterns + more)[0] == patterns[0];
    assert (patterns + more)[1..] == patterns[1..] + more;
    if KeysMatch(Trim(patterns[0].s), keys, matcher) != Ok(true) {
      PatternsMatchStopsAtHit(patterns[1..], more, keys, matcher);
    }
  }

  /** `Array.isArray(match) ? match : [match]`. */
  function MatchPatterns(matchValue: Value): seq<Value>
  {
    if matchValue.Arr? then matchValue.items else [matchValue]
  }

  /** `isStoryRuleMatch(rule.match, story)`; reading `match` off `null` or `undefined` is a type error. */
  function RuleApplies(rule: Value, story: Story, matcher: Matcher): Result<bool>
  {
    if Nullish(rule) then
      Err(Error("TypeError", "Cannot read properties of " + (if rule.Null? then "null" else "undefined") + " (reading 'match')"))
    else PatternsMatch(MatchPatterns(Prop(rule, "match")), story.keys, matcher)
  }

  /** A rule whose pattern is one of the story's keys, written without `*`, applies to the story. */
  lemma KeyPatternApplies(p: string, story: Story)
    requires p in story.keys && Trim(p) == p && p != [] && '*' !in p
    ensures RuleApplies(Obj([Entry("match", Str(p))]), story, WrittenMatcher()) == Ok(true)
  {
    var rule := Obj([Entry("match", Str(p))]);
    assert Prop(rule, "match") == Str(p);
    OwnKeyMatches(p, story.keys);
  }

  lemma OwnKeyMatches(pattern: string, keys: seq<string>)
    requires '*' !in pattern && pattern in keys
    ensures KeysMatch(pattern, keys, WrittenMatcher()) == Ok(true)
  {
    var k :| 0 <= k < |keys| && keys[k] == pattern;
    PlainPatternMatchesItself(pattern, keys[k]);
    PlainPatternValid(pattern);
    KeysMatchWritten(pattern, keys);
  }

  lemma PlainPatternValid(pattern: string)
    requires '*' !in pattern
    ensures RegexValid(pattern)
  {
    if pattern != [] {
      assert pattern[0] in pattern;
    }
  }

  // ---------------------------------------------------------------------
  // Mock specifiers and replacements
  // ---------------------------------------------------------------------

  /** The two `node:path` operations the replacement needs. */
  datatype PathOps = PathOps(isAbsolute: string -> bool, dirname: string -> string, resolve: (string, string) -> string)

  /** `toPosixPath`: each pair of backslashes becomes one `/`. */
  function ToPosixPath(s: string): string
  {
    ReplaceAll(s, "\\\\", "/")
  }

  /** No two backslashes in a row survive, and the first character is a backslash only if the input's was. */
  lemma {:induction false} ToPosixPathNoDoubleBackslash(s: string)
    ensures var r := ToPosixPath(s);
      && (forall k :: 0 <= k < |r| - 1 ==> !(r[k] == '\\' && r[k + 1] == '\\'))
      && (r != [] && r[0] == '\\' ==> s != [] && s[0] == '\\')
    decreases |s|
  {
    var r := ToPosixPath(s);
    if |s| < 2 {
    } else if s[..2] == "\\\\" {
      ToPosixPathNoDoubleBackslash(s[2..]);
      assert r == "/" + ToPosixPath(s[2..]);
    } else {
      var t := ToPosixPath(s[1..]);
      ToPosixPathNoDoubleBackslash(s[1..]);
      assert r == [s[0]] + t;
      if s[0] == '\\' {
        assert s[1] != '\\' by { assert s[..2] == [s[0], s[1]]; }
      }
      forall k | 0 <= k < |r| - 1 ensures !(r[k] == '\\' && r[k + 1] == '\\') {
        if k > 0 {
          assert r[k] == t[k - 1] && r[k + 1] == t[k];
        }
      }
    }
  }

  /** A path without backslashes is already POSIX. */
  lemma ToPosixPathKeepsSlashPaths(s: string)
    requires '\\' !in s
    ensures ToPosixPath(s) == s
  {
    forall j | 0 <= j ensures !OccursAt(s, "\\\\", j) {
      if j + 2 <= |s| {
        assert s[j] in s;
        assert s[j..j + 2][0] == s[j];
      }
    }
    ReplaceAllAbsent(s, "\\\\", "/");
  }

  const SpecifierTypeError := "Story rule mock specifier must be a string."
  const SpecifierEmptyError := "Story rule mock specifier cannot be empty."
  const ReplacementTypeError := "Story rule mock replacement must be a string."
  const ReplacementEmptyError := "Story rule mock replacement cannot be empty."
  const RelativeWithoutConfigError := "Story rule mock replacement uses a relative path, but rules config path is unavailable."

  /** `normalizeMockSpecifier`: a non-blank string, trimmed. */
  function NormalizeMockSpecifier(v: Value): (r: Result<string>)
    ensures r.Ok? <==> v.Str? && !IsBlank(v.s)
    ensures r.Ok? ==> r.value == Trim(v.s) && r.value != [] && Trim(r.value) == r.value
    ensures !v.Str? ==> r == Err(Fail(SpecifierTypeError))
    ensures v.Str? && IsBlank(v.s) ==> r == Err(Fail(SpecifierEmptyError))
  {
    if !v.Str? then Err(Fail(SpecifierTypeError))
    else if IsBlank(v.s) then Err(Fail(SpecifierEmptyError))
    else
      TrimIdempotent(v.s);
      Ok(Trim(v.s))
  }

  /**
   * `normalizeMockReplacement`: a non-blank string, trimmed; an absolute
   * path is made POSIX; a path starting with `.` is resolved against the
   * directory of the rules config file, which must then be known; anything
   * else (a package specifier) is kept as written.
   */
  function NormalizeMockReplacement(v: Value, configFilePath: Option<string>, paths: PathOps): (r: Result<string>)
    ensures !v.Str? ==> r == Err(Fail(ReplacementTypeError))
    ensures v.Str? && IsBlank(v.s) ==> r == Err(Fail(ReplacementEmptyError))
    ensures r.Ok? ==> v.Str? && !IsBlank(v.s)
    ensures v.Str? && !IsBlank(v.s) ==> var t := Trim(v.s);
      && (paths.isAbsolute(t) ==> r == Ok(ToPosixPath(t)))
      && (!paths.isAbsolute(t) && StartsWith(t, ".") ==>
            if configFilePath.None? || configFilePath.value == "" then r == Err(Fail(RelativeWithoutConfigError))
            else r == Ok(ToPosixPath(paths.resolve(paths.dirname(configFilePath.value), t))))
      && (!paths.isAbsolute(t) && !StartsWith(t, ".") ==> r == Ok(t))
  {
    if !v.Str? then Err(Fail(ReplacementTypeError))
    else if IsBlank(v.s) then Err(Fail(ReplacementEmptyError))
    else
      var t := Trim(v.s);
      if paths.isAbsolute(t) then Ok(ToPosixPath(t))
      else if StartsWith(t, ".") then
        if configFilePath.None? || configFilePath.value == "" then Err(Fail(RelativeWithoutConfigError))
        else Ok(ToPosixPath(paths.resolve(paths.dirname(configFilePath.value), t)))
      else Ok(t)
  }

  /** A package specifier used as a replacement is kept verbatim, config path or not. */
  lemma PackageReplacementKept(name: string, configFilePath: Option<string>, paths: PathOps)
    requires Trim(name) == name && name != [] && name[0] != '.' && !paths.isAbsolute(name)
    ensures NormalizeMockReplacement(Str(name), configFilePath, paths) == Ok(name)
  {
    assert !IsBlank(name);
  }

  // ---------------------------------------------------------------------
  // What the `use` functions do, and the selection they build
  // ---------------------------------------------------------------------

  datatype Mode = Development | Production

  /** An MSW request handler, known only by identity. */
  type Handler = nat

  /**
   * One thing a `use` function does through its context: `mock(specifier,
   * replacement)`, `msw.use(...handlers)`, or throwing (a rejected promise
   * included).
   */
  datatype Effect = Mock(specifier: Value, replacement: Value) | Msw(handlers: seq<Handler>) | Raise(error: Error)

  /** What the `use` function with the given identity does for a mode and a story, in order. */
  type Behaviour = (nat, Mode, Story) -> seq<Effect>

  /** `StoryRuleSelection`: the module mocks in `Map` insertion order, and the MSW handlers. */
  datatype Selection = Selection(moduleMocks: seq<Entry<string>>, mswHandlers: seq<Handler>)

  /** What one selection run is given besides the rules. */
  datatype Env = Env(mode: Mode, story: Story, configFilePath: Option<string>, paths: PathOps, behaviour: Behaviour, matcher: Matcher)

  const EmptySelection := Selection([], [])

  /** The error an effect raises, if any; a selection plays no part in it. */
  function EffectError(e: Effect, env: Env): Option<Error>
  {
    match e
    case Raise(err) => Some(err)
    case Msw(_) => None
    case Mock(spec, repl) =>
      match NormalizeMockSpecifier(spec)
      case Err(err) => Some(err)
      case Ok(_) =>
        match NormalizeMockReplacement(repl, env.configFilePath, env.paths)
        case Err(err) => Some(err)
        case Ok(_) => None
  }

  /** The mocked specifier of a well-formed `mock` call. */
  function MockTarget(e: Effect, env: Env): Option<string>
  {
    if e.Mock? && EffectError(e, env).None? then Some(NormalizeMockSpecifier(e.specifier).value) else None
  }

  /** The callbacks of the use context, applied to the selection under construction. */
  function ApplyEffect(sel: Selection, e: Effect, env: Env): (r: Result<Selection>)
    ensures r.Err? <==> EffectError(e, env).Some?
    ensures r.Err? ==> r.error == EffectError(e, env).value
  {
    match e
    case Raise(err) => Err(err)
    case Msw(hs) => Ok(sel.(mswHandlers := sel.mswHandlers + hs))
    case Mock(spec, repl) =>
      match NormalizeMockSpecifier(spec)
      case Err(err) => Err(err)
      case Ok(key) =>
        match NormalizeMockReplacement(repl, env.configFilePath, env.paths)
        case Err(err) => Err(err)
        case Ok(target) => Ok(sel.(moduleMocks := Assign(sel.moduleMocks, key, target)))
  }

  /** Effects applied in order; the first error ends the run. */
  function ApplyEffects(sel: Selection, effects: seq<Effect>, env: Env): Result<Selection>
    decreases |effects|
  {
    if effects == [] then Ok(sel)
    else
      match ApplyEffect(sel, effects[0], env)
      case Err(err) => Err(err)
      case Ok(next) => ApplyEffects(next, effects[1..], env)
  }

  /** Applying `a + b` is applying `a`, then `b` to its result. */
  lemma {:induction false} ApplyEffectsAppend(sel: Selection, a: seq<Effect>, b: seq<Effect>, env: Env)
    ensures ApplyEffects(sel, a + b, env) ==
      match ApplyEffects(sel, a, env)
      case Err(err) => Err(err)
      case Ok(mid) => ApplyEffects(mid, b, env)
    decreases |a|
  {
    if a == [] {
      assert a + b == b;
    } else {
      assert (a + b)[0] == a[0];
      assert (a + b)[1..] == a[1..] + b;
      match ApplyEffect(sel, a[0], env)
      case Err(_) =>
      case Ok(next) => ApplyEffectsAppend(next, a[1..], b, env);
    }
  }

  /** Every handler passed to `msw.use`, in call order. */
  function AllHandlers(effects: seq<Effect>): seq<Handler>
  {
    if effects == [] then []
    else (if effects[0].Msw? then effects[0].handlers else []) + AllHandlers(effects[1..])
  }

  /** A run fails exactly when some effect fails, and then with the first failure's error. */
  lemma ApplyEffectsFails(sel: Selection, effects: seq<Effect>, env: Env)
    ensures ApplyEffects(sel, effects, env).Err? <==> exists i :: 0 <= i < |effects| && EffectError(effects[i], env).Some?
    ensures ApplyEffects(sel, effects, env).Err? ==>
      exists i :: (0 <= i < |effects|
        && EffectError(effects[i], env) == Some(ApplyEffects(sel, effects, env).error)
        && forall j :: 0 <= j < i ==> EffectError(effects[j], env).None?)
  {
    ApplyEffectsFailsIff(sel, effects, env);
    ApplyEffectsFirstError(sel, effects, env);
  }

  /** A run fails exactly when some effect fails. */
  lemma {:induction false} ApplyEffectsFailsIff(sel: Selection, effects: seq<Effect>, env: Env)
    ensures ApplyEffects(sel, effects, env).Err? <==> exists i :: 0 <= i < |effects| && EffectError(effects[i], env).Some?
    decreases |effects|
  {
    if effects != [] {
      match ApplyEffect(sel, effects[0], env)
      case Err(_) =>
      case Ok(next) =>
        ApplyEffectsFailsIff(next, effects[1..], env);
        assert forall i :: 0 < i < |effects| ==> effects[1..][i - 1] == effects[i];
    }
  }

  /** A failed run fails with the error of the first effect that fails. */
  lemma {:induction false} ApplyEffectsFirstError(sel: Selection, effects: seq<Effect>, env: Env)
    ensures ApplyEffects(sel, effects, env).Err? ==>
      exists i :: (0 <= i < |effects|
        && EffectError(effects[i], env) == Some(ApplyEffects(sel, effects, env).error)
        && forall j :: 0 <= j < i ==> EffectError(effects[j], env).None?)
    decreases |effects|
  {
    if effects != [] {
      match ApplyEffect(sel, effects[0], env)
      case Err(_) =>
      case Ok(next) =>
        ApplyEffectsFirstError(next, effects[1..], env);
        if ApplyEffects(sel, effects, env).Err? {
          var i :| 0 <= i < |effects[1..]| && EffectError(effects[1..][i], env) == Some(ApplyEffects(sel, effects, env).error)
            && forall j :: 0 <= j < i ==> EffectError(effects[1..][j], env).None?;
          assert forall j :: 0 < j < i + 1 ==> effects[j] == effects[1..][j - 1];
        }
    }
  }

  /** A successful run appends every handler, in order, to those already selected. */
  lemma {:induction false} ApplyEffectsHandlers(sel: Selection, effects: seq<Effect>, env: Env)
    ensures ApplyEffects(sel, effects, env).Ok? ==>
      ApplyEffects(sel, effects, env).value.mswHandlers == sel.mswHandlers + AllHandlers(effects)
    decreases |effects|
  {
    if effects != [] {
      match ApplyEffect(sel, effects[0], env)
      case Err(_) =>
      case Ok(next) =>
        ApplyEffectsHandlers(next, effects[1..], env);
        assert next.mswHandlers == sel.mswHandlers + (if effects[0].Msw? then effects[0].handlers else []);
    }
  }

  /** A successful run keeps mock specifiers unique and leaves unmocked specifiers as they were. */
  lemma {:induction false} ApplyEffectsOtherMocks(sel: Selection, effects: seq<Effect>, env: Env, key: string)
    requires ApplyEffects(sel, effects, env).Ok?
    ensures UniqueKeys(sel.moduleMocks) ==> UniqueKeys(ApplyEffects(sel, effects, env).value.moduleMocks)
    ensures (forall i :: 0 <= i < |effects| ==> MockTarget(effects[i], env) != Some(key)) ==>
      Lookup(ApplyEffects(sel, effects, env).value.moduleMocks, key) == Lookup(sel.moduleMocks, key)
    decreases |effects|
  {
    if effects != [] {
      var next := ApplyEffect(sel, effects[0], env).value;
      ApplyEffectsOtherMocks(next, effects[1..], env, key);
      assert forall i :: 0 < i < |effects| ==> effects[1..][i - 1] == effects[i];
    }
  }

  /** The last well-formed `mock` of a specifier decides its replacement. */
  lemma {:induction false} LastMockWins(sel: Selection, effects: seq<Effect>, env: Env, i: nat, key: string)
    requires ApplyEffects(sel, effects, env).Ok?
    requires i < |effects| && MockTarget(effects[i], env) == Some(key)
    requires forall j :: i < j < |effects| ==> MockTarget(effects[j], env) != Some(key)
    ensures Lookup(ApplyEffects(sel, effects, env).value.moduleMocks, key) ==
      Some(NormalizeMockReplacement(effects[i].replacement, env.configFilePath, env.paths).value)
    decreases |effects|
  {
    var next := ApplyEffect(sel, effects[0], env).value;
    assert forall j :: 0 < j < |effects| ==> effects[1..][j - 1] == effects[j];
    if i == 0 {
      ApplyEffectsOtherMocks(next, effects[1..], env, key);
    } else {
      LastMockWins(next, effects[1..], env, i - 1, key);
    }
  }

  const UseTypeError := "Each story rule \"use\" entry must be a function."

  /** `Array.isArray(rule.use) ? rule.use : [rule.use]`; a rule without `use` has the one entry `undefined`. */
  function RuleUses(rule: Value): seq<Value>
  {
    var u := Prop(rule, "use");
    if u.Arr? then u.items else [u]
  }

  /** One `use` entry: a function runs with the context, anything else throws. */
  function UseEffect(u: Value, env: Env): seq<Effect>
  {
    if u.Func? then env.behaviour(u.id, env.mode, env.story) else [Raise(Fail(UseTypeError))]
  }

  function UseEffects(uses: seq<Value>, env: Env): seq<Effect>
  {
    if uses == [] then [] else UseEffect(uses[0], env) + UseEffects(uses[1..], env)
  }

  /** A rule: a match error is thrown, a rule that does not match does nothing, a matching rule runs its uses. */
  function RuleEffect(rule: Value, env: Env): seq<Effect>
  {
    match RuleApplies(rule, env.story, env.matcher)
    case Err(err) => [Raise(err)]
    case Ok(hit) => if hit then UseEffects(RuleUses(rule), env) else []
  }

  function RuleEffects(rules: seq<Value>, env: Env): seq<Effect>
  {
    if rules == [] then [] else RuleEffect(rules[0], env) + RuleEffects(rules[1..], env)
  }

  /** `selectStoryRules`: every rule in order, from an empty selection. */
  function Selected(configModule: Value, configFilePath: Option<string>, mode: Mode, storyInput: Value,
                    behaviour: Behaviour, paths: PathOps, matcher: Matcher): Result<Selection>
  {
    match NormalizeRulesConfig(configModule)
    case Err(err) => Err(err)
    case Ok(rules) =>
      var env := Env(mode, NormalizeStory(storyInput), configFilePath, paths, behaviour, matcher);
      ApplyEffects(EmptySelection, RuleEffects(rules, env), env)
  }

  lemma UseEffectsStep(uses: seq<Value>, j: nat, env: Env)
    requires j < |uses|
    ensures UseEffects(uses[j..], env) == UseEffect(uses[j], env) + UseEffects(uses[j + 1..], env)
  {
    assert uses[j..][1..] == uses[j + 1..];
  }

  lemma RuleEffectsStep(rules: seq<Value>, i: nat, env: Env)
    requires i < |rules|
    ensures RuleEffects(rules[i..], env) == RuleEffect(rules[i], env) + RuleEffects(rules[i + 1..], env)
  {
    assert rules[i..][1..] == rules[i + 1..];
  }

  /** The `mock` and `msw.use` callbacks of one `use` call, run against the selection. */
  method RunUse(sel: Selection, effects: seq<Effect>, env: Env) returns (r: Result<Selection>)
    ensures r == ApplyEffects(sel, effects, env)
  {
    var mocks := sel.moduleMocks;
    var handlers := sel.mswHandlers;
    var k := 0;
    while k < |effects|
      invariant 0 <= k <= |effects|
      invariant ApplyEffects(Selection(mocks, handlers), effects[k..], env) == ApplyEffects(sel, effects, env)
    {
      assert effects[k..][1..] == effects[k + 1..];
      match effects[k] {
        case Raise(err) =>
          return Err(err);
        case Msw(hs) =>
          handlers := handlers + hs;
        case Mock(spec, repl) =>
          var key := NormalizeMockSpecifier(spec);
          if key.Err? {
            return Err(key.error);
          }
          var target := NormalizeMockReplacement(repl, env.configFilePath, env.paths);
          if target.Err? {
            return Err(target.error);
          }
          mocks := Assign(mocks, key.value, target.value);
      }
      k := k + 1;
    }
    return Ok(Selection(mocks, handlers));
  }

  /** The `use` entries of one matching rule, called in order; a non-function entry throws. */
  method RunUses(sel: Selection, uses: seq<Value>, env: Env) returns (r: Result<Selection>)
    ensures r == ApplyEffects(sel, UseEffects(uses, env), env)
  {
    var current := sel;
    var j := 0;
    while j < |uses|
      invariant 0 <= j <= |uses|
      invariant ApplyEffects(current, UseEffects(uses[j..], env), env) == ApplyEffects(sel, UseEffects(uses, env), env)
    {
      UseEffectsStep(uses, j, env);
      ApplyEffectsAppend(current, UseEffect(uses[j], env), UseEffects(uses[j + 1..], env), env);
      if !uses[j].Func? {
        return Err(Fail(UseTypeError));
      }
      var out := RunUse(current, env.behaviour(uses[j].id, env.mode, env.story), env);
      if out.Err? {
        return Err(out.error);
      }
      current := out.value;
      j := j + 1;
    }
    return Ok(current);
  }

  /** How one rule moves the selection on towards the final outcome. */
  lemma SelectStep(sel: Selection, rules: seq<Value>, i: nat, env: Env)
    requires i < |rules|
    ensures var goal := ApplyEffects(sel, RuleEffects(rules[i..], env), env);
      var rest := RuleEffects(rules[i + 1..], env);
      match RuleApplies(rules[i], env.story, env.matcher)
      case Err(err) => goal == Err(err)
      case Ok(hit) =>
        if !hit then goal == ApplyEffects(sel, rest, env)
        else
          match ApplyEffects(sel, UseEffects(RuleUses(rules[i]), env), env)
          case Err(err) => goal == Err(err)
          case Ok(next) => goal == ApplyEffects(next, rest, env)
  {
    RuleEffectsStep(rules, i, env);
    ApplyEffectsAppend(sel, RuleEffect(rules[i], env), RuleEffects(rules[i + 1..], env), env);
  }

  /**
   * The loop of `selectStoryRules`: for each rule that matches the story,
   * each of its `use` entries in order, collecting mocks and handlers into
   * one selection; the first error is thrown.
   */
  method RunRules(rules: seq<Value>, env: Env) returns (r: Result<Selection>)
    ensures r == ApplyEffects(EmptySelection, RuleEffects(rules, env), env)
  {
    ghost var goal := ApplyEffects(EmptySelection, RuleEffects(rules, env), env);
    var sel := EmptySelection;
    var i := 0;
    while i < |rules|
      invariant 0 <= i <= |rules|
      invariant ApplyEffects(sel, RuleEffects(rules[i..], env), env) == goal
    {
      SelectStep(sel, rules, i, env);
      var applies := RuleApplies(rules[i], env.story, env.matcher);
      if applies.Err? {
        return Err(applies.error);
      }
      if applies.value {
        var out := RunUses(sel, RuleUses(rules[i]), env);
        if out.Err? {
          return Err(out.error);
        }
        sel := out.value;
      }
      i := i + 1;
    }
    return Ok(sel);
  }

  /**
   * `selectStoryRules`: the configuration is normalised (or refused), the
   * story normalised, and the rules run against them from an empty
   * selection.
   */
  method SelectStoryRules(configModule: Value, configFilePath: Option<string>, mode: Mode, storyInput: Value,
                          behaviour: Behaviour, paths: PathOps, matcher: Matcher) returns (r: Result<Selection>)
    ensures r == Selected(configModule, configFilePath, mode, storyInput, behaviour, paths, matcher)
  {
    var config := NormalizeRulesConfig(configModule);
    if config.Err? {
      return Err(config.error);
    }
    var story := NormalizeStory(storyInput);
    var env := Env(mode, story, configFilePath, paths, behaviour, matcher);
    r := RunRules(config.value, env);
  }

  /** A configuration none of whose rules matches selects nothing. */
  lemma {:induction false} NoMatchingRuleSelectsNothing(rules: seq<Value>, env: Env, sel: Selection)
    requires forall i :: 0 <= i < |rules| ==> RuleApplies(rules[i], env.story, env.matcher) == Ok(false)
    ensures ApplyEffects(sel, RuleEffects(rules, env), env) == Ok(sel)
  {
    if rules != [] {
      assert forall i :: 0 < i < |rules| ==> rules[1..][i - 1] == rules[i];
      NoMatchingRuleSelectsNothing(rules[1..], env, sel);
      assert RuleEffect(rules[0], env) == [];
      assert RuleEffects(rules, env) == RuleEffects(rules[1..], env);
    }
  }

  /** The selected handlers are those passed to `msw.use` by the matching rules, in order. */
  lemma SelectedHandlers(configModule: Value, configFilePath: Option<string>, mode: Mode, storyInput: Value,
                         behaviour: Behaviour, paths: PathOps, matcher: Matcher, rules: seq<Value>)
    requires NormalizeRulesConfig(configModule) == Ok(rules)
    ensures var r := Selected(configModule, configFilePath, mode, storyInput, behaviour, paths, matcher);
      var env := Env(mode, NormalizeStory(storyInput), configFilePath, paths, behaviour, matcher);
      r.Ok? ==> r.value.mswHandlers == AllHandlers(RuleEffects(rules, env)) && UniqueKeys(r.value.moduleMocks)
  {
    var env := Env(mode, NormalizeStory(storyInput), configFilePath, paths, behaviour, matcher);
    var effects := RuleEffects(rules, env);
    ApplyEffectsHandlers(EmptySelection, effects, env);
    if ApplyEffects(EmptySelection, effects, env).Ok? {
      ApplyEffectsOtherMocks(EmptySelection, effects, env, "");
    }
  }
}
