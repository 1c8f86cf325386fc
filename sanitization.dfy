/**
 * Server-side sanitisation of render payloads (packages/@astrostory/core/src/sanitization.ts):
 * dot-path patterns select the string leaves of `args` and `slots` that go
 * through the HTML sanitiser; option resolution validates the pattern lists
 * and rejects function-valued sanitiser options; a small serialiser writes
 * the options as source text for the server build.
 *
 * The HTML sanitiser itself is a parameter: `clean` stands for
 * `value => sanitizeHtml(value, options)` with the resolved options.
 */
module Sanitization {
  import opened Wrappers
  import opened Text
  import opened Records
  import opened Values

  // ---------------------------------------------------------------------
  // Dot-path patterns
  // ---------------------------------------------------------------------

  /**
   * `matchSegments`: `*` matches exactly one segment, `**` any number of
   * segments (zero included), any other segment only itself.
   */
  function MatchSegments(path: seq<string>, pattern: seq<string>): bool
    decreases |pattern|, |path| + 2
  {
    if pattern == [] then path == []
    else if pattern[0] == "**" then
      if |pattern| == 1 then true else MatchFromSplit(path, pattern[1..], 0)
    else if path == [] then false
    else if pattern[0] == "*" || pattern[0] == path[0] then MatchSegments(path[1..], pattern[1..])
    else false
  }

  /** The loop over split points after a `**`: some suffix `path[index..]`, `index` or later, matches `tail`. */
  function MatchFromSplit(path: seq<string>, tail: seq<string>, index: nat): bool
    decreases |tail| + 1, |path| + 1 - index
  {
    if index > |path| then false
    else MatchSegments(path[index..], tail) || MatchFromSplit(path, tail, index + 1)
  }

  lemma {:induction false} MatchFromSplitSome(path: seq<string>, tail: seq<string>, index: nat)
    ensures MatchFromSplit(path, tail, index) <==> exists j :: index <= j <= |path| && MatchSegments(path[j..], tail)
    decreases |path| + 1 - index
  {
    if index <= |path| {
      MatchFromSplitSome(path, tail, index + 1);
    }
  }

  /** An empty pattern matches exactly the empty path. */
  lemma MatchEmptyPattern(path: seq<string>)
    ensures MatchSegments(path, []) <==> path == []
  {
  }

  /** `*` consumes exactly one segment, whatever it is. */
  lemma MatchStar(path: seq<string>, tail: seq<string>)
    ensures MatchSegments(path, ["*"] + tail) <==> |path| >= 1 && MatchSegments(path[1..], tail)
  {
    assert (["*"] + tail)[1..] == tail;
  }

  /** `**` consumes any number of segments, zero included. */
  lemma MatchGlobstar(path: seq<string>, tail: seq<string>)
    ensures MatchSegments(path, ["**"] + tail) <==> exists j :: 0 <= j <= |path| && MatchSegments(path[j..], tail)
  {
    assert (["**"] + tail)[1..] == tail;
    if tail == [] {
      assert MatchSegments(path[|path|..], tail);
    } else {
      MatchFromSplitSome(path, tail, 0);
    }
  }

  /** A trailing `**` matches whatever remains. */
  lemma MatchTrailingGlobstar(path: seq<string>)
    ensures MatchSegments(path, ["**"])
  {
  }

  /** Any other segment matches only an equal path segment. */
  lemma MatchLiteral(path: seq<string>, seg: string, tail: seq<string>)
    requires seg != "*" && seg != "**"
    ensures MatchSegments(path, [seg] + tail) <==> |path| >= 1 && path[0] == seg && MatchSegments(path[1..], tail)
  {
    assert ([seg] + tail)[1..] == tail;
  }

  /** A pattern without wildcard segments matches only the identical path. */
  lemma {:induction false} MatchPlain(path: seq<string>, pattern: seq<string>)
    requires forall k :: 0 <= k < |pattern| ==> pattern[k] != "*" && pattern[k] != "**"
    ensures MatchSegments(path, pattern) <==> path == pattern
  {
    if pattern != [] && path != [] {
      MatchPlain(path[1..], pattern[1..]);
      if path[0] == pattern[0] && path[1..] == pattern[1..] {
        assert path == [path[0]] + path[1..];
        assert pattern == [pattern[0]] + pattern[1..];
      }
    }
  }

  /** `matchesPathPattern`: both sides split on ".". */
  predicate MatchesPathPattern(path: string, pattern: string)
  {
    MatchSegments(Split(path, '.'), Split(pattern, '.'))
  }

  /** `shouldSanitizePath`: some pattern matches the path. */
  predicate ShouldSanitize(path: string, patterns: seq<string>)
  {
    exists k :: 0 <= k < |patterns| && MatchesPathPattern(path, patterns[k])
  }

  /** The example of the test suite: `items.*.html` selects the `html` of every item... */
  lemma ItemsWildcardExample(index: string)
    requires index != "" && '.' !in index
    ensures MatchesPathPattern("items." + index + ".html", "items.*.html")
  {
    SplitThree("items", "*", "html");
    assert "items.*.html" == "items" + "." + "*" + "." + "html";
    SplitThree("items", index, "html");
    assert "items." + index + ".html" == "items" + "." + index + "." + "html";
    assert MatchSegments([index, "html"], ["*", "html"]) by {
      assert MatchSegments(["html"], ["html"]);
    }
  }

  /** ...and nothing else of the item. */
  lemma ItemsWildcardOtherKey(index: string)
    requires index != "" && '.' !in index
    ensures !MatchesPathPattern("items." + index + ".title", "items.*.html")
  {
    SplitThree("items", "*", "html");
    assert "items.*.html" == "items" + "." + "*" + "." + "html";
    SplitThree("items", index, "title");
    assert "items." + index + ".title" == "items" + "." + index + "." + "title";
    var path, pattern := ["items", index, "title"], ["items", "*", "html"];
    assert "title" != "html" by { assert "title"[0] != "html"[0]; }
    MatchLiteral(["title"], "html", []);
    MatchStar([index, "title"], ["html"]);
    assert [index, "title"][1..] == ["title"];
    MatchLiteral(path, "items", ["*", "html"]);
    assert path[1..] == [index, "title"];
  }

  lemma SplitThree(a: string, b: string, c: string)
    requires '.' !in a && '.' !in b && '.' !in c
    ensures Split(a + "." + b + "." + c, '.') == [a, b, c]
  {
    SplitNoSeparator(c, '.');
    SplitAtSeparator(b, '.', c);
    assert a + "." + b + "." + c == a + ['.'] + (b + ['.'] + c);
    SplitAtSeparator(a, '.', b + "." + c);
  }

  /** A catch-all `**` selects every path, e.g. every slot under the default slot patterns. */
  lemma CatchAllExample(path: string)
    ensures MatchesPathPattern(path, "**")
  {
    SplitNoSeparator("**", '.');
  }

  // ---------------------------------------------------------------------
  // Payload sanitisation
  // ---------------------------------------------------------------------

  /** The dot path of a child: `${currentPath}.${key}`. */
  function Child(path: string, key: string): string
  {
    path + "." + key
  }

  /** The path of a record key: `path.key` inside a value, the bare key at the top of a payload record. */
  function KeyPath(path: string, nested: bool, key: string): string
  {
    if nested then Child(path, key) else key
  }

  /** What `sanitizeValue` computes for a value at `path`. */
  function Sanitized(v: Value, path: string, patterns: seq<string>, clean: string -> string): Value
    decreases v, 1
  {
    match v
    case Str(s) => if ShouldSanitize(path, patterns) then Str(clean(s)) else v
    case Arr(items) => Arr(SanitizedItems(items, 0, path, patterns, clean))
    case Obj(fields) => Obj(SanitizedFields(fields, path, true, patterns, clean))
    case _ => v
  }

  /** Array items from index `start` on; item `k` gets the path `path.k`. */
  function SanitizedItems(items: seq<Value>, start: nat, path: string, patterns: seq<string>, clean: string -> string): (r: seq<Value>)
    decreases items, 0
    ensures |r| == |items|
  {
    if items == [] then []
    else
      var head := Sanitized(items[0], Child(path, NatToString(start)), patterns, clean);
      [head] + SanitizedItems(items[1..], start + 1, path, patterns, clean)
  }

  /**
   * Record entries. Nested records give each key the path `path.key`;
   * the payload's top-level records (`nested == false`) use the bare key.
   */
  function SanitizedFields(fields: seq<Field>, path: string, nested: bool, patterns: seq<string>, clean: string -> string): (r: seq<Field>)
    decreases fields, 0
    ensures |r| == |fields|
  {
    if fields == [] then []
    else
      var head := Entry(fields[0].key, Sanitized(fields[0].val, KeyPath(path, nested, fields[0].key), patterns, clean));
      [head] + SanitizedFields(fields[1..], path, nested, patterns, clean)
  }

  /**
   * `sanitizeValue`: a string leaf is cleaned when its path matches; arrays
   * and plain records are rebuilt child by child; anything else is returned
   * as it is.
   */
  method SanitizeValue(v: Value, path: string, patterns: seq<string>, clean: string -> string) returns (r: Value)
    decreases v, 1
    ensures r == Sanitized(v, path, patterns, clean)
  {
    match v {
      case Str(s) =>
        if ShouldSanitize(path, patterns) {
          r := Str(clean(s));
        } else {
          r := v;
        }
      case Arr(items) =>
        var out: seq<Value> := [];
        var i := 0;
        while i < |items|
          invariant 0 <= i <= |items|
          invariant out + SanitizedItems(items[i..], i, path, patterns, clean) == SanitizedItems(items, 0, path, patterns, clean)
        {
          assert items[i] in items;
          var item := SanitizeValue(items[i], Child(path, NatToString(i)), patterns, clean);
          assert items[i..][1..] == items[i + 1..];
          assert SanitizedItems(items[i..], i, path, patterns, clean)
            == [item] + SanitizedItems(items[i + 1..], i + 1, path, patterns, clean);
          out := out + [item];
          i := i + 1;
        }
        r := Arr(out);
      case Obj(fields) =>
        var out := SanitizeRecord(fields, path, true, patterns, clean);
        r := Obj(out);
      case _ =>
        r := v;
    }
  }

  /** `sanitizeRecord`, and the record branch of `sanitizeValue`: a fresh object filled key by key. */
  method SanitizeRecord(fields: seq<Field>, path: string, nested: bool, patterns: seq<string>, clean: string -> string) returns (r: seq<Field>)
    decreases fields, 2
    ensures r == SanitizedFields(fields, path, nested, patterns, clean)
  {
    r := [];
    var i := 0;
    while i < |fields|
      invariant 0 <= i <= |fields|
      invariant r + SanitizedFields(fields[i..], path, nested, patterns, clean) == SanitizedFields(fields, path, nested, patterns, clean)
    {
      assert fields[i] in fields;
      var value := SanitizeValue(fields[i].val, KeyPath(path, nested, fields[i].key), patterns, clean);
      SanitizedFieldsStep(fields, i, r, path, nested, patterns, clean);
      r := r + [Entry(fields[i].key, value)];
      i := i + 1;
    }
  }

  lemma SanitizedFieldsStep(fields: seq<Field>, i: nat, done: seq<Field>, path: string, nested: bool, patterns: seq<string>, clean: string -> string)
    requires i < |fields|
    requires done + SanitizedFields(fields[i..], path, nested, patterns, clean) == SanitizedFields(fields, path, nested, patterns, clean)
    ensures done + [Entry(fields[i].key, Sanitized(fields[i].val, KeyPath(path, nested, fields[i].key), patterns, clean))]
      + SanitizedFields(fields[i + 1..], path, nested, patterns, clean) == SanitizedFields(fields, path, nested, patterns, clean)
  {
    assert fields[i..][1..] == fields[i + 1..];
  }

  /** Two values with the same keys, the same array lengths and the same non-string leaves. */
  predicate SameShape(a: Value, b: Value)
    decreases a
  {
    match a
    case Str(_) => b.Str?
    case Arr(xs) => b.Arr? && |xs| == |b.items| && forall k :: 0 <= k < |xs| ==> SameShape(xs[k], b.items[k])
    case Obj(fs) =>
      b.Obj? && |fs| == |b.fields|
      && forall k :: 0 <= k < |fs| ==> fs[k].key == b.fields[k].key && SameShape(fs[k].val, b.fields[k].val)
    case _ => a == b
  }

  /** Sanitising keeps the shape: the same keys, the same array lengths, non-string leaves untouched. */
  lemma {:induction false} SanitizedSameShape(v: Value, path: string, patterns: seq<string>, clean: string -> string)
    ensures SameShape(v, Sanitized(v, path, patterns, clean))
    decreases v, 1
  {
    match v
    case Arr(items) =>
      forall k | 0 <= k < |items|
        ensures SameShape(items[k], SanitizedItems(items, 0, path, patterns, clean)[k])
      {
        SanitizedItemsAt(items, 0, path, patterns, clean, k);
        assert items[k] in items;
        SanitizedSameShape(items[k], Child(path, NatToString(k)), patterns, clean);
      }
    case Obj(fields) =>
      var r := SanitizedFields(fields, path, true, patterns, clean);
      forall k | 0 <= k < |fields|
        ensures fields[k].key == r[k].key && SameShape(fields[k].val, r[k].val)
      {
        SanitizedFieldsAt(fields, path, true, patterns, clean, k);
        assert fields[k] in fields;
        SanitizedSameShape(fields[k].val, Child(path, fields[k].key), patterns, clean);
      }
    case _ =>
  }

  lemma {:induction false} SanitizedItemsAt(items: seq<Value>, start: nat, path: string, patterns: seq<string>, clean: string -> string, k: nat)
    requires k < |items|
    ensures SanitizedItems(items, start, path, patterns, clean)[k]
      == Sanitized(items[k], Child(path, NatToString(start + k)), patterns, clean)
    decreases k
  {
    if k > 0 {
      SanitizedItemsAt(items[1..], start + 1, path, patterns, clean, k - 1);
    }
  }

  lemma {:induction false} SanitizedFieldsAt(fields: seq<Field>, path: string, nested: bool, patterns: seq<string>, clean: string -> string, k: nat)
    requires k < |fields|
    ensures |SanitizedFields(fields, path, nested, patterns, clean)| == |fields|
    ensures SanitizedFields(fields, path, nested, patterns, clean)[k]
      == Entry(fields[k].key, Sanitized(fields[k].val, KeyPath(path, nested, fields[k].key), patterns, clean))
    decreases k
  {
    if k > 0 {
      SanitizedFieldsAt(fields[1..], path, nested, patterns, clean, k - 1);
    }
  }

  /** One step down a payload: a record key or an array index. */
  datatype Step = Key(key: string) | Index(index: nat)

  /** The child reached by one step (`undefined` when there is none). */
  function ChildAt(v: Value, step: Step): Value
  {
    match step
    case Key(k) => if v.Obj? then Get(v.fields, k) else Undefined
    case Index(i) => if v.Arr? && i < |v.items| then v.items[i] else Undefined
  }

  function StepText(step: Step): string
  {
    match step
    case Key(k) => k
    case Index(i) => NatToString(i)
  }

  /** The value at the end of a list of steps. */
  function At(v: Value, steps: seq<Step>): Value
    decreases |steps|
  {
    if steps == [] then v else At(ChildAt(v, steps[0]), steps[1..])
  }

  /** The dot path `sanitizeValue` builds for the value reached from `path` by `steps`. */
  function PathAfter(path: string, steps: seq<Step>): string
    decreases |steps|
  {
    if steps == [] then path else PathAfter(Child(path, StepText(steps[0])), steps[1..])
  }

  lemma {:induction false} GetSanitizedFields(fields: seq<Field>, path: string, nested: bool, patterns: seq<string>, clean: string -> string, key: string)
    requires HasKey(fields, key)
    ensures Get(SanitizedFields(fields, path, nested, patterns, clean), key)
      == Sanitized(Get(fields, key), KeyPath(path, nested, key), patterns, clean)
  {
    if fields[0].key != key {
      GetSanitizedFields(fields[1..], path, nested, patterns, clean, key);
    }
  }

  lemma {:induction false} SanitizedChildAt(v: Value, path: string, patterns: seq<string>, clean: string -> string, step: Step)
    requires ChildAt(v, step) != Undefined
    ensures ChildAt(Sanitized(v, path, patterns, clean), step)
      == Sanitized(ChildAt(v, step), Child(path, StepText(step)), patterns, clean)
  {
    match step
    case Key(k) =>
      GetSanitizedFields(v.fields, path, true, patterns, clean, k);
    case Index(i) =>
      SanitizedItemsAt(v.items, 0, path, patterns, clean, i);
  }

  /**
   * Every string leaf reached by a list of steps is replaced by its cleaned
   * text exactly when its dot path matches a pattern, and kept otherwise;
   * every other leaf is kept as it is.
   */
  lemma {:induction false} SanitizedLeaf(v: Value, path: string, patterns: seq<string>, clean: string -> string, steps: seq<Step>)
    requires At(v, steps) != Undefined
    ensures var leaf := At(v, steps);
      var after := At(Sanitized(v, path, patterns, clean), steps);
      (leaf.Str? ==> after == Str(if ShouldSanitize(PathAfter(path, steps), patterns) then clean(leaf.s) else leaf.s))
      && (!leaf.Str? && !leaf.Arr? && !leaf.Obj? ==> after == leaf)
    decreases |steps|
  {
    if steps != [] {
      if ChildAt(v, steps[0]) == Undefined {
        assert At(v, steps) == At(Undefined, steps[1..]);
        UndefinedAt(steps[1..]);
        assert false;
      }
      SanitizedChildAt(v, path, patterns, clean, steps[0]);
      SanitizedLeaf(ChildAt(v, steps[0]), Child(path, StepText(steps[0])), patterns, clean, steps[1..]);
    }
  }

  lemma {:induction false} UndefinedAt(steps: seq<Step>)
    ensures At(Undefined, steps) == Undefined
    decreases |steps|
  {
    if steps != [] {
      UndefinedAt(steps[1..]);
    }
  }

  /** With an idempotent sanitiser, sanitising twice is sanitising once. */
  lemma {:induction false} SanitizedIdempotent(v: Value, path: string, patterns: seq<string>, clean: string -> string)
    requires forall s :: clean(clean(s)) == clean(s)
    ensures Sanitized(Sanitized(v, path, patterns, clean), path, patterns, clean) == Sanitized(v, path, patterns, clean)
    decreases v, 1
  {
    match v
    case Arr(items) => SanitizedItemsIdempotent(items, 0, path, patterns, clean);
    case Obj(fields) => SanitizedFieldsIdempotent(fields, path, true, patterns, clean);
    case _ =>
  }

  lemma {:induction false} SanitizedItemsIdempotent(items: seq<Value>, start: nat, path: string, patterns: seq<string>, clean: string -> string)
    requires forall s :: clean(clean(s)) == clean(s)
    ensures SanitizedItems(SanitizedItems(items, start, path, patterns, clean), start, path, patterns, clean)
      == SanitizedItems(items, start, path, patterns, clean)
    decreases items, 0
  {
    if items != [] {
      assert items[0] in items;
      SanitizedIdempotent(items[0], Child(path, NatToString(start)), patterns, clean);
      SanitizedItemsIdempotent(items[1..], start + 1, path, patterns, clean);
    }
  }

  lemma {:induction false} SanitizedFieldsIdempotent(fields: seq<Field>, path: string, nested: bool, patterns: seq<string>, clean: string -> string)
    requires forall s :: clean(clean(s)) == clean(s)
    ensures SanitizedFields(SanitizedFields(fields, path, nested, patterns, clean), path, nested, patterns, clean)
      == SanitizedFields(fields, path, nested, patterns, clean)
    decreases fields, 0
  {
    if fields != [] {
      assert fields[0] in fields;
      SanitizedIdempotent(fields[0].val, KeyPath(path, nested, fields[0].key), patterns, clean);
      SanitizedFieldsIdempotent(fields[1..], path, nested, patterns, clean);
    }
  }

  /** With no pattern, nothing is selected and a value comes back unchanged. */
  lemma {:induction false} SanitizedNoPatterns(v: Value, path: string, clean: string -> string)
    ensures Sanitized(v, path, [], clean) == v
    decreases v, 1
  {
    match v
    case Arr(items) => SanitizedItemsNoPatterns(items, 0, path, clean);
    case Obj(fields) => SanitizedFieldsNoPatterns(fields, path, true, clean);
    case _ =>
  }

  lemma {:induction false} SanitizedItemsNoPatterns(items: seq<Value>, start: nat, path: string, clean: string -> string)
    ensures SanitizedItems(items, start, path, [], clean) == items
    decreases items, 0
  {
    if items != [] {
      assert items[0] in items;
      SanitizedNoPatterns(items[0], Child(path, NatToString(start)), clean);
      SanitizedItemsNoPatterns(items[1..], start + 1, path, clean);
    }
  }

  lemma {:induction false} SanitizedFieldsNoPatterns(fields: seq<Field>, path: string, nested: bool, clean: string -> string)
    ensures SanitizedFields(fields, path, nested, [], clean) == fields
    decreases fields, 0
  {
    if fields != [] {
      assert fields[0] in fields;
      SanitizedNoPatterns(fields[0].val, KeyPath(path, nested, fields[0].key), clean);
      SanitizedFieldsNoPatterns(fields[1..], path, nested, clean);
    }
  }
}
