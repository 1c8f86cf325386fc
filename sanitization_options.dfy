/**
 * The framework's sanitisation options (packages/@astrostory/core/src/sanitization.ts):
 * resolving them (defaults, pattern-list validation, the rejection of
 * function-valued sanitiser options, the merge with the default sanitiser
 * options), applying them to a render payload, and writing them out as
 * source text.
 *
 * Option values are arbitrary JavaScript values; plain records carry an
 * identity `ref`, since both `assertNoFunctions` and `serializeValue`
 * remember the records they have visited. A record reached twice appears
 * twice in the tree with the same `ref`.
 */
module SanitizationOptions {
  import opened Wrappers
  import opened Text
  import opened Records
  import opened Values
  import opened Sanitization

  datatype Opt =
    | OUndefined
    | ONull
    | OBool(b: bool)
    | ONum(n: int)
    | OStr(s: string)
    | ORegExp(source: string, flags: string)
    | OFunc(id: nat)
    | OArr(items: seq<Opt>)
    | ORecord(ref: nat, entries: seq<Entry<Opt>>)
      /** Any other object (a Date, a Map, a class instance) or a symbol or bigint, with its `typeof`. */
    | OOther(typeName: string)

  predicate OptTruthy(v: Opt)
  {
    match v
    case OUndefined => false
    case ONull => false
    case OBool(b) => b
    case ONum(n) => n != 0
    case OStr(s) => s != ""
    case _ => true
  }

  predicate Nullish(v: Opt)
  {
    v.OUndefined? || v.ONull?
  }

  /** `v.key` on an options value: only plain records have own properties here. */
  function OGet(v: Opt, key: string): (r: Opt)
    ensures !v.ORecord? ==> r == OUndefined
    ensures v.ORecord? && !HasKey(v.entries, key) ==> r == OUndefined
  {
    match v
    case ORecord(_, entries) => Lookup(entries, key).UnwrapOr(OUndefined)
    case _ => OUndefined
  }

  /** Every record in the tree has distinct keys, as every JavaScript object does. */
  predicate WellKeyed(v: Opt)
    decreases v
  {
    match v
    case OArr(items) => forall k :: 0 <= k < |items| ==> WellKeyed(items[k])
    case ORecord(_, entries) => UniqueKeys(entries) && forall k :: 0 <= k < |entries| ==> WellKeyed(entries[k].val)
    case _ => true
  }

  // ---------------------------------------------------------------------
  // Pattern lists
  // ---------------------------------------------------------------------

  /** An acceptable pattern entry: a string that is not blank. */
  predicate GoodPattern(v: Opt)
  {
    v.OStr? && !IsBlank(v.s)
  }

  /** The error thrown for the first unacceptable entry, at index `index`. */
  function EntryError(path: string, index: nat, v: Opt): Error
  {
    var at := path + "[" + NatToString(index) + "]";
    if !v.OStr? then Fail(at + " must be a string.") else Fail(at + " cannot be an empty string.")
  }

  /** The trimmed entries of a pattern list (entries that are not strings count as ""). */
  function TrimmedPatterns(items: seq<Opt>): (r: seq<string>)
    ensures |r| == |items|
  {
    if items == [] then []
    else
      var last := items[|items| - 1];
      TrimmedPatterns(items[..|items| - 1]) + [if last.OStr? then Trim(last.s) else ""]
  }

  lemma {:induction false} TrimmedPatternsAt(items: seq<Opt>, k: nat)
    requires k < |items| && items[k].OStr?
    ensures TrimmedPatterns(items)[k] == Trim(items[k].s)
  {
    if k < |items| - 1 {
      var init := items[..|items| - 1];
      TrimmedPatternsAt(init, k);
    }
  }

  /** A pattern-list option that `normalizePathList` accepts. */
  predicate PatternListOk(v: Opt)
  {
    v.OUndefined? || (v.OArr? && forall k :: 0 <= k < |v.items| ==> GoodPattern(v.items[k]))
  }

  /** The trimmed entries of a pattern-list option, without repetitions, in first-occurrence order. */
  function PatternList(v: Opt): seq<string>
  {
    if v.OArr? then Dedup(TrimmedPatterns(v.items)) else []
  }

  /** The error `normalizePathList` reports for a rejected option under `path`. */
  ghost predicate PatternListError(v: Opt, path: string, e: Error)
  {
    && !PatternListOk(v)
    && (!v.OArr? ==> e == Fail(path + " must be an array of dot-path patterns."))
    && (v.OArr? ==> FirstBadEntryError(v.items, path, e))
  }

  /** `e` is the error for the first entry that is not a good pattern. */
  ghost predicate FirstBadEntryError(items: seq<Opt>, path: string, e: Error)
  {
    exists i :: 0 <= i < |items| && !GoodPattern(items[i])
      && (forall k :: 0 <= k < i ==> GoodPattern(items[k]))
      && e == EntryError(path, i, items[i])
  }

  /**
   * `normalizePathList`: `undefined` gives no patterns; anything but an
   * array is an error; otherwise the entries are collected.
   */
  method NormalizePathList(value: Opt, path: string) returns (r: Result<seq<string>>)
    ensures value.OUndefined? ==> r == Ok([])
    ensures r.Ok? <==> PatternListOk(value)
    ensures r.Ok? ==> r.value == PatternList(value)
    ensures r.Err? ==> PatternListError(value, path, r.error)
  {
    if value.OUndefined? {
      return Ok([]);
    }
    if !value.OArr? {
      return Err(Fail(path + " must be an array of dot-path patterns."));
    }
    r := CollectPatterns(value.items, path);
  }

  /**
   * The `forEach` of `normalizePathList`: the entries are checked in
   * order, and the first one that is not a string, or is blank after
   * trimming, is an error naming its index. A list that passes gives its
   * trimmed entries without repetitions, in first-occurrence order.
   */
  method CollectPatterns(items: seq<Opt>, path: string) returns (r: Result<seq<string>>)
    ensures r.Ok? <==> forall k :: 0 <= k < |items| ==> GoodPattern(items[k])
    ensures r.Ok? ==> r.value == Dedup(TrimmedPatterns(items))
    ensures r.Err? ==> FirstBadEntryError(items, path, r.error)
  {
    var unique: seq<string> := [];
    var i := 0;
    while i < |items|
      invariant 0 <= i <= |items|
      invariant forall k :: 0 <= k < i ==> GoodPattern(items[k])
      invariant unique == CollectedPrefix(items, i)
    {
      if !GoodPattern(items[i]) {
        return Err(EntryError(path, i, items[i]));
      }
      var normalized := Trim(items[i].s);
      if normalized !in unique {
        unique := unique + [normalized];
      }
      i := i + 1;
    }
    CollectedPrefixDedup(items, |items|);
    assert items[..|items|] == items;
    return Ok(unique);
  }

  /** The trimmed first `n` entries without repetitions, as the loop collects them one entry at a time. */
  function CollectedPrefix(items: seq<Opt>, n: nat): seq<string>
    requires n <= |items|
  {
    if n == 0 then []
    else
      var d := CollectedPrefix(items, n - 1);
      var t := if items[n - 1].OStr? then Trim(items[n - 1].s) else "";
      if t in d then d else d + [t]
  }

  /** Collecting one entry at a time de-duplicates the trimmed prefix. */
  lemma {:induction false} CollectedPrefixDedup(items: seq<Opt>, n: nat)
    requires n <= |items|
    ensures CollectedPrefix(items, n) == Dedup(TrimmedPatterns(items[..n]))
  {
    if n > 0 {
      CollectedPrefixDedup(items, n - 1);
      var init := TrimmedPatterns(items[..n - 1]);
      var t := if items[n - 1].OStr? then Trim(items[n - 1].s) else "";
      assert items[..n][..n - 1] == items[..n - 1];
      var xs := TrimmedPatterns(items[..n]);
      assert xs == init + [t];
      assert xs[..|xs| - 1] == init && xs[|xs| - 1] == t;
    }
  }

  /** Every normalised pattern is trimmed and non-blank, none appears twice, and each comes from an entry. */
  lemma NormalizedPatterns(items: seq<Opt>)
    requires forall k :: 0 <= k < |items| ==> GoodPattern(items[k])
    ensures forall p :: p in Dedup(TrimmedPatterns(items)) ==> p != "" && Trim(p) == p
    ensures forall p :: p in Dedup(TrimmedPatterns(items)) <==> exists k :: 0 <= k < |items| && items[k].OStr? && p == Trim(items[k].s)
    ensures forall i, j :: 0 <= i < j < |Dedup(TrimmedPatterns(items))| ==> Dedup(TrimmedPatterns(items))[i] != Dedup(TrimmedPatterns(items))[j]
  {
    var t := TrimmedPatterns(items);
    DedupSameElements(t);
    DedupDistinct(t);
    forall k | 0 <= k < |items|
      ensures t[k] == Trim(items[k].s) && t[k] != "" && Trim(t[k]) == t[k]
    {
      TrimmedPatternsAt(items, k);
      TrimIdempotent(items[k].s);
    }
    forall p | p in t
      ensures exists k :: 0 <= k < |items| && items[k].OStr? && p == Trim(items[k].s)
    {
      var k :| 0 <= k < |t| && t[k] == p;
      assert p == Trim(items[k].s);
    }
  }

  // ---------------------------------------------------------------------
  // Records visited, functions inside
  // ---------------------------------------------------------------------

  /** A function value somewhere in the tree. */
  predicate HasFunction(v: Opt)
    decreases v, 1
  {
    match v
    case OFunc(_) => true
    case OArr(items) => ItemsHaveFunction(items, |items|)
    case ORecord(_, entries) => EntriesHaveFunction(entries, |entries|)
    case _ => false
  }

  /** A function inside one of the first `n` items. */
  predicate ItemsHaveFunction(items: seq<Opt>, n: nat)
    requires n <= |items|
    decreases items, n
  {
    n > 0 && (ItemsHaveFunction(items, n - 1) || HasFunction(items[n - 1]))
  }

  /** A function inside the value of one of the first `n` entries. */
  predicate EntriesHaveFunction(entries: seq<Entry<Opt>>, n: nat)
    requires n <= |entries|
    decreases entries, n
  {
    n > 0 && (EntriesHaveFunction(entries, n - 1) || HasFunction(entries[n - 1].val))
  }

  lemma {:induction false} ItemsHaveFunctionGrow(items: seq<Opt>, i: nat, n: nat)
    requires i <= n <= |items|
    ensures ItemsHaveFunction(items, i) ==> ItemsHaveFunction(items, n)
    ensures i < n && HasFunction(items[i]) ==> ItemsHaveFunction(items, n)
    decreases n
  {
    if i < n {
      ItemsHaveFunctionGrow(items, i, n - 1);
    }
  }

  lemma {:induction false} EntriesHaveFunctionGrow(entries: seq<Entry<Opt>>, i: nat, n: nat)
    requires i <= n <= |entries|
    ensures EntriesHaveFunction(entries, i) ==> EntriesHaveFunction(entries, n)
    ensures i < n && HasFunction(entries[i].val) ==> EntriesHaveFunction(entries, n)
    decreases n
  {
    if i < n {
      EntriesHaveFunctionGrow(entries, i, n - 1);
    }
  }

  /** The identities of the records in the tree. */
  function RefsOf(v: Opt): set<nat>
    decreases v, 1
  {
    match v
    case OArr(items) => ItemRefs(items, |items|)
    case ORecord(ref, entries) => {ref} + EntryRefs(entries, |entries|)
    case _ => {}
  }

  /** The records inside the first `n` items. */
  function ItemRefs(items: seq<Opt>, n: nat): set<nat>
    requires n <= |items|
    decreases items, n
  {
    if n == 0 then {} else ItemRefs(items, n - 1) + RefsOf(items[n - 1])
  }

  /** The records inside the values of the first `n` entries. */
  function EntryRefs(entries: seq<Entry<Opt>>, n: nat): set<nat>
    requires n <= |entries|
    decreases entries, n
  {
    if n == 0 then {} else EntryRefs(entries, n - 1) + RefsOf(entries[n - 1].val)
  }

  /** No record is reached twice: the tree is really a tree. */
  predicate Distinct(v: Opt)
    decreases v, 1
  {
    match v
    case OArr(items) => DistinctItems(items, |items|)
    case ORecord(ref, entries) => ref !in EntryRefs(entries, |entries|) && DistinctEntries(entries, |entries|)
    case _ => true
  }

  predicate DistinctItems(items: seq<Opt>, n: nat)
    requires n <= |items|
    decreases items, n
  {
    n == 0 || (DistinctItems(items, n - 1) && Distinct(items[n - 1]) && ItemRefs(items, n - 1) !! RefsOf(items[n - 1]))
  }

  predicate DistinctEntries(entries: seq<Entry<Opt>>, n: nat)
    requires n <= |entries|
    decreases entries, n
  {
    n == 0 || (DistinctEntries(entries, n - 1) && Distinct(entries[n - 1].val) && EntryRefs(entries, n - 1) !! RefsOf(entries[n - 1].val))
  }

  /** The records of an item are among those of the list. */
  lemma {:induction false} ItemRefsCover(items: seq<Opt>, i: nat, n: nat)
    requires i < n <= |items|
    ensures RefsOf(items[i]) <= ItemRefs(items, n) && ItemRefs(items, i) <= ItemRefs(items, n)
    decreases n
  {
    if i < n - 1 {
      ItemRefsCover(items, i, n - 1);
    }
  }

  lemma {:induction false} EntryRefsCover(entries: seq<Entry<Opt>>, i: nat, n: nat)
    requires i < n <= |entries|
    ensures RefsOf(entries[i].val) <= EntryRefs(entries, n) && EntryRefs(entries, i) <= EntryRefs(entries, n)
    decreases n
  {
    if i < n - 1 {
      EntryRefsCover(entries, i, n - 1);
    }
  }

  lemma {:induction false} DistinctItemsPrefix(items: seq<Opt>, i: nat, n: nat)
    requires i <= n <= |items| && DistinctItems(items, n)
    ensures DistinctItems(items, i)
    decreases n
  {
    if i < n {
      DistinctItemsPrefix(items, i, n - 1);
    }
  }

  lemma {:induction false} DistinctEntriesPrefix(entries: seq<Entry<Opt>>, i: nat, n: nat)
    requires i <= n <= |entries| && DistinctEntries(entries, n)
    ensures DistinctEntries(entries, i)
    decreases n
  {
    if i < n {
      DistinctEntriesPrefix(entries, i, n - 1);
    }
  }

  /**
   * What a walk over item `i` of an array may assume when the array is a
   * tree whose records are all unvisited: the item is a tree, and none of
   * its records was visited, neither before the walk nor by the items
   * before it.
   */
  lemma ItemFresh(items: seq<Opt>, i: nat, seen: set<nat>)
    requires i < |items|
    ensures Distinct(OArr(items)) && RefsOf(OArr(items)) !! seen ==>
      Distinct(items[i]) && RefsOf(items[i]) !! seen + ItemRefs(items, i)
  {
    if Distinct(OArr(items)) && RefsOf(OArr(items)) !! seen {
      DistinctItemsPrefix(items, i + 1, |items|);
      ItemRefsCover(items, i, |items|);
    }
  }

  /** The same for the value of entry `i` of a record not yet visited. */
  lemma EntryFresh(ref: nat, entries: seq<Entry<Opt>>, i: nat, seen: set<nat>)
    requires i < |entries|
    ensures Distinct(ORecord(ref, entries)) && RefsOf(ORecord(ref, entries)) !! seen ==>
      Distinct(entries[i].val) && RefsOf(entries[i].val) !! seen + {ref} + EntryRefs(entries, i)
  {
    if Distinct(ORecord(ref, entries)) && RefsOf(ORecord(ref, entries)) !! seen {
      DistinctEntriesPrefix(entries, i + 1, |entries|);
      EntryRefsCover(entries, i, |entries|);
    }
  }

  /** The message `assertNoFunctions` throws ends with this sentence. */
  const FunctionsRejected := " cannot contain functions. Function-valued sanitization hooks are not supported in framework options."

  /** An error thrown by `assertNoFunctions` for a function found under `path`. */
  predicate IsFunctionError(e: Error, path: string)
  {
    e.name == "Error" && StartsWith(e.message, path) && EndsWith(e.message, FunctionsRejected)
  }

  /**
   * `assertNoFunctionsRecursive`: a function anywhere in the tree is an
   * error naming its path (`path[i]` for array items, `path.key` for record
   * entries). A record already in `seen` is skipped; any other record is
   * added to it before its entries are walked.
   *
   * An error always points at a real function; without one nothing is
   * thrown; and when the tree's records are all distinct and unvisited,
   * an error is thrown exactly when there is a function, and a walk that
   * passes has visited every record.
   */
  method AssertNoFunctionsRecursive(v: Opt, path: string, seen: set<nat>) returns (thrown: Option<Error>, seenOut: set<nat>)
    decreases v, 2
    ensures seen <= seenOut <= seen + RefsOf(v)
    ensures thrown.Some? ==> HasFunction(v) && IsFunctionError(thrown.value, path)
    ensures !HasFunction(v) ==> thrown.None?
    ensures Distinct(v) && RefsOf(v) !! seen ==>
      (thrown.None? <==> !HasFunction(v)) && (thrown.None? ==> seenOut == seen + RefsOf(v))
  {
    match v {
      case OFunc(_) =>
        thrown, seenOut := Some(Fail(path + FunctionsRejected)), seen;
      case OArr(items) =>
        thrown, seenOut := AssertNoFunctionsInItems(items, path, seen);
      case ORecord(ref, entries) =>
        if ref in seen {
          thrown, seenOut := None, seen;
        } else {
          thrown, seenOut := AssertNoFunctionsInEntries(ref, entries, path, seen);
        }
      case _ =>
        thrown, seenOut := None, seen;
    }
  }

  /** The array branch of `assertNoFunctionsRecursive`: the items in order, each under `path[i]`. */
  method AssertNoFunctionsInItems(items: seq<Opt>, path: string, seen: set<nat>) returns (thrown: Option<Error>, seenOut: set<nat>)
    decreases items, 1
    ensures seen <= seenOut <= seen + RefsOf(OArr(items))
    ensures thrown.Some? ==> HasFunction(OArr(items)) && IsFunctionError(thrown.value, path)
    ensures !HasFunction(OArr(items)) ==> thrown.None?
    ensures Distinct(OArr(items)) && RefsOf(OArr(items)) !! seen ==>
      (thrown.None? <==> !HasFunction(OArr(items))) && (thrown.None? ==> seenOut == seen + RefsOf(OArr(items)))
  {
    ghost var unvisited := Distinct(OArr(items)) && RefsOf(OArr(items)) !! seen;
    seenOut := seen;
    var i := 0;
    while i < |items|
      invariant 0 <= i <= |items|
      invariant ItemsWalked(items, i, seen, seenOut, unvisited)
    {
      assert items[i] in items;
      var itemPath := path + ("[" + NatToString(i) + "]");
      var e, next := AssertNoFunctionsRecursive(items[i], itemPath, seenOut);
      if e.Some? {
        ItemThrew(items, i, path, seen, seenOut, next, e.value);
        return e, next;
      }
      ItemWalked(items, i, seen, seenOut, next, unvisited);
      seenOut := next;
      i := i + 1;
    }
    return None, seenOut;
  }

  /** The loop invariant of the array walk after `i` items. */
  ghost predicate ItemsWalked(items: seq<Opt>, i: nat, seen: set<nat>, cur: set<nat>, unvisited: bool)
    requires i <= |items|
  {
    seen <= cur <= seen + ItemRefs(items, i)
    && (unvisited ==> cur == seen + ItemRefs(items, i) && !ItemsHaveFunction(items, i))
  }

  /** A function found in item `i` is a function of the array, and its error names a path under the array's. */
  lemma ItemThrew(items: seq<Opt>, i: nat, path: string, seen: set<nat>, cur: set<nat>, next: set<nat>, e: Error)
    requires i < |items| && seen <= cur <= seen + ItemRefs(items, i) && cur <= next <= cur + RefsOf(items[i])
    requires HasFunction(items[i]) && IsFunctionError(e, path + ("[" + NatToString(i) + "]"))
    ensures seen <= next <= seen + RefsOf(OArr(items))
    ensures HasFunction(OArr(items)) && IsFunctionError(e, path)
  {
    ItemRefsCover(items, i, |items|);
    ItemsHaveFunctionGrow(items, i, |items|);
    StartsWithLonger(e.message, path, "[" + NatToString(i) + "]");
  }

  lemma ItemWalked(items: seq<Opt>, i: nat, seen: set<nat>, cur: set<nat>, next: set<nat>, unvisited: bool)
    requires i < |items| && ItemsWalked(items, i, seen, cur, unvisited)
    requires unvisited == (Distinct(OArr(items)) && RefsOf(OArr(items)) !! seen)
    requires cur <= next <= cur + RefsOf(items[i])
    requires Distinct(items[i]) && RefsOf(items[i]) !! cur ==> !HasFunction(items[i]) && next == cur + RefsOf(items[i])
    ensures ItemsWalked(items, i + 1, seen, next, unvisited)
  {
    ItemFresh(items, i, seen);
  }

  /** The record branch for a record not yet visited: it is marked, then its entries are walked, each under `path.key`. */
  method AssertNoFunctionsInEntries(ref: nat, entries: seq<Entry<Opt>>, path: string, seen: set<nat>) returns (thrown: Option<Error>, seenOut: set<nat>)
    requires ref !in seen
    decreases entries, 1
    ensures seen <= seenOut <= seen + RefsOf(ORecord(ref, entries))
    ensures thrown.Some? ==> HasFunction(ORecord(ref, entries)) && IsFunctionError(thrown.value, path)
    ensures !HasFunction(ORecord(ref, entries)) ==> thrown.None?
    ensures Distinct(ORecord(ref, entries)) && RefsOf(ORecord(ref, entries)) !! seen ==>
      (thrown.None? <==> !HasFunction(ORecord(ref, entries))) && (thrown.None? ==> seenOut == seen + RefsOf(ORecord(ref, entries)))
  {
    ghost var unvisited := Distinct(ORecord(ref, entries)) && RefsOf(ORecord(ref, entries)) !! seen;
    seenOut := seen + {ref};
    var i := 0;
    while i < |entries|
      invariant 0 <= i <= |entries|
      invariant EntriesWalked(entries, i, seen + {ref}, seenOut, unvisited)
    {
      assert entries[i] in entries;
      var entryPath := path + ("." + entries[i].key);
      var e, next := AssertNoFunctionsRecursive(entries[i].val, entryPath, seenOut);
      if e.Some? {
        EntryThrew(ref, entries, i, path, seen, seenOut, next, e.value);
        return e, next;
      }
      EntryWalked(ref, entries, i, seen, seenOut, next, unvisited);
      seenOut := next;
      i := i + 1;
    }
    return None, seenOut;
  }

  /** The loop invariant of the record walk after `i` entries, `base` holding the record itself. */
  ghost predicate EntriesWalked(entries: seq<Entry<Opt>>, i: nat, base: set<nat>, cur: set<nat>, unvisited: bool)
    requires i <= |entries|
  {
    base <= cur <= base + EntryRefs(entries, i)
    && (unvisited ==> cur == base + EntryRefs(entries, i) && !EntriesHaveFunction(entries, i))
  }

  /** A function found in the value of entry `i` is a function of the record. */
  lemma EntryThrew(ref: nat, entries: seq<Entry<Opt>>, i: nat, path: string, seen: set<nat>, cur: set<nat>, next: set<nat>, e: Error)
    requires i < |entries| && seen + {ref} <= cur <= seen + {ref} + EntryRefs(entries, i) && cur <= next <= cur + RefsOf(entries[i].val)
    requires HasFunction(entries[i].val) && IsFunctionError(e, path + ("." + entries[i].key))
    ensures seen <= next <= seen + RefsOf(ORecord(ref, entries))
    ensures HasFunction(ORecord(ref, entries)) && IsFunctionError(e, path)
  {
    EntryRefsCover(entries, i, |entries|);
    EntriesHaveFunctionGrow(entries, i, |entries|);
    StartsWithLonger(e.message, path, "." + entries[i].key);
  }

  lemma EntryWalked(ref: nat, entries: seq<Entry<Opt>>, i: nat, seen: set<nat>, cur: set<nat>, next: set<nat>, unvisited: bool)
    requires i < |entries| && EntriesWalked(entries, i, seen + {ref}, cur, unvisited)
    requires unvisited == (Distinct(ORecord(ref, entries)) && RefsOf(ORecord(ref, entries)) !! seen)
    requires cur <= next <= cur + RefsOf(entries[i].val)
    requires Distinct(entries[i].val) && RefsOf(entries[i].val) !! cur ==> !HasFunction(entries[i].val) && next == cur + RefsOf(entries[i].val)
    ensures EntriesWalked(entries, i + 1, seen + {ref}, next, unvisited)
  {
    EntryFresh(ref, entries, i, seen);
  }

  /** `assertNoFunctions`: the walk above, starting with no record visited. */
  method AssertNoFunctions(value: Opt, path: string) returns (thrown: Option<Error>)
    ensures thrown.Some? ==> HasFunction(value) && IsFunctionError(thrown.value, path)
    ensures !HasFunction(value) ==> thrown.None?
    ensures Distinct(value) ==> (thrown.None? <==> !HasFunction(value))
  {
    var seenOut;
    thrown, seenOut := AssertNoFunctionsRecursive(value, path, {});
  }

  // ---------------------------------------------------------------------
  // Writing options out as source text
  // ---------------------------------------------------------------------

  /** Values `serializeValue` can write: no function and no object other than arrays, regular expressions and plain records. */
  predicate Serializable(v: Opt)
    decreases v, 1
  {
    match v
    case OFunc(_) => false
    case OOther(_) => false
    case OArr(items) => ItemsSerializable(items, |items|)
    case ORecord(_, entries) => EntriesSerializable(entries, |entries|)
    case _ => true
  }

  predicate ItemsSerializable(items: seq<Opt>, n: nat)
    requires n <= |items|
    decreases items, n
  {
    n == 0 || (ItemsSerializable(items, n - 1) && Serializable(items[n - 1]))
  }

  predicate EntriesSerializable(entries: seq<Entry<Opt>>, n: nat)
    requires n <= |entries|
    decreases entries, n
  {
    n == 0 || (EntriesSerializable(entries, n - 1) && Serializable(entries[n - 1].val))
  }

  lemma {:induction false} ItemsSerializableAt(items: seq<Opt>, i: nat, n: nat)
    requires i < n <= |items| && ItemsSerializable(items, n)
    ensures Serializable(items[i])
    decreases n
  {
    if i < n - 1 {
      ItemsSerializableAt(items, i, n - 1);
    }
  }

  lemma {:induction false} EntriesSerializableAt(entries: seq<Entry<Opt>>, i: nat, n: nat)
    requires i < n <= |entries| && EntriesSerializable(entries, n)
    ensures Serializable(entries[i].val)
    decreases n
  {
    if i < n - 1 {
      EntriesSerializableAt(entries, i, n - 1);
    }
  }

  /**
   * The source text of a value: `null` and `undefined` literally, strings,
   * numbers and booleans as JSON, a regular expression as `/source/flags`,
   * arrays as `[a, b]`, records as `{ "key": value, ... }` without the
   * entries whose value is `undefined`.
   */
  function Rendered(v: Opt): string
    decreases v, 1
  {
    match v
    case ONull => "null"
    case OUndefined => "undefined"
    case OStr(s) => JsonQuote(s)
    case ONum(n) => IntToString(n)
    case OBool(b) => if b then "true" else "false"
    case ORegExp(source, flags) => "/" + source + "/" + flags
    case OArr(items) => "[" + Join(RenderedItems(items, |items|), ", ") + "]"
    case ORecord(_, entries) => "{ " + Join(RenderedEntries(entries, |entries|), ", ") + " }"
    case _ => ""
  }

  /** The texts of the first `n` items. */
  function RenderedItems(items: seq<Opt>, n: nat): (r: seq<string>)
    requires n <= |items|
    decreases items, n
    ensures |r| == n
  {
    if n == 0 then [] else RenderedItems(items, n - 1) + [Rendered(items[n - 1])]
  }

  /** The `"key": value` texts of the first `n` entries whose value is not `undefined`. */
  function RenderedEntries(entries: seq<Entry<Opt>>, n: nat): seq<string>
    requires n <= |entries|
    decreases entries, n
  {
    if n == 0 then []
    else if entries[n - 1].val.OUndefined? then RenderedEntries(entries, n - 1)
    else RenderedEntries(entries, n - 1) + [RenderedEntry(entries[n - 1])]
  }

  function RenderedEntry(e: Entry<Opt>): string
  {
    JsonQuote(e.key) + ": " + Rendered(e.val)
  }

  const Unsupported := ". Only plain objects, arrays, primitives, and regular expressions are supported."

  /** The error for a value reached a second time. */
  function CircularError(path: string): Error
  {
    Fail(path + " contains a circular reference.")
  }

  /** The error for a value of a kind `serializeValue` does not write. */
  function UnsupportedError(path: string, typeName: string): Error
  {
    Fail(path + " contains an unsupported value of type " + typeName + Unsupported)
  }

  /** `typeof v` for the values `serializeValue` rejects. */
  function TypeOf(v: Opt): string
  {
    match v
    case OFunc(_) => "function"
    case OOther(t) => t
    case _ => "object"
  }

  predicate IsCircularError(e: Error, path: string)
  {
    e.name == "Error" && StartsWith(e.message, path) && EndsWith(e.message, " contains a circular reference.")
  }

  predicate IsUnsupportedError(e: Error, path: string)
  {
    e.name == "Error" && StartsWith(e.message, path) && EndsWith(e.message, Unsupported)
  }

  /** What the result of writing a value under `path` promises, given the records visited before. */
  ghost predicate Serialized(v: Opt, path: string, seen: set<nat>, r: Result<string>, seenOut: set<nat>)
  {
    && seen <= seenOut
    && (r.Ok? <==> Serializable(v) && Distinct(v) && RefsOf(v) !! seen)
    && (r.Ok? ==> r.value == Rendered(v) && seenOut == seen + RefsOf(v))
    && (r.Err? ==> IsCircularError(r.error, path) || IsUnsupportedError(r.error, path))
    && (r.Err? && Serializable(v) ==> IsCircularError(r.error, path))
    && (r.Err? && Distinct(v) && RefsOf(v) !! seen ==> IsUnsupportedError(r.error, path))
  }

  /**
   * `serializeValue`: writes a value as source text. A plain record reached
   * a second time (in a cycle or not) is an error, and so is a value of any
   * kind not listed in `Rendered`. When the records are all distinct and not
   * visited before, and nothing unsupported occurs, the text is `Rendered(v)`.
   */
  method SerializeValue(v: Opt, path: string, seen: set<nat>) returns (r: Result<string>, seenOut: set<nat>)
    decreases v, 2
    ensures Serialized(v, path, seen, r, seenOut)
  {
    match v {
      case ONull => r, seenOut := Ok("null"), seen;
      case OUndefined => r, seenOut := Ok("undefined"), seen;
      case OStr(s) => r, seenOut := Ok(JsonQuote(s)), seen;
      case ONum(n) => r, seenOut := Ok(IntToString(n)), seen;
      case OBool(b) => r, seenOut := Ok(if b then "true" else "false"), seen;
      case ORegExp(source, flags) => r, seenOut := Ok("/" + source + "/" + flags), seen;
      case OArr(items) =>
        r, seenOut := SerializeItems(items, path, seen);
      case ORecord(ref, entries) =>
        if ref in seen {
          r, seenOut := Err(CircularError(path)), seen;
        } else {
          r, seenOut := SerializeEntries(ref, entries, path, seen);
        }
      case _ =>
        r, seenOut := Err(UnsupportedError(path, TypeOf(v))), seen;
    }
  }

  /** The array branch: the items written in order under `path[i]` and joined with ", ". */
  method SerializeItems(items: seq<Opt>, path: string, seen: set<nat>) returns (r: Result<string>, seenOut: set<nat>)
    decreases items, 1
    ensures Serialized(OArr(items), path, seen, r, seenOut)
  {
    var parts: seq<string> := [];
    seenOut := seen;
    var i := 0;
    while i < |items|
      invariant 0 <= i <= |items|
      invariant ItemsSerialized(items, i, seen, seenOut, parts)
    {
      assert items[i] in items;
      var itemPath := path + ("[" + NatToString(i) + "]");
      var text, next := SerializeValue(items[i], itemPath, seenOut);
      if text.Err? {
        ItemSerializeFailed(items, i, path, seen, seenOut, next, text.error);
        return Err(text.error), next;
      }
      ItemSerialized(items, i, seen, seenOut, next, parts, text.value);
      parts := parts + [text.value];
      seenOut := next;
      i := i + 1;
    }
    return Ok("[" + Join(parts, ", ") + "]"), seenOut;
  }

  /** The loop invariant of the array branch after `i` items written. */
  ghost predicate ItemsSerialized(items: seq<Opt>, i: nat, seen: set<nat>, cur: set<nat>, parts: seq<string>)
    requires i <= |items|
  {
    && ItemsSerializable(items, i) && DistinctItems(items, i) && ItemRefs(items, i) !! seen
    && cur == seen + ItemRefs(items, i)
    && parts == RenderedItems(items, i)
  }

  lemma ItemSerialized(items: seq<Opt>, i: nat, seen: set<nat>, cur: set<nat>, next: set<nat>, parts: seq<string>, text: string)
    requires i < |items| && ItemsSerialized(items, i, seen, cur, parts)
    requires Serializable(items[i]) && Distinct(items[i]) && RefsOf(items[i]) !! cur
    requires text == Rendered(items[i]) && next == cur + RefsOf(items[i])
    ensures ItemsSerialized(items, i + 1, seen, next, parts + [text])
  {
  }

  lemma ItemSerializeFailed(items: seq<Opt>, i: nat, path: string, seen: set<nat>, cur: set<nat>, next: set<nat>, e: Error)
    requires i < |items| && ItemsSerializable(items, i) && DistinctItems(items, i) && ItemRefs(items, i) !! seen
    requires cur == seen + ItemRefs(items, i)
    requires Serialized(items[i], path + ("[" + NatToString(i) + "]"), cur, Err(e), next)
    ensures Serialized(OArr(items), path, seen, Err(e), next)
  {
    var sub := "[" + NatToString(i) + "]";
    StartsWithLonger(e.message, path, sub);
    ItemFresh(items, i, seen);
    if Serializable(OArr(items)) {
      ItemsSerializableAt(items, i, |items|);
    }
  }

  /** The record branch for a record not yet visited: it is marked, then its defined entries are written as `"key": value`. */
  method SerializeEntries(ref: nat, entries: seq<Entry<Opt>>, path: string, seen: set<nat>) returns (r: Result<string>, seenOut: set<nat>)
    requires ref !in seen
    decreases entries, 1
    ensures Serialized(ORecord(ref, entries), path, seen, r, seenOut)
  {
    var parts: seq<string> := [];
    seenOut := seen + {ref};
    var i := 0;
    while i < |entries|
      invariant 0 <= i <= |entries|
      invariant EntriesSerialized(ref, entries, i, seen, seenOut, parts)
    {
      assert entries[i] in entries;
      if entries[i].val.OUndefined? {
        EntrySkipped(ref, entries, i, seen, seenOut, parts);
      } else {
        var entryPath := path + ("." + entries[i].key);
        var text, next := SerializeValue(entries[i].val, entryPath, seenOut);
        if text.Err? {
          EntrySerializeFailed(ref, entries, i, path, seen, seenOut, next, text.error);
          return Err(text.error), next;
        }
        EntrySerialized(ref, entries, i, seen, seenOut, next, parts, text.value);
        parts := parts + [JsonQuote(entries[i].key) + ": " + text.value];
        seenOut := next;
      }
      i := i + 1;
    }
    return Ok("{ " + Join(parts, ", ") + " }"), seenOut;
  }

  /** The loop invariant of the record branch after `i` entries. */
  ghost predicate EntriesSerialized(ref: nat, entries: seq<Entry<Opt>>, i: nat, seen: set<nat>, cur: set<nat>, parts: seq<string>)
    requires i <= |entries|
  {
    && ref !in seen
    && EntriesSerializable(entries, i) && DistinctEntries(entries, i) && EntryRefs(entries, i) !! seen
    && ref !in EntryRefs(entries, i)
    && cur == seen + {ref} + EntryRefs(entries, i)
    && parts == RenderedEntries(entries, i)
  }

  lemma EntrySkipped(ref: nat, entries: seq<Entry<Opt>>, i: nat, seen: set<nat>, cur: set<nat>, parts: seq<string>)
    requires i < |entries| && EntriesSerialized(ref, entries, i, seen, cur, parts) && entries[i].val.OUndefined?
    ensures EntriesSerialized(ref, entries, i + 1, seen, cur, parts)
  {
    assert RefsOf(entries[i].val) == {} && Distinct(entries[i].val) && Serializable(entries[i].val);
  }

  lemma EntrySerialized(ref: nat, entries: seq<Entry<Opt>>, i: nat, seen: set<nat>, cur: set<nat>, next: set<nat>, parts: seq<string>, text: string)
    requires i < |entries| && EntriesSerialized(ref, entries, i, seen, cur, parts) && !entries[i].val.OUndefined?
    requires Serializable(entries[i].val) && Distinct(entries[i].val) && RefsOf(entries[i].val) !! cur
    requires text == Rendered(entries[i].val) && next == cur + RefsOf(entries[i].val)
    ensures EntriesSerialized(ref, entries, i + 1, seen, next, parts + [JsonQuote(entries[i].key) + ": " + text])
  {
  }

  lemma EntrySerializeFailed(ref: nat, entries: seq<Entry<Opt>>, i: nat, path: string, seen: set<nat>, cur: set<nat>, next: set<nat>, e: Error)
    requires i < |entries| && ref !in seen
    requires EntriesSerializable(entries, i) && DistinctEntries(entries, i) && EntryRefs(entries, i) !! seen
    requires ref !in EntryRefs(entries, i) && cur == seen + {ref} + EntryRefs(entries, i)
    requires Serialized(entries[i].val, path + ("." + entries[i].key), cur, Err(e), next)
    ensures Serialized(ORecord(ref, entries), path, seen, Err(e), next)
  {
    StartsWithLonger(e.message, path, "." + entries[i].key);
    EntryFresh(ref, entries, i, seen);
    if Serializable(ORecord(ref, entries)) {
      EntriesSerializableAt(entries, i, |entries|);
    }
  }

  /** The text of a record shows every entry whose value is defined. */
  lemma RenderedEntryShown(ref: nat, entries: seq<Entry<Opt>>, i: nat)
    requires i < |entries| && !entries[i].val.OUndefined?
    ensures Contains(Rendered(ORecord(ref, entries)), RenderedEntry(entries[i]))
  {
    var k := RenderedEntryIndex(entries, i, |entries|);
    var parts := RenderedEntries(entries, |entries|);
    JoinHasPart(parts, ", ", k);
    ContainsInfix("{ ", Join(parts, ", "), " }");
    ContainsTrans(Rendered(ORecord(ref, entries)), Join(parts, ", "), RenderedEntry(entries[i]));
  }

  lemma {:induction false} RenderedEntryIndex(entries: seq<Entry<Opt>>, i: nat, n: nat) returns (k: nat)
    requires i < n <= |entries| && !entries[i].val.OUndefined?
    ensures k < |RenderedEntries(entries, n)| && RenderedEntries(entries, n)[k] == RenderedEntry(entries[i])
    decreases n
  {
    if i == n - 1 {
      k := |RenderedEntries(entries, n - 1)|;
    } else {
      k := RenderedEntryIndex(entries, i, n - 1);
    }
  }

  /** The text of an array shows every item. */
  lemma RenderedItemShown(items: seq<Opt>, i: nat)
    requires i < |items|
    ensures Contains(Rendered(OArr(items)), Rendered(items[i]))
  {
    var parts := RenderedItems(items, |items|);
    RenderedItemsAt(items, i, |items|);
    JoinHasPart(parts, ", ", i);
    ContainsInfix("[", Join(parts, ", "), "]");
    ContainsTrans(Rendered(OArr(items)), Join(parts, ", "), Rendered(items[i]));
  }

  lemma {:induction false} RenderedItemsAt(items: seq<Opt>, i: nat, n: nat)
    requires i < n <= |items|
    ensures RenderedItems(items, n)[i] == Rendered(items[i])
    decreases n
  {
    if i < n - 1 {
      RenderedItemsAt(items, i, n - 1);
    }
  }

  /**
   * The shape of the example of the test suite: a regular expression
   * nested in `sanitizeHtml.allowedStyles['*'].color` is written out as its
   * own literal text `/source/flags`.
   */
  lemma RegExpOptionWritten(source: string, flags: string, keys: seq<string>, refs: seq<nat>)
    requires |keys| == 4 && |refs| == 4
    ensures var re := ORegExp(source, flags);
      var color := ORecord(refs[3], [Entry(keys[3], OArr([re]))]);
      var styles := ORecord(refs[2], [Entry(keys[2], color)]);
      var html := ORecord(refs[1], [Entry(keys[1], styles)]);
      var options := ORecord(refs[0], [Entry(keys[0], html)]);
      Contains(Rendered(options), "/" + source + "/" + flags)
  {
    var re := ORegExp(source, flags);
    var color := ORecord(refs[3], [Entry(keys[3], OArr([re]))]);
    var styles := ORecord(refs[2], [Entry(keys[2], color)]);
    var html := ORecord(refs[1], [Entry(keys[1], styles)]);
    var options := ORecord(refs[0], [Entry(keys[0], html)]);
    RenderedItemShown([re], 0);
    EntryValueShown(refs[3], color.entries, 0, Rendered(re));
    EntryValueShown(refs[2], styles.entries, 0, Rendered(re));
    EntryValueShown(refs[1], html.entries, 0, Rendered(re));
    EntryValueShown(refs[0], options.entries, 0, Rendered(re));
  }

  /** What the text of a defined entry's value contains, the text of the record contains. */
  lemma EntryValueShown(ref: nat, entries: seq<Entry<Opt>>, i: nat, t: string)
    requires i < |entries| && !entries[i].val.OUndefined? && Contains(Rendered(entries[i].val), t)
    ensures Contains(Rendered(ORecord(ref, entries)), t)
  {
    RenderedEntryShown(ref, entries, i);
    var e := entries[i];
    ContainsInfix(JsonQuote(e.key) + ": ", Rendered(e.val), "");
    assert RenderedEntry(e) == JsonQuote(e.key) + ": " + Rendered(e.val) + "";
    ContainsTrans(RenderedEntry(e), Rendered(e.val), t);
    ContainsTrans(Rendered(ORecord(ref, entries)), RenderedEntry(e), t);
  }

  // ---------------------------------------------------------------------
  // Default sanitiser options and their merge with the user's
  // ---------------------------------------------------------------------

  /** A list of strings as an options value. */
  function Strings(xs: seq<string>): (r: Opt)
    ensures r.OArr? && |r.items| == |xs|
  {
    OArr(seq(|xs|, k requires 0 <= k < |xs| => OStr(xs[k])))
  }

  const AllowedTags: seq<string> := [
    "a", "abbr", "b", "blockquote", "br", "caption", "cite", "code", "col", "colgroup",
    "dd", "details", "dfn", "div", "dl", "dt", "em", "figcaption", "figure",
    "h1", "h2", "h3", "h4", "h5", "h6", "hr", "i", "img", "kbd", "li", "mark",
    "ol", "p", "pre", "q", "rp", "rt", "ruby", "s", "samp", "small", "span",
    "strong", "sub", "summary", "sup", "table", "tbody", "td", "tfoot", "th",
    "thead", "time", "tr", "u", "ul", "var", "wbr"]

  const DefaultAllowedAttributes: seq<Entry<Opt>> := [
    Entry("*", Strings(["aria-describedby", "aria-hidden", "aria-label", "aria-labelledby", "class", "id", "lang", "role", "title"])),
    Entry("a", Strings(["href", "name", "target", "rel"])),
    Entry("img", Strings(["src", "srcset", "alt", "title", "width", "height", "loading", "decoding"])),
    Entry("td", Strings(["colspan", "rowspan"])),
    Entry("th", Strings(["colspan", "rowspan", "scope"])),
    Entry("time", Strings(["datetime"]))]

  /** `DEFAULT_SANITIZE_HTML_OPTIONS`, entry by entry. */
  const DefaultEntries: seq<Entry<Opt>> := [
    Entry("allowedTags", Strings(AllowedTags)),
    Entry("allowedAttributes", ORecord(0, DefaultAllowedAttributes)),
    Entry("allowedSchemes", Strings(["http", "https", "mailto", "tel", "data"])),
    Entry("allowedSchemesByTag", ORecord(0, [
      Entry("a", Strings(["http", "https", "mailto", "tel"])),
      Entry("img", Strings(["http", "https", "data"]))])),
    Entry("allowedSchemesAppliedToAttributes", Strings(["href", "src", "cite", "srcset"])),
    Entry("allowProtocolRelative", OBool(false)),
    Entry("disallowedTagsMode", OStr("discard")),
    Entry("enforceHtmlBoundary", OBool(true)),
    Entry("parseStyleAttributes", OBool(false))]

  /** The own enumerable properties object spread copies; only plain records are modelled as having any. */
  function OwnEntries(v: Opt): seq<Entry<Opt>>
  {
    if v.ORecord? then v.entries else []
  }

  /** One of the nested merges: when both the default and the user value under `key` are plain records, the two are spread together. */
  function MergeNested(defaults: seq<Entry<Opt>>, merged: seq<Entry<Opt>>, user: Opt, key: string): seq<Entry<Opt>>
    requires WellKeyed(user)
  {
    var d := Lookup(defaults, key).UnwrapOr(OUndefined);
    var u := OGet(user, key);
    if d.ORecord? && u.ORecord? then
      WellKeyedGet(user, key);
      Assign(merged, key, ORecord(0, Spread(d.entries, u.entries)))
    else merged
  }

  /**
   * The body of `mergeSanitizeHtmlOptions` over given defaults: the user's
   * options spread over the defaults, with `allowedAttributes`,
   * `allowedClasses` and `allowedStyles` merged one level deeper.
   */
  function MergeOptions(defaults: seq<Entry<Opt>>, user: Opt): Opt
    requires WellKeyed(user)
  {
    assert UniqueKeys(OwnEntries(user));
    var merged := Spread(defaults, OwnEntries(user));
    var merged := MergeNested(defaults, merged, user, "allowedAttributes");
    var merged := MergeNested(defaults, merged, user, "allowedClasses");
    var merged := MergeNested(defaults, merged, user, "allowedStyles");
    ORecord(0, merged)
  }

  /** `mergeSanitizeHtmlOptions`: the merge over `DEFAULT_SANITIZE_HTML_OPTIONS`. */
  function MergeSanitizeHtmlOptions(user: Opt): Opt
    requires WellKeyed(user)
  {
    MergeOptions(DefaultEntries, user)
  }

  /** A value read from a record whose keys are distinct has distinct keys too. */
  lemma WellKeyedGet(v: Opt, key: string)
    requires WellKeyed(v)
    ensures WellKeyed(OGet(v, key))
  {
    if v.ORecord? && HasKey(v.entries, key) {
      LookupIsEntry(v.entries, key);
    }
  }

  lemma {:induction false} LookupIsEntry(entries: seq<Entry<Opt>>, key: string)
    requires HasKey(entries, key)
    ensures exists k :: 0 <= k < |entries| && entries[k].val == Lookup(entries, key).value
  {
    if entries[0].key != key {
      LookupIsEntry(entries[1..], key);
      var k :| 0 <= k < |entries[1..]| && entries[1..][k].val == Lookup(entries[1..], key).value;
      assert entries[k + 1].val == Lookup(entries, key).value;
    } else {
      assert entries[0].val == Lookup(entries, key).value;
    }
  }

  /** The default for an option, `undefined` when the defaults do not set it. */
  function DefaultOption(key: string): Opt
  {
    Lookup(DefaultEntries, key).UnwrapOr(OUndefined)
  }

  /** The defaults set neither `allowedClasses` nor `allowedStyles`, so their merges never happen. */
  lemma DefaultsLackClassesAndStyles()
    ensures !HasKey(DefaultEntries, "allowedClasses") && !HasKey(DefaultEntries, "allowedStyles")
  {
    var keys := Keys(DefaultEntries);
    forall k | 0 <= k < |keys|
      ensures keys[k] != "allowedClasses" && keys[k] != "allowedStyles"
    {
      assert keys[k] == DefaultEntries[k].key;
    }
  }

  lemma DefaultAttributesOption()
    ensures DefaultOption("allowedAttributes") == ORecord(0, DefaultAllowedAttributes)
  {
    var key := "allowedAttributes";
    assert DefaultEntries[0].key[7] != key[7];
    assert Lookup(DefaultEntries, key) == Lookup(DefaultEntries[1..], key);
    assert DefaultEntries[1..][0] == Entry(key, ORecord(0, DefaultAllowedAttributes));
    assert Lookup(DefaultEntries[1..], key) == Some(ORecord(0, DefaultAllowedAttributes));
  }

  /** Over defaults without `allowedClasses` and `allowedStyles`, only the `allowedAttributes` merge can happen. */
  lemma MergeShape(defaults: seq<Entry<Opt>>, user: Opt)
    requires WellKeyed(user) && !HasKey(defaults, "allowedClasses") && !HasKey(defaults, "allowedStyles")
    ensures MergeOptions(defaults, user) == ORecord(0, MergeNested(defaults, Spread(defaults, OwnEntries(user)), user, "allowedAttributes"))
  {
  }

  /** Without user options the sanitiser gets exactly the defaults. */
  lemma MergeWithoutUserOptions()
    ensures MergeSanitizeHtmlOptions(OUndefined) == ORecord(0, DefaultEntries)
  {
    assert OwnEntries(OUndefined) == [];
  }

  /**
   * Every option other than `allowedAttributes` is the user's when the
   * user sets it, the default otherwise: the defaults lack `allowedClasses`
   * and `allowedStyles`, so those two are never merged.
   */
  lemma MergedOption(user: Opt, key: string)
    requires WellKeyed(user) && key != "allowedAttributes"
    ensures OGet(MergeSanitizeHtmlOptions(user), key)
      == if HasKey(OwnEntries(user), key) then OGet(user, key) else DefaultOption(key)
  {
    DefaultsLackClassesAndStyles();
    MergeShape(DefaultEntries, user);
  }

  /**
   * `allowedAttributes`: when the user gives a plain record, a tag's list
   * is the user's when the user lists the tag, the default's otherwise;
   * any other user value replaces the default; without one the default stays.
   */
  lemma MergedAllowedAttributes(user: Opt, tag: string)
    requires WellKeyed(user)
    ensures var attrs := OGet(MergeSanitizeHtmlOptions(user), "allowedAttributes");
      var mine := OGet(user, "allowedAttributes");
      if mine.ORecord? then
        OGet(attrs, tag) == if HasKey(mine.entries, tag) then OGet(mine, tag) else Lookup(DefaultAllowedAttributes, tag).UnwrapOr(OUndefined)
      else attrs == if HasKey(OwnEntries(user), "allowedAttributes") then mine else ORecord(0, DefaultAllowedAttributes)
  {
    DefaultsLackClassesAndStyles();
    DefaultAttributesOption();
    NestedMerge(DefaultEntries, user, "allowedAttributes", DefaultAllowedAttributes, tag);
  }

  /** The nested merge under `key`, over defaults that hold the record `nested` there. */
  lemma NestedMerge(defaults: seq<Entry<Opt>>, user: Opt, key: string, nested: seq<Entry<Opt>>, tag: string)
    requires WellKeyed(user) && !HasKey(defaults, "allowedClasses") && !HasKey(defaults, "allowedStyles")
    requires key == "allowedAttributes" && Lookup(defaults, key) == Some(ORecord(0, nested))
    ensures var attrs := OGet(MergeOptions(defaults, user), key);
      var mine := OGet(user, key);
      if mine.ORecord? then
        OGet(attrs, tag) == if HasKey(mine.entries, tag) then OGet(mine, tag) else Lookup(nested, tag).UnwrapOr(OUndefined)
      else attrs == if HasKey(OwnEntries(user), key) then mine else ORecord(0, nested)
  {
    MergeShape(defaults, user);
    WellKeyedGet(user, key);
    var merged := MergeNested(defaults, Spread(defaults, OwnEntries(user)), user, key);
    if OGet(user, key).ORecord? {
      NestedMergeRecord(defaults, user, key, nested, merged, tag);
    } else {
      NestedMergeOther(defaults, user, key, nested, merged);
    }
  }

  /** A user record under `key` is spread over the default record there. */
  lemma NestedMergeRecord(defaults: seq<Entry<Opt>>, user: Opt, key: string, nested: seq<Entry<Opt>>,
                          merged: seq<Entry<Opt>>, tag: string)
    requires WellKeyed(user) && WellKeyed(OGet(user, key)) && OGet(user, key).ORecord?
    requires Lookup(defaults, key) == Some(ORecord(0, nested))
    requires merged == MergeNested(defaults, Spread(defaults, OwnEntries(user)), user, key)
    ensures var mine := OGet(user, key);
      OGet(OGet(ORecord(0, merged), key), tag)
        == if HasKey(mine.entries, tag) then OGet(mine, tag) else Lookup(nested, tag).UnwrapOr(OUndefined)
  {
    var mine := OGet(user, key);
    assert UniqueKeys(mine.entries);
    assert UniqueKeys(OwnEntries(user));
    assert merged == Assign(Spread(defaults, OwnEntries(user)), key, ORecord(0, Spread(nested, mine.entries)));
    AssignedSpreadRead(Spread(defaults, OwnEntries(user)), key, nested, mine.entries, tag);
  }

  /** Reading `tag` under `key` after a spread record is assigned there. */
  lemma AssignedSpreadRead(entries: seq<Entry<Opt>>, key: string, below: seq<Entry<Opt>>, above: seq<Entry<Opt>>, tag: string)
    requires UniqueKeys(above)
    ensures OGet(OGet(ORecord(0, Assign(entries, key, ORecord(0, Spread(below, above)))), key), tag)
      == if HasKey(above, tag) then Lookup(above, tag).UnwrapOr(OUndefined) else Lookup(below, tag).UnwrapOr(OUndefined)
  {
    var inner := Spread(below, above);
    assert OGet(ORecord(0, Assign(entries, key, ORecord(0, inner))), key) == ORecord(0, inner);
  }

  /** Any other user value under `key` replaces the default record, and without one the default stays. */
  lemma NestedMergeOther(defaults: seq<Entry<Opt>>, user: Opt, key: string, nested: seq<Entry<Opt>>,
                         merged: seq<Entry<Opt>>)
    requires WellKeyed(user) && !OGet(user, key).ORecord?
    requires Lookup(defaults, key) == Some(ORecord(0, nested))
    requires merged == MergeNested(defaults, Spread(defaults, OwnEntries(user)), user, key)
    ensures OGet(ORecord(0, merged), key) == if HasKey(OwnEntries(user), key) then OGet(user, key) else ORecord(0, nested)
  {
    assert merged == Spread(defaults, OwnEntries(user));
  }

  // ---------------------------------------------------------------------
  // Resolving, writing out and applying the options
  // ---------------------------------------------------------------------

  const OptionsPath := "framework.options.sanitization"
  const HooksPath := OptionsPath + ".sanitizeHtml"
  const ArgsPath := OptionsPath + ".args"
  const SlotsPath := OptionsPath + ".slots"

  /**
   * The resolved options. `enabled` keeps the configured value (only its
   * truthiness is ever read), `args` and `slots` are normalised pattern
   * lists and `sanitizeHtml` is the merged sanitiser configuration.
   */
  datatype Resolved = Resolved(enabled: Opt, args: seq<string>, slots: seq<string>, sanitizeHtml: Opt)

  /** The `enabled` option with its default: `true` unless a non-nullish value is given. */
  function EnabledOption(v: Opt): (r: Opt)
    ensures OptTruthy(r) <==> Nullish(v) || OptTruthy(v)
  {
    if Nullish(v) then OBool(true) else v
  }

  /** The resolution of options with no function among the hooks and acceptable pattern lists. */
  function ResolvedOptions(options: Opt): Resolved
    requires WellKeyed(options)
  {
    WellKeyedGet(options, "sanitizeHtml");
    var slots := OGet(options, "slots");
    Resolved(
      EnabledOption(OGet(options, "enabled")),
      PatternList(OGet(options, "args")),
      if slots.OUndefined? then ["**"] else PatternList(slots),
      MergeSanitizeHtmlOptions(OGet(options, "sanitizeHtml")))
  }

  /**
   * `resolveSanitizationOptions`: falsy options switch sanitisation off.
   * Otherwise a function among the sanitiser hooks is rejected first, then
   * the `args` list, then the `slots` list, which defaults to everything.
   */
  method ResolveSanitizationOptions(options: Opt) returns (r: Result<Resolved>)
    requires WellKeyed(options)
    ensures !OptTruthy(options) ==> r == Ok(Resolved(OBool(false), [], [], MergeSanitizeHtmlOptions(OUndefined)))
    ensures OptTruthy(options) && r.Ok? ==> r.value == ResolvedOptions(options)
    ensures OptTruthy(options) && r.Ok? ==>
      PatternListOk(OGet(options, "args")) && PatternListOk(OGet(options, "slots"))
    ensures OptTruthy(options) && Distinct(OGet(options, "sanitizeHtml")) ==>
      (r.Ok? <==> !HasFunction(OGet(options, "sanitizeHtml")) && PatternListOk(OGet(options, "args")) && PatternListOk(OGet(options, "slots")))
    ensures r.Err? ==>
      || (HasFunction(OGet(options, "sanitizeHtml")) && IsFunctionError(r.error, HooksPath))
      || PatternListError(OGet(options, "args"), ArgsPath, r.error)
      || PatternListError(OGet(options, "slots"), SlotsPath, r.error)
    ensures r.Err? && !HasFunction(OGet(options, "sanitizeHtml")) && !PatternListOk(OGet(options, "args")) ==>
      PatternListError(OGet(options, "args"), ArgsPath, r.error)
  {
    if !OptTruthy(options) {
      return Ok(Resolved(OBool(false), [], [], MergeSanitizeHtmlOptions(OUndefined)));
    }
    var thrown := AssertNoFunctions(OGet(options, "sanitizeHtml"), HooksPath);
    if thrown.Some? {
      return Err(thrown.value);
    }
    var args := NormalizePathList(OGet(options, "args"), ArgsPath);
    if args.Err? {
      return Err(args.error);
    }
    var slots: Result<seq<string>>;
    if OGet(options, "slots").OUndefined? {
      slots := Ok(["**"]);
    } else {
      slots := NormalizePathList(OGet(options, "slots"), SlotsPath);
    }
    if slots.Err? {
      return Err(slots.error);
    }
    r := Ok(ResolvedOptions(options));
  }

  /** A function anywhere in one option makes the options as a whole unwritable. */
  lemma FunctionOptionUnserializable(options: Opt, key: string)
    ensures HasFunction(OGet(options, key)) ==> !Serializable(options)
  {
    if options.ORecord? && HasKey(options.entries, key) {
      LookupIsEntry(options.entries, key);
      var k :| 0 <= k < |options.entries| && options.entries[k].val == OGet(options, key);
      FunctionUnserializable(options.entries[k].val);
      if Serializable(options) {
        EntriesSerializableAt(options.entries, k, |options.entries|);
      }
    }
  }

  lemma {:induction false} FunctionUnserializable(v: Opt)
    ensures HasFunction(v) ==> !Serializable(v)
    decreases v, 1
  {
    match v
    case OArr(items) => ItemsFunctionUnserializable(items, |items|);
    case ORecord(_, entries) => EntriesFunctionUnserializable(entries, |entries|);
    case _ =>
  }

  lemma {:induction false} ItemsFunctionUnserializable(items: seq<Opt>, n: nat)
    requires n <= |items|
    ensures ItemsHaveFunction(items, n) ==> !ItemsSerializable(items, n)
    decreases items, n
  {
    if n > 0 {
      assert items[n - 1] in items;
      ItemsFunctionUnserializable(items, n - 1);
      FunctionUnserializable(items[n - 1]);
    }
  }

  lemma {:induction false} EntriesFunctionUnserializable(entries: seq<Entry<Opt>>, n: nat)
    requires n <= |entries|
    ensures EntriesHaveFunction(entries, n) ==> !EntriesSerializable(entries, n)
    decreases entries, n
  {
    if n > 0 {
      assert entries[n - 1] in entries;
      EntriesFunctionUnserializable(entries, n - 1);
      FunctionUnserializable(entries[n - 1].val);
    }
  }

  /**
   * `serializeSanitizationOptions`: falsy options are written `undefined`;
   * otherwise a function among the sanitiser hooks is rejected first, and
   * the options are then written as source text.
   */
  method SerializeSanitizationOptions(options: Opt) returns (r: Result<string>)
    ensures !OptTruthy(options) ==> r == Ok("undefined")
    ensures OptTruthy(options) ==> (r.Ok? <==> Serializable(options) && Distinct(options))
    ensures OptTruthy(options) && r.Ok? ==> r.value == Rendered(options)
    ensures OptTruthy(options) && HasFunction(OGet(options, "sanitizeHtml")) && Distinct(OGet(options, "sanitizeHtml")) ==>
      r.Err? && IsFunctionError(r.error, HooksPath)
    ensures r.Err? ==> IsFunctionError(r.error, HooksPath) || IsCircularError(r.error, OptionsPath) || IsUnsupportedError(r.error, OptionsPath)
  {
    if !OptTruthy(options) {
      return Ok("undefined");
    }
    var thrown := AssertNoFunctions(OGet(options, "sanitizeHtml"), HooksPath);
    FunctionOptionUnserializable(options, "sanitizeHtml");
    if thrown.Some? {
      return Err(thrown.value);
    }
    var seenOut;
    r, seenOut := SerializeValue(options, OptionsPath, {});
  }

  /** The args and slots records sent to the renderer. */
  datatype Payload = Payload(args: seq<Field>, slots: seq<Field>)

  /** `sanitizeHtml` applied with the given sanitiser configuration. */
  function Cleaner(sanitizeHtml: (string, Opt) -> string, config: Opt): string -> string
  {
    s => sanitizeHtml(s, config)
  }

  /**
   * `sanitizeRenderPayload`: nothing changes when sanitisation is off; each
   * side with a non-empty pattern list has its string leaves cleaned where
   * their dot path (starting at the top-level key) matches a pattern.
   */
  method SanitizeRenderPayload(payload: Payload, options: Resolved, sanitizeHtml: (string, Opt) -> string) returns (r: Payload)
    ensures !OptTruthy(options.enabled) ==> r == payload
    ensures options.args == [] ==> r.args == payload.args
    ensures options.slots == [] ==> r.slots == payload.slots
    ensures OptTruthy(options.enabled) && options.args != [] ==>
      r.args == SanitizedFields(payload.args, "", false, options.args, Cleaner(sanitizeHtml, options.sanitizeHtml))
    ensures OptTruthy(options.enabled) && options.slots != [] ==>
      r.slots == SanitizedFields(payload.slots, "", false, options.slots, Cleaner(sanitizeHtml, options.sanitizeHtml))
  {
    if !OptTruthy(options.enabled) {
      return payload;
    }
    var clean := Cleaner(sanitizeHtml, options.sanitizeHtml);
    var args := payload.args;
    if |options.args| > 0 {
      args := SanitizeRecord(payload.args, "", false, options.args, clean);
    }
    var slots := payload.slots;
    if |options.slots| > 0 {
      slots := SanitizeRecord(payload.slots, "", false, options.slots, clean);
    }
    r := Payload(args, slots);
  }

  /**
   * A sanitised side keeps its keys in order and the shape of every value,
   * and the value under key `k` is sanitised with `k` as its path.
   */
  lemma SanitizedSide(fields: seq<Field>, patterns: seq<string>, clean: string -> string, k: nat)
    requires k < |fields|
    ensures var out := SanitizedFields(fields, "", false, patterns, clean);
      |out| == |fields| && out[k].key == fields[k].key
      && out[k].val == Sanitized(fields[k].val, fields[k].key, patterns, clean)
      && SameShape(fields[k].val, out[k].val)
  {
    SanitizedFieldsAt(fields, "", false, patterns, clean, k);
    SanitizedSameShape(fields[k].val, fields[k].key, patterns, clean);
  }
}
