/**
 * JavaScript objects as ordered lists of key/value entries, in the order
 * `Object.entries` reports them, with property read, assignment, deletion
 * and object spread.
 */
module Records {
  import opened Wrappers

  datatype Entry<V> = Entry(key: string, val: V)

  function Keys<V>(entries: seq<Entry<V>>): (r: seq<string>)
    ensures |r| == |entries| && forall k :: 0 <= k < |entries| ==> r[k] == entries[k].key
  {
    if entries == [] then [] else [entries[0].key] + Keys(entries[1..])
  }

  /** `key in obj` for an own property. */
  predicate HasKey<V>(entries: seq<Entry<V>>, key: string)
  {
    key in Keys(entries)
  }

  /** Keys appear at most once, as in every JavaScript object. */
  predicate UniqueKeys<V>(entries: seq<Entry<V>>)
  {
    entries == [] || (!HasKey(entries[1..], entries[0].key) && UniqueKeys(entries[1..]))
  }

  /** The value stored under `key`, if the object has that property. */
  function Lookup<V>(entries: seq<Entry<V>>, key: string): (r: Option<V>)
    ensures r.Some? <==> HasKey(entries, key)
  {
    if entries == [] then None
    else if entries[0].key == key then Some(entries[0].val)
    else Lookup(entries[1..], key)
  }

  /** `obj[key] = v`: overwrite in place when the key exists, else append. */
  function Assign<V>(entries: seq<Entry<V>>, key: string, v: V): (r: seq<Entry<V>>)
    ensures Keys(r) == if HasKey(entries, key) then Keys(entries) else Keys(entries) + [key]
    ensures Lookup(r, key) == Some(v)
    ensures forall k :: k != key ==> Lookup(r, k) == Lookup(entries, k)
    ensures UniqueKeys(entries) ==> UniqueKeys(r)
  {
    if entries == [] then [Entry(key, v)]
    else if entries[0].key == key then [Entry(key, v)] + entries[1..]
    else
      var rest := Assign(entries[1..], key, v);
      assert entries == [entries[0]] + entries[1..];
      ConsKeysKept(entries[0], entries[1..], key, rest);
      ConsLookupsKept(entries[0], entries[1..], key, rest);
      ConsUniqueKept(entries[0], entries[1..], key, rest);
      [entries[0]] + rest
  }

  /** The keys of a four-entry object, in order. */
  lemma KeysOfFour<V>(a: Entry<V>, b: Entry<V>, c: Entry<V>, d: Entry<V>)
    ensures Keys([a, b, c, d]) == [a.key, b.key, c.key, d.key]
  {
    var ks := Keys([a, b, c, d]);
    assert ks[0] == a.key && ks[1] == b.key && ks[2] == c.key && ks[3] == d.key;
  }

  /** Each key of a four-entry object with distinct keys reads its own value. */
  lemma LookupsOfFour<V>(a: Entry<V>, b: Entry<V>, c: Entry<V>, d: Entry<V>)
    requires a.key != b.key && a.key != c.key && a.key != d.key
    requires b.key != c.key && b.key != d.key && c.key != d.key
    ensures Lookup([a, b, c, d], a.key) == Some(a.val) && Lookup([a, b, c, d], b.key) == Some(b.val)
    ensures Lookup([a, b, c, d], c.key) == Some(c.val) && Lookup([a, b, c, d], d.key) == Some(d.val)
  {
    assert [a, b, c, d] == [a] + ([b] + ([c] + [d]));
    LookupCons(d, [], d.key);
    LookupCons(c, [d], c.key);
    LookupCons(c, [d], d.key);
    LookupCons(b, [c] + [d], b.key);
    LookupCons(b, [c] + [d], c.key);
    LookupCons(b, [c] + [d], d.key);
    LookupCons(a, [b] + ([c] + [d]), a.key);
    LookupCons(a, [b] + ([c] + [d]), b.key);
    LookupCons(a, [b] + ([c] + [d]), c.key);
    LookupCons(a, [b] + ([c] + [d]), d.key);
  }

  /** A lookup in an object with one entry in front of others. */
  lemma LookupCons<V>(e: Entry<V>, rest: seq<Entry<V>>, key: string)
    ensures Lookup([e] + rest, key) == if e.key == key then Some(e.val) else Lookup(rest, key)
  {
    assert ([e] + rest)[1..] == rest;
  }

  /** Putting the same entry, of another key, in front keeps how the keys relate. */
  lemma ConsKeysKept<V>(e: Entry<V>, before: seq<Entry<V>>, key: string, after: seq<Entry<V>>)
    requires e.key != key
    requires Keys(after) == if HasKey(before, key) then Keys(before) else Keys(before) + [key]
    ensures Keys([e] + after) == if HasKey([e] + before, key) then Keys([e] + before) else Keys([e] + before) + [key]
  {
    assert ([e] + after)[1..] == after;
    assert ([e] + before)[1..] == before;
  }

  /** Putting the same entry, of another key, in front keeps how the lookups relate. */
  lemma ConsLookupsKept<V>(e: Entry<V>, before: seq<Entry<V>>, key: string, after: seq<Entry<V>>)
    requires e.key != key
    requires forall k :: k != key ==> Lookup(after, k) == Lookup(before, k)
    ensures forall k :: k != key ==> Lookup([e] + after, k) == Lookup([e] + before, k)
  {
    assert ([e] + after)[1..] == after;
    assert ([e] + before)[1..] == before;
  }

  /** Putting the same entry, of another key, in front keeps the keys of the second list unique. */
  lemma ConsUniqueKept<V>(e: Entry<V>, before: seq<Entry<V>>, key: string, after: seq<Entry<V>>)
    requires e.key != key
    requires Keys(after) == if HasKey(before, key) then Keys(before) else Keys(before) + [key]
    requires UniqueKeys(before) ==> UniqueKeys(after)
    ensures UniqueKeys([e] + before) ==> UniqueKeys([e] + after)
  {
    assert ([e] + after)[1..] == after;
    assert ([e] + before)[1..] == before;
  }

  /** `delete obj[key]`. */
  function Remove<V>(entries: seq<Entry<V>>, key: string): (r: seq<Entry<V>>)
    ensures !HasKey(r, key)
    ensures forall k :: k != key ==> Lookup(r, k) == Lookup(entries, k)
    ensures forall k :: HasKey(r, k) <==> k != key && HasKey(entries, k)
  {
    if entries == [] then []
    else if entries[0].key == key then Remove(entries[1..], key)
    else
      var r := Remove(entries[1..], key);
      assert Keys([entries[0]] + r) == [entries[0].key] + Keys(r);
      assert Keys(entries) == [entries[0].key] + Keys(entries[1..]);
      forall k ensures HasKey([entries[0]] + r, k) <==> k != key && HasKey(entries, k) {
        assert HasKey([entries[0]] + r, k) <==> k == entries[0].key || HasKey(r, k);
      }
      [entries[0]] + r
  }

  /** `{...a, ...b}`: every entry of `b` assigned onto a copy of `a`, in order. */
  function Spread<V>(a: seq<Entry<V>>, b: seq<Entry<V>>): (r: seq<Entry<V>>)
    requires UniqueKeys(b)
    decreases |b|
    ensures forall k :: Lookup(r, k) == if HasKey(b, k) then Lookup(b, k) else Lookup(a, k)
    ensures forall k :: HasKey(r, k) <==> HasKey(a, k) || HasKey(b, k)
    ensures UniqueKeys(a) ==> UniqueKeys(r)
  {
    if b == [] then a
    else
      var a' := Assign(a, b[0].key, b[0].val);
      var r := Spread(a', b[1..]);
      assert Keys(b) == [b[0].key] + Keys(b[1..]);
      assert forall k :: HasKey(a', k) <==> HasKey(a, k) || k == b[0].key;
      r
  }
}
