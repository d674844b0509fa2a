/** The store of compiled artifacts that keeps each content once (overlay/vllm/compilation/caching.py). */
module ArtifactStore {
  import opened Wrappers

  type Bytes = seq<bv8>

  datatype Error = KeyError

  // ---------------------------------------------------------------------------------------
  // Dictionaries that remember the order of their keys
  // ---------------------------------------------------------------------------------------

  datatype Dict<K(==), V> = Dict(keys: seq<K>, items: map<K, V>)

  function Put<K(==), V>(d: Dict<K, V>, k: K, v: V): Dict<K, V> {
    Dict(if k in d.items then d.keys else d.keys + [k], d.items[k := v])
  }

  ghost predicate Ordered<K(!new), V>(d: Dict<K, V>) {
    && (forall k :: k in d.keys <==> k in d.items)
    && (forall i, j | 0 <= i < j < |d.keys| :: d.keys[i] != d.keys[j])
  }

  lemma PutKeepsOrder<K(!new), V>(d: Dict<K, V>, k: K, v: V)
    requires Ordered(d)
    ensures Ordered(Put(d, k, v))
  {
  }

  // ---------------------------------------------------------------------------------------
  // Keys
  // ---------------------------------------------------------------------------------------

  function Key(name: string, shape: string): string { name + "_" + shape }

  /** Where the last underscore is. */
  function LastUnderscore(s: string): nat
    requires '_' in s
    ensures LastUnderscore(s) < |s| && s[LastUnderscore(s)] == '_' && '_' !in s[LastUnderscore(s) + 1..]
  {
    if s[|s| - 1] == '_' then |s| - 1 else LastUnderscore(s[..|s| - 1])
  }

  /** `rsplit("_", 1)`. */
  function RSplit(key: string): (r: (string, string))
    requires '_' in key
    ensures Key(r.0, r.1) == key && '_' !in r.1
  {
    var i := LastUnderscore(key);
    assert key == key[..i] + "_" + key[i + 1..];
    (key[..i], key[i + 1..])
  }

  lemma KeyHasUnderscore(name: string, shape: string)
    ensures '_' in Key(name, shape)
  {
    assert Key(name, shape)[|name|] == '_';
  }

  /** Names and shapes can be told apart when shapes hold no underscore. */
  lemma KeysApart(name: string, shape: string, other: string, form: string)
    requires '_' !in shape && '_' !in form && Key(name, shape) == Key(other, form)
    ensures name == other && shape == form
  {
    var key := Key(name, shape);
    assert key[|name|] == '_' && forall i | |name| < i < |key| :: key[i] != '_';
    assert key == Key(other, form);
    assert key[|other|] == '_' && forall i | |other| < i < |key| :: key[i] != '_';
    assert key[..|name|] == name && key[..|other|] == other;
    assert key[|name| + 1..] == shape && key[|other| + 1..] == form;
  }

  lemma RSplitOfKey(name: string, shape: string)
    requires '_' !in shape
    ensures '_' in Key(name, shape) && RSplit(Key(name, shape)) == (name, shape)
  {
    KeyHasUnderscore(name, shape);
    var r := RSplit(Key(name, shape));
    KeysApart(name, shape, r.0, r.1);
  }

  /** One name runs on into the other's, with the rest of it at the start of the other shape. */
  ghost predicate RunsOn(name: string, shape: string, other: string, form: string) {
    exists x: string :: other == Key(name, x) && shape == Key(x, form)
  }

  /** Two pairs share a key exactly when they are the same, or one name runs on into the other's: the shape of
      the shorter name then holds an underscore. */
  lemma SharedKey(name: string, shape: string, other: string, form: string)
    requires |name| <= |other|
    ensures Key(name, shape) == Key(other, form) <==>
              (name == other && shape == form) || RunsOn(name, shape, other, form)
    ensures RunsOn(name, shape, other, form) ==> '_' in shape
  {
    var key := Key(other, form);
    if Key(name, shape) == key {
      assert key[..|name|] == name && key[|name|] == '_' && key[|name| + 1..] == shape;
      if |name| == |other| {
        assert key[..|other|] == other && key[|other| + 1..] == form;
      } else {
        var x := other[|name| + 1..];
        assert key[..|other|] == other && other[|name|] == '_';
        assert other == other[..|name|] + "_" + x && other[..|name|] == name;
        assert other == Key(name, x);
        assert shape == Key(x, form);
      }
    }
    if RunsOn(name, shape, other, form) {
      var x: string :| other == Key(name, x) && shape == Key(x, form);
      KeyHasUnderscore(x, form);
      assert name + "_" + (x + "_" + form) == (name + "_" + x) + "_" + form;
    }
  }

  /** The smallest such pairs. */
  lemma SharedKeyExists()
    ensures Key("a_b", "c") == Key("a", "b_c") && RunsOn("a", "b_c", "a_b", "c")
  {
    assert "a_b" == Key("a", "b") && "b_c" == Key("b", "c");
    SharedKey("a", "b_c", "a_b", "c");
  }

  // ---------------------------------------------------------------------------------------
  // What a run of inserts leaves
  // ---------------------------------------------------------------------------------------

  datatype Entry = Entry(name: string, shape: string, bytes: Bytes)

  function KeyOf(e: Entry): string { Key(e.name, e.shape) }

  function Hashes(log: seq<Entry>, hash: Bytes -> string): Dict<string, string> {
    if log == [] then Dict([], map[])
    else
      var e := log[|log| - 1];
      Put(Hashes(log[..|log| - 1], hash), KeyOf(e), hash(e.bytes))
  }

  function Store(log: seq<Entry>, hash: Bytes -> string): Dict<string, Bytes> {
    if log == [] then Dict([], map[])
    else
      var before, e := Store(log[..|log| - 1], hash), log[|log| - 1];
      if hash(e.bytes) in before.items then before else Put(before, hash(e.bytes), e.bytes)
  }

  lemma HashesMore(log: seq<Entry>, hash: Bytes -> string, e: Entry)
    ensures Hashes(log + [e], hash) == Put(Hashes(log, hash), KeyOf(e), hash(e.bytes))
    ensures Store(log + [e], hash) ==
            var before := Store(log, hash);
            if hash(e.bytes) in before.items then before else Put(before, hash(e.bytes), e.bytes)
  {
    assert (log + [e])[..|log|] == log;
  }

  lemma {:induction false} RunsKeepOrder(log: seq<Entry>, hash: Bytes -> string)
    ensures Ordered(Hashes(log, hash)) && Ordered(Store(log, hash))
    decreases |log|
  {
    if log != [] {
      var rest, e := log[..|log| - 1], log[|log| - 1];
      RunsKeepOrder(rest, hash);
      PutKeepsOrder(Hashes(rest, hash), KeyOf(e), hash(e.bytes));
      PutKeepsOrder(Store(rest, hash), hash(e.bytes), e.bytes);
      hide Ordered;
    }
  }

  /** The last entry under a key. */
  ghost predicate IsLast(log: seq<Entry>, key: string, i: int) {
    0 <= i < |log| && KeyOf(log[i]) == key && forall j | i < j < |log| :: KeyOf(log[j]) != key
  }

  /** The first entry with a hash. */
  ghost predicate IsFirst(log: seq<Entry>, hash: Bytes -> string, digest: string, i: int) {
    0 <= i < |log| && hash(log[i].bytes) == digest && forall j | 0 <= j < i :: hash(log[j].bytes) != digest
  }

  lemma {:induction false} HashIsOfLast(log: seq<Entry>, hash: Bytes -> string, key: string)
    ensures key in Hashes(log, hash).items ==>
              exists i :: IsLast(log, key, i) && Hashes(log, hash).items[key] == hash(log[i].bytes)
    ensures key !in Hashes(log, hash).items ==> forall i | 0 <= i < |log| :: KeyOf(log[i]) != key
    decreases |log|
  {
    if log != [] {
      var n := |log| - 1;
      HashIsOfLast(log[..n], hash, key);
      if KeyOf(log[n]) == key {
        assert IsLast(log, key, n);
      } else if key in Hashes(log, hash).items {
        var i :| IsLast(log[..n], key, i) && Hashes(log[..n], hash).items[key] == hash(log[..n][i].bytes);
        assert IsLast(log, key, i) by {
          forall j | i < j < |log| ensures KeyOf(log[j]) != key { if j < n { assert log[..n][j] == log[j]; } }
        }
      } else {
        forall i | 0 <= i < |log| ensures KeyOf(log[i]) != key { if i < n { assert log[..n][i] == log[i]; } }
      }
    }
  }

  lemma {:induction false} StoredIsFirst(log: seq<Entry>, hash: Bytes -> string, digest: string)
    ensures digest in Store(log, hash).items ==>
              exists i :: IsFirst(log, hash, digest, i) && Store(log, hash).items[digest] == log[i].bytes
    ensures digest !in Store(log, hash).items ==> forall i | 0 <= i < |log| :: hash(log[i].bytes) != digest
    decreases |log|
  {
    if log != [] {
      var n := |log| - 1;
      StoredIsFirst(log[..n], hash, digest);
      if digest in Store(log[..n], hash).items {
        var i :| IsFirst(log[..n], hash, digest, i) && Store(log[..n], hash).items[digest] == log[..n][i].bytes;
        assert IsFirst(log, hash, digest, i);
      } else {
        forall i | 0 <= i < n ensures hash(log[i].bytes) != digest { assert log[..n][i] == log[i]; }
        if hash(log[n].bytes) == digest { assert IsFirst(log, hash, digest, n); }
      }
    }
  }

  /** `get`, as a function of the run. */
  function Lookup(log: seq<Entry>, hash: Bytes -> string, key: string): Result<Bytes, Error> {
    var hashes, store := Hashes(log, hash).items, Store(log, hash).items;
    if key !in hashes || hashes[key] !in store then Err(KeyError) else Ok(store[hashes[key]])
  }

  /** Looking a key up finds the first content with the hash of the last content inserted under the key, and
      fails exactly for keys that were never used. */
  lemma LookupFinds(log: seq<Entry>, hash: Bytes -> string, key: string)
    ensures Lookup(log, hash, key).Ok? <==> exists i :: IsLast(log, key, i)
    ensures forall i | IsLast(log, key, i) ::
              exists j :: IsFirst(log, hash, hash(log[i].bytes), j) && Lookup(log, hash, key) == Ok(log[j].bytes)
  {
    HashIsOfLast(log, hash, key);
    var hashes := Hashes(log, hash).items;
    if key in hashes {
      StoredIsFirst(log, hash, hashes[key]);
      forall i, k | IsLast(log, key, i) && IsLast(log, key, k) ensures i == k {}
    }
  }

  ghost predicate CollisionFree(log: seq<Entry>, hash: Bytes -> string) {
    forall i, j | 0 <= i < |log| && 0 <= j < |log| && hash(log[i].bytes) == hash(log[j].bytes) ::
      log[i].bytes == log[j].bytes
  }

  predicate PlainShapes(log: seq<Entry>) { forall e <- log :: '_' !in e.shape }

  /** The last entry for a name and a shape. */
  ghost predicate IsLastFor(log: seq<Entry>, name: string, shape: string, i: int) {
    && 0 <= i < |log| && log[i].name == name && log[i].shape == shape
    && forall j | i < j < |log| :: !(log[j].name == name && log[j].shape == shape)
  }

  lemma LastForPair(log: seq<Entry>, name: string, shape: string, i: nat)
    requires PlainShapes(log) && '_' !in shape
    ensures IsLast(log, Key(name, shape), i) <==> IsLastFor(log, name, shape, i)
  {
    forall j | 0 <= j < |log|
      ensures KeyOf(log[j]) == Key(name, shape) <==> log[j].name == name && log[j].shape == shape
    {
      assert log[j] in log;
      if KeyOf(log[j]) == Key(name, shape) { KeysApart(log[j].name, log[j].shape, name, shape); }
    }
    hide Key, KeyOf;
  }

  /** The deduplicated store agrees with a plain map from name and shape to the bytes inserted last. */
  lemma LookupIsLastInserted(log: seq<Entry>, hash: Bytes -> string, name: string, shape: string)
    requires PlainShapes(log) && '_' !in shape && CollisionFree(log, hash)
    ensures Lookup(log, hash, Key(name, shape)).Ok? <==> exists i :: IsLastFor(log, name, shape, i)
    ensures forall i | IsLastFor(log, name, shape, i) :: Lookup(log, hash, Key(name, shape)) == Ok(log[i].bytes)
  {
    LookupFinds(log, hash, Key(name, shape));
    forall i: nat { LastForPair(log, name, shape, i); }
    hide Lookup, Key;
    forall i | IsLastFor(log, name, shape, i)
      ensures Lookup(log, hash, Key(name, shape)) == Ok(log[i].bytes)
    {
      assert IsLast(log, Key(name, shape), i);
      var j :| IsFirst(log, hash, hash(log[i].bytes), j) && Lookup(log, hash, Key(name, shape)) == Ok(log[j].bytes);
    }
  }

  /** For a key in use the lookup gives the bytes inserted last exactly when no earlier content of another
      kind has their hash first. */
  lemma LookupIsLastExactly(log: seq<Entry>, hash: Bytes -> string, key: string, i: nat, j: nat)
    requires IsLast(log, key, i) && IsFirst(log, hash, hash(log[i].bytes), j)
    ensures Lookup(log, hash, key) == Ok(log[i].bytes) <==> log[j].bytes == log[i].bytes
  {
    LookupFinds(log, hash, key);
    hide Lookup;
    var k :| IsFirst(log, hash, hash(log[i].bytes), k) && Lookup(log, hash, key) == Ok(log[k].bytes);
    assert k == j;
  }

  /** Without hash collisions, and with any shapes, get returns the bytes inserted last for a pair exactly when
      they are the bytes inserted last under its key. */
  lemma LookupIsLastForPair(log: seq<Entry>, hash: Bytes -> string, name: string, shape: string, i: nat, k: nat)
    requires CollisionFree(log, hash) && IsLastFor(log, name, shape, i) && IsLast(log, Key(name, shape), k)
    ensures Lookup(log, hash, Key(name, shape)) == Ok(log[i].bytes) <==> log[k].bytes == log[i].bytes
  {
    LookupFinds(log, hash, Key(name, shape));
    hide Lookup, Key;
    var j :| IsFirst(log, hash, hash(log[k].bytes), j) && Lookup(log, hash, Key(name, shape)) == Ok(log[j].bytes);
    assert log[j].bytes == log[k].bytes;
  }

  /** There is such a k, and a later one than i only where another pair shares the key. */
  lemma LastUnderKey(log: seq<Entry>, name: string, shape: string, i: nat) returns (k: nat)
    requires IsLastFor(log, name, shape, i)
    ensures IsLast(log, Key(name, shape), k) && i <= k
    ensures k != i ==> !(log[k].name == name && log[k].shape == shape) && KeyOf(log[k]) == Key(name, shape)
  {
    hide Key;
    k := i;
    for m := i + 1 to |log|
      invariant i <= k < m <= |log| && KeyOf(log[k]) == Key(name, shape)
      invariant forall j | k < j < m :: KeyOf(log[j]) != Key(name, shape)
    {
      if KeyOf(log[m]) == Key(name, shape) { k := m; }
    }
  }

  /** Every content is stored, and stored once. */
  lemma EachContentOnce(log: seq<Entry>, hash: Bytes -> string)
    requires CollisionFree(log, hash)
    ensures
      var store := Store(log, hash).items;
      && (forall i | 0 <= i < |log| :: hash(log[i].bytes) in store && store[hash(log[i].bytes)] == log[i].bytes)
      && (forall digest <- store :: hash(store[digest]) == digest)
      && (forall d <- store, e <- store :: store[d] == store[e] ==> d == e)
  {
    forall digest: string { StoredIsFirst(log, hash, digest); }
    hide Store;
  }
}
