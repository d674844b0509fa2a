/** The store of compiled artifacts as an object: inserting, loading, pickling, and regrouping by submodule
    (overlay/vllm/compilation/caching.py). */
module CompiledArtifacts {
  import opened Wrappers
  import opened ArtifactStore

  function Unique<T(==)>(xs: seq<T>): seq<T> {
    if xs == [] then []
    else
      var before, x := Unique(xs[..|xs| - 1]), xs[|xs| - 1];
      if x in before then before else before + [x]
  }

  lemma UniqueMore<T>(xs: seq<T>, x: T)
    ensures Unique(xs + [x]) == if x in Unique(xs) then Unique(xs) else Unique(xs) + [x]
  {
    assert (xs + [x])[..|xs|] == xs;
  }

  lemma {:induction false} UniqueHolds<T(!new)>(xs: seq<T>)
    ensures forall x :: x in Unique(xs) <==> x in xs
    ensures forall i, j | 0 <= i < j < |Unique(xs)| :: Unique(xs)[i] != Unique(xs)[j]
    decreases |xs|
  {
    if xs != [] {
      UniqueHolds(xs[..|xs| - 1]);
      assert xs == xs[..|xs| - 1] + [xs[|xs| - 1]];
    }
  }

  ghost predicate AreKeys(keys: seq<string>) { forall i | 0 <= i < |keys| :: '_' in keys[i] }

  function NamesOf(keys: seq<string>): seq<string>
    requires AreKeys(keys)
  {
    seq(|keys|, i requires 0 <= i < |keys| => RSplit(keys[i]).0)
  }

  function LogNames(log: seq<Entry>): seq<string> { seq(|log|, i requires 0 <= i < |log| => log[i].name) }

  lemma {:induction false} KeysAreKeys(log: seq<Entry>, hash: Bytes -> string)
    ensures AreKeys(Hashes(log, hash).keys)
    decreases |log|
  {
    if log != [] {
      KeysAreKeys(log[..|log| - 1], hash);
      KeyHasUnderscore(log[|log| - 1].name, log[|log| - 1].shape);
    }
  }

  /** With plain shapes, the names read back from the keys are the inserted names, each once, in the order of
      their first insertion. */
  lemma {:induction false} NamesAreInserted(log: seq<Entry>, hash: Bytes -> string)
    requires PlainShapes(log)
    ensures AreKeys(Hashes(log, hash).keys)
    ensures Unique(NamesOf(Hashes(log, hash).keys)) == Unique(LogNames(log))
    decreases |log|
  {
    KeysAreKeys(log, hash);
    if log == [] {
      assert NamesOf([]) == [] && LogNames([]) == [];
    } else {
      var rest, e := log[..|log| - 1], log[|log| - 1];
      assert e in log && log == rest + [e];
      assert PlainShapes(rest) by { forall x | x in rest ensures '_' !in x.shape { assert x in log; } }
      NamesAreInserted(rest, hash);
      OneMoreName(rest, hash, e);
    }
  }

  lemma OneMoreName(rest: seq<Entry>, hash: Bytes -> string, e: Entry)
    requires PlainShapes(rest) && '_' !in e.shape
    requires AreKeys(Hashes(rest, hash).keys) && AreKeys(Hashes(rest + [e], hash).keys)
    requires Unique(NamesOf(Hashes(rest, hash).keys)) == Unique(LogNames(rest))
    ensures Unique(NamesOf(Hashes(rest + [e], hash).keys)) == Unique(LogNames(rest + [e]))
  {
    var keys := Hashes(rest, hash).keys;
    HashesMore(rest, hash, e);
    LogNamesMore(rest, e);
    if KeyOf(e) in Hashes(rest, hash).items {
      assert Hashes(rest + [e], hash).keys == keys;
      hide *;
      KeyNamesEntry(rest, hash, e);
      UniqueHolds(LogNames(rest));
    } else {
      assert Hashes(rest + [e], hash).keys == keys + [KeyOf(e)];
      NamesOfMore(keys, e);
      hide *;
      UniqueMore(NamesOf(keys), e.name);
    }
  }

  lemma LogNamesMore(log: seq<Entry>, e: Entry)
    ensures Unique(LogNames(log + [e])) ==
            if e.name in Unique(LogNames(log)) then Unique(LogNames(log)) else Unique(LogNames(log)) + [e.name]
  {
    assert LogNames(log + [e]) == LogNames(log) + [e.name];
    UniqueMore(LogNames(log), e.name);
  }

  lemma NamesOfMore(keys: seq<string>, e: Entry)
    requires AreKeys(keys) && '_' !in e.shape && AreKeys(keys + [KeyOf(e)])
    ensures NamesOf(keys + [KeyOf(e)]) == NamesOf(keys) + [e.name]
  {
    RSplitOfKey(e.name, e.shape);
    hide RSplit, Key;
  }

  lemma KeyNamesEntry(log: seq<Entry>, hash: Bytes -> string, e: Entry)
    requires PlainShapes(log) && '_' !in e.shape && KeyOf(e) in Hashes(log, hash).items
    ensures e.name in LogNames(log)
  {
    HashIsOfLast(log, hash, KeyOf(e));
    var i :| IsLast(log, KeyOf(e), i);
    assert log[i] in log;
    KeysApart(log[i].name, log[i].shape, e.name, e.shape);
    assert LogNames(log)[i] == e.name;
  }

  class StandaloneCompiledArtifacts<M> {
    const hash: Bytes -> string
    const deserialize: Bytes -> M
    var submoduleBytes: Dict<string, string>
    var submoduleBytesStore: Dict<string, Bytes>
    var loadedSubmoduleStore: map<string, M>
    ghost var log: seq<Entry>

    /** The dictionaries are what the inserts so far leave, and whatever is loaded is the loaded form of stored
        bytes. */
    ghost predicate Valid()
      reads this
    {
      && submoduleBytes == Hashes(log, hash) && submoduleBytesStore == Store(log, hash)
      && LoadedRight()
    }

    ghost predicate AllLoaded()
      reads this
    {
      loadedSubmoduleStore.Keys == submoduleBytesStore.items.Keys
    }

    constructor (hash: Bytes -> string, deserialize: Bytes -> M)
      ensures Valid() && log == [] && this.hash == hash && this.deserialize == deserialize
    {
      this.hash, this.deserialize := hash, deserialize;
      submoduleBytes, submoduleBytesStore, loadedSubmoduleStore := Dict([], map[]), Dict([], map[]), map[];
      log := [];
    }

    /** `__setstate__` of the state that `__getstate__` returned: nothing is loaded. */
    constructor SetState(
      hash: Bytes -> string, deserialize: Bytes -> M, state: (Dict<string, string>, Dict<string, Bytes>),
      ghost saved: seq<Entry>)
      requires state == (Hashes(saved, hash), Store(saved, hash))
      ensures Valid() && log == saved && this.hash == hash && this.deserialize == deserialize
                && loadedSubmoduleStore == map[]
    {
      this.hash, this.deserialize := hash, deserialize;
      submoduleBytes, submoduleBytesStore, loadedSubmoduleStore := state.0, state.1, map[];
      log := saved;
    }

    method GetState() returns (state: (Dict<string, string>, Dict<string, Bytes>))
      requires Valid()
      ensures state == (Hashes(log, hash), Store(log, hash))
    {
      state := (submoduleBytes, submoduleBytesStore);
    }

    method Insert(submodName: string, shape: string, entry: Bytes)
      requires Valid()
      modifies this
      ensures Valid() && log == old(log) + [Entry(submodName, shape, entry)]
      ensures loadedSubmoduleStore == old(loadedSubmoduleStore)
      ensures old(AllLoaded()) && hash(entry) in old(submoduleBytesStore.items) ==> AllLoaded()
    {
      var hexDigest := hash(entry);
      HashesMore(log, hash, Entry(submodName, shape, entry));
      submoduleBytes := Put(submoduleBytes, Key(submodName, shape), hexDigest);
      if hexDigest !in submoduleBytesStore.items {
        submoduleBytesStore := Put(submoduleBytesStore, hexDigest, entry);
      }
      log := log + [Entry(submodName, shape, entry)];
    }

    method Get(submodName: string, shape: string) returns (r: Result<Bytes, Error>)
      requires Valid()
      ensures r == Lookup(log, hash, Key(submodName, shape))
    {
      var key := Key(submodName, shape);
      if key !in submoduleBytes.items || submoduleBytes.items[key] !in submoduleBytesStore.items {
        return Err(KeyError);
      }
      r := Ok(submoduleBytesStore.items[submoduleBytes.items[key]]);
    }

    /** `get_loaded`: what `get` finds, loaded; total once everything is loaded. */
    method GetLoaded(submodName: string, shape: string) returns (r: Result<M, Error>)
      requires Valid()
      ensures
        var key, found := Key(submodName, shape), Lookup(log, hash, Key(submodName, shape));
        && (r.Ok? <==> key in submoduleBytes.items && submoduleBytes.items[key] in loadedSubmoduleStore)
        && (r.Ok? ==> found.Ok? && r.value == deserialize(found.value))
        && (AllLoaded() && found.Ok? ==> r.Ok?)
    {
      var key := Key(submodName, shape);
      if key !in submoduleBytes.items || submoduleBytes.items[key] !in loadedSubmoduleStore {
        return Err(KeyError);
      }
      r := Ok(loadedSubmoduleStore[submoduleBytes.items[key]]);
    }

    /** `load_all`: comparing sizes is enough to see that everything is loaded. */
    method LoadAll()
      requires Valid()
      modifies this`loadedSubmoduleStore
      ensures Valid() && AllLoaded()
      ensures old(AllLoaded()) ==> loadedSubmoduleStore == old(loadedSubmoduleStore)
    {
      if |loadedSubmoduleStore| == |submoduleBytesStore.items| {
        SameSize(loadedSubmoduleStore.Keys, submoduleBytesStore.items.Keys);
        return;
      }
      RunsKeepOrder(log, hash);
      var keys := submoduleBytesStore.keys;
      var loadedEntries := LoadEntries(keys);
      StoreLoaded(keys, loadedEntries);
    }

    ghost predicate LoadedRight()
      reads this
    {
      forall h <- loadedSubmoduleStore ::
        h in submoduleBytesStore.items && loadedSubmoduleStore[h] == deserialize(submoduleBytesStore.items[h])
    }

    method StoreLoaded(keys: seq<string>, entries: seq<M>)
      requires |entries| == |keys| && LoadedRight()
      requires forall i | 0 <= i < |keys| ::
                 keys[i] in submoduleBytesStore.items && entries[i] == deserialize(submoduleBytesStore.items[keys[i]])
      requires forall k <- submoduleBytesStore.items :: k in keys
      modifies this`loadedSubmoduleStore
      ensures LoadedRight() && AllLoaded()
    {
      for i := 0 to |keys|
        invariant LoadedRight()
        invariant forall j | 0 <= j < i :: keys[j] in loadedSubmoduleStore
      {
        loadedSubmoduleStore := loadedSubmoduleStore[keys[i] := entries[i]];
      }
      forall k | k in submoduleBytesStore.items ensures k in loadedSubmoduleStore {
        var j :| 0 <= j < |keys| && keys[j] == k;
      }
    }

    /** The loads of the thread pool, in the order of the keys. */
    method LoadEntries(keys: seq<string>) returns (entries: seq<M>)
      requires forall k <- keys :: k in submoduleBytesStore.items
      ensures |entries| == |keys|
      ensures forall i | 0 <= i < |keys| ::
                keys[i] in keys && entries[i] == deserialize(submoduleBytesStore.items[keys[i]])
    {
      var stored := submoduleBytesStore.items;
      entries := seq(|keys|, i requires 0 <= i < |keys| => (assert keys[i] in keys; deserialize(stored[keys[i]])));
    }

    /** `num_artifacts` and `num_entries`. */
    method NumArtifacts() returns (artifacts: nat, entries: nat)
      requires Valid()
      ensures artifacts == |Store(log, hash).items| && entries == |Hashes(log, hash).items|
    {
      artifacts, entries := |submoduleBytesStore.items|, |submoduleBytes.items|;
    }

    /** `submodule_names`. */
    method SubmoduleNames() returns (names: seq<string>)
      requires Valid()
      ensures AreKeys(submoduleBytes.keys) && names == Unique(NamesOf(submoduleBytes.keys))
      ensures (forall e <- log :: '_' !in e.shape) ==> names == Unique(LogNames(log))
    {
      KeysAreKeys(log, hash);
      if PlainShapes(log) { NamesAreInserted(log, hash); }
      names := [];
      var keys := submoduleBytes.keys;
      for i := 0 to |keys|
        invariant AreKeys(keys[..i]) && names == Unique(NamesOf(keys[..i]))
      {
        NamesMore(keys, i);
        var name := RSplit(keys[i]).0;
        if name !in names {
          names := names + [name];
        }
      }
      assert keys[..|keys|] == keys;
    }

    /** The compiled forms grouped by name, then by shape. */
    ghost predicate Grouped(compiled: Dict<string, map<string, M>>, keys: seq<string>)
      requires AreKeys(keys)
      reads this
    {
      && compiled.keys == Unique(NamesOf(keys))
      && (forall name: string :: name in compiled.items <==> name in compiled.keys)
      && EntriesGrouped(compiled, keys)
    }

    ghost predicate EntriesGrouped(compiled: Dict<string, map<string, M>>, keys: seq<string>)
      reads this
    {
      && (forall name: string, shape: string ::
            Holds(compiled, name, shape) <==> '_' !in shape && Key(name, shape) in keys)
      && (forall name: string, shape: string | Holds(compiled, name, shape) :: IsLoaded(compiled, name, shape))
    }

    ghost predicate Holds(compiled: Dict<string, map<string, M>>, name: string, shape: string) {
      name in compiled.items && shape in compiled.items[name]
    }

    ghost predicate IsLoaded(compiled: Dict<string, map<string, M>>, name: string, shape: string)
      requires Holds(compiled, name, shape)
      reads this
    {
      var found := Lookup(log, hash, Key(name, shape));
      found.Ok? && compiled.items[name][shape] == deserialize(found.value)
    }

    /** The regrouping of `reconstruct_serializable_fn_from_mega_artifact`: its names are those of
        `submodule_names`, every lookup succeeds, and every key comes out once, under its name and shape. */
    method Regroup() returns (r: Result<Dict<string, map<string, M>>, Error>)
      requires Valid()
      modifies this`loadedSubmoduleStore
      ensures Valid() && AllLoaded() && AreKeys(submoduleBytes.keys)
      ensures r.Ok? && Grouped(r.value, submoduleBytes.keys)
    {
      LoadAll();
      KeysAreKeys(log, hash);
      RunsKeepOrder(log, hash);
      var keys := submoduleBytes.keys;
      var compiled: Dict<string, map<string, M>> := Dict([], map[]);
      for i := 0 to |keys|
        invariant Valid() && AllLoaded()
        invariant AreKeys(keys[..i]) && Grouped(compiled, keys[..i])
      {
        var (submodName, shapeStr) := RSplit(keys[i]);
        AllFound(log, hash, keys[i]);
        var loaded := GetLoaded(submodName, shapeStr);
        if loaded.Err? {
          return Err(KeyError);
        }
        ghost var before := compiled;
        var group := if submodName in compiled.items then compiled.items[submodName] else map[];
        compiled := Put(compiled, submodName, group[shapeStr := loaded.value]);
        GroupedMore(before, compiled, keys, i, submodName, shapeStr, loaded.value);
      }
      assert keys[..|keys|] == keys;
      r := Ok(compiled);
    }

    lemma GroupedMore(
      before: Dict<string, map<string, M>>, after: Dict<string, map<string, M>>, keys: seq<string>, i: nat,
      name: string, shape: string, loaded: M)
      requires i < |keys| && AreKeys(keys) && AreKeys(keys[..i]) && Grouped(before, keys[..i])
      requires RSplit(keys[i]) == (name, shape)
      requires
        var found := Lookup(log, hash, Key(name, shape));
        found.Ok? && loaded == deserialize(found.value)
      requires after == Put(before, name, (if name in before.items then before.items[name] else map[])[shape := loaded])
      ensures AreKeys(keys[..i + 1]) && Grouped(after, keys[..i + 1])
    {
      NamesMore(keys, i);
      SplitKey(keys[i]);
      PutHolds(before, after, name, shape, loaded);
      hide Unique, NamesOf, Lookup, RSplit, Key, Put, AreKeys, EntriesGrouped, Holds, IsLoaded;
      EntriesGroupedMore(before, after, keys[..i], keys[i], name, shape, loaded);
    }

    lemma EntriesGroupedMore(
      before: Dict<string, map<string, M>>, after: Dict<string, map<string, M>>, keys: seq<string>, key: string,
      name: string, shape: string, loaded: M)
      requires EntriesGrouped(before, keys) && Key(name, shape) == key && '_' !in shape
      requires
        var found := Lookup(log, hash, Key(name, shape));
        found.Ok? && loaded == deserialize(found.value)
      requires forall other: string, form: string ::
                 Holds(after, other, form) <==> Holds(before, other, form) || (other == name && form == shape)
      requires forall other: string, form: string | Holds(after, other, form) ::
                 after.items[other][form] ==
                 if other == name && form == shape then loaded else before.items[other][form]
      ensures EntriesGrouped(after, keys + [key])
    {
      hide Lookup, Key;
      forall other: string, form: string
        ensures Holds(after, other, form) <==> '_' !in form && Key(other, form) in keys + [key]
        ensures Holds(after, other, form) ==> IsLoaded(after, other, form)
      {
        if '_' !in form && Key(other, form) == key { KeysApart(other, form, name, shape); }
        assert Holds(before, other, form) ==> IsLoaded(before, other, form);
      }
    }

    lemma PutHolds(
      before: Dict<string, map<string, M>>, after: Dict<string, map<string, M>>, name: string, shape: string, loaded: M)
      requires after == Put(before, name, (if name in before.items then before.items[name] else map[])[shape := loaded])
      ensures after.keys == if name in before.items then before.keys else before.keys + [name]
      ensures forall other: string :: other in after.items <==> other in before.items || other == name
      ensures forall other: string, form: string ::
                Holds(after, other, form) <==> Holds(before, other, form) || (other == name && form == shape)
      ensures forall other: string, form: string | Holds(after, other, form) ::
                after.items[other][form] ==
                if other == name && form == shape then loaded else before.items[other][form]
    {
    }
  }

  lemma NamesMore(keys: seq<string>, i: nat)
    requires i < |keys| && AreKeys(keys)
    ensures AreKeys(keys[..i + 1]) && AreKeys(keys[..i])
    ensures keys[..i + 1] == keys[..i] + [keys[i]]
    ensures
      var name := RSplit(keys[i]).0;
      var names := Unique(NamesOf(keys[..i]));
      Unique(NamesOf(keys[..i + 1])) == if name in names then names else names + [name]
  {
    var name := RSplit(keys[i]).0;
    assert keys[..i + 1] == keys[..i] + [keys[i]];
    assert NamesOf(keys[..i + 1]) == NamesOf(keys[..i]) + [name];
    hide Unique, NamesOf, RSplit;
    UniqueMore(NamesOf(keys[..i]), name);
  }

  lemma SplitKey(key: string)
    requires '_' in key
    ensures Key(RSplit(key).0, RSplit(key).1) == key && '_' !in RSplit(key).1
  {
  }

  lemma AllFound(log: seq<Entry>, hash: Bytes -> string, key: string)
    requires key in Hashes(log, hash).keys
    ensures Lookup(log, hash, key).Ok?
  {
    RunsKeepOrder(log, hash);
    HashIsOfLast(log, hash, key);
    LookupFinds(log, hash, key);
  }

  lemma SameSize<T>(a: set<T>, b: set<T>)
    requires a <= b && |a| == |b|
    ensures a == b
  {
    assert |b - a| == 0;
  }
}
