/** What the chunkdat mutators promise: the kind rules, what a successful
    call leaves in the tree, what a failing call leaves behind, and how the
    operations undo each other. */
module MutationFacts {
  import opened Chunks
  import opened Mutation

  // ---------------------------------------------------------------------
  // Adding one entry or element

  /** A None chunk becomes a map with exactly one entry, or a list with
      exactly one element. */
  lemma {:induction false} AddToNone(name: string, val: Chunk)
    ensures AddToMap(None, name, val) == Done(Map(map[name := val]))
    ensures |AddToMap(None, name, val).state.values| == 1
    ensures AddToList(None, val) == Done(List([val]))
  {
  }

  /** Adding a key that is present throws and leaves the map as it was. */
  lemma {:induction false} AddExisting(m: map<string, Chunk>, name: string, val: Chunk)
    requires name in m
    ensures AddToMap(Map(m), name, val) ==
      Failed(FormatError("Key '" + name + "' already present", "", Shown(Map(m)), -1), Map(m))
  {
  }

  /** Adding a key succeeds exactly on None and on a map without that key;
      on a string or a list it throws and changes nothing. */
  lemma {:induction false} AddToMapKinds(c: Chunk, name: string, val: Chunk)
    ensures AddToMap(c, name, val).Done? <==> c.None? || (c.Map? && name !in c.values)
    ensures AddToMap(c, name, val).Failed? ==> AddToMap(c, name, val).state == c
    ensures c.Str? || c.List? ==>
      AddToMap(c, name, val).error == FormatError("Cannot add keys to non-map chunks", "", Shown(c), -1)
  {
  }

  /** Appending succeeds exactly on None and on a list. */
  lemma {:induction false} AddToListKinds(c: Chunk, val: Chunk)
    ensures AddToList(c, val).Done? <==> c.None? || c.List?
    ensures AddToList(c, val).Failed? ==>
      AddToList(c, val) == Failed(FormatError("Cannot add elements to non-list chunks", "", Shown(c), -1), c)
    ensures c.List? ==> AddToList(c, val).state.items == c.items + [val]
  {
  }

  // ---------------------------------------------------------------------
  // Adding several

  /** The keys of a vector of pairs. */
  ghost function KeysOf(vec: seq<(string, Chunk)>): set<string>
  {
    set i | 0 <= i < |vec| :: vec[i].0
  }

  /** No key of the vector is in the map, and no key appears twice. */
  predicate FreshKeys(m: map<string, Chunk>, vec: seq<(string, Chunk)>)
  {
    && (forall i :: 0 <= i < |vec| ==> vec[i].0 !in m)
    && (forall i, j :: 0 <= i < j < |vec| ==> vec[i].0 != vec[j].0)
  }

  /** `r` holds every entry of `m` unchanged. */
  predicate Keeps(m: map<string, Chunk>, r: map<string, Chunk>)
  {
    forall k :: k in m ==> k in r && r[k] == m[k]
  }

  lemma {:induction false} FreshKeysStep(m: map<string, Chunk>, vec: seq<(string, Chunk)>)
    requires vec != []
    ensures FreshKeys(m, vec) <==> vec[0].0 !in m && FreshKeys(m[vec[0].0 := vec[0].1], vec[1..])
  {
    var rest := vec[1..];
    var m' := m[vec[0].0 := vec[0].1];
    if FreshKeys(m, vec) {
      forall i | 0 <= i < |rest|
        ensures rest[i].0 !in m'
      {
        assert rest[i] == vec[i + 1];
      }
      forall i, j | 0 <= i < j < |rest|
        ensures rest[i].0 != rest[j].0
      {
        assert rest[i] == vec[i + 1] && rest[j] == vec[j + 1];
      }
    }
    if vec[0].0 !in m && FreshKeys(m', rest) {
      forall i | 0 <= i < |vec|
        ensures vec[i].0 !in m
      {
        if i > 0 {
          assert vec[i] == rest[i - 1];
        }
      }
      forall i, j | 0 <= i < j < |vec|
        ensures vec[i].0 != vec[j].0
      {
        assert vec[j] == rest[j - 1];
        if i > 0 {
          assert vec[i] == rest[i - 1];
        }
      }
    }
  }

  lemma {:induction false} KeysOfStep(vec: seq<(string, Chunk)>)
    requires vec != []
    ensures KeysOf(vec) == {vec[0].0} + KeysOf(vec[1..])
  {
    var rest := vec[1..];
    forall k | k in KeysOf(vec)
      ensures k in {vec[0].0} + KeysOf(rest)
    {
      var i :| 0 <= i < |vec| && vec[i].0 == k;
      if i > 0 {
        assert rest[i - 1] == vec[i];
      }
    }
    forall k | k in KeysOf(rest)
      ensures k in KeysOf(vec)
    {
      var i :| 0 <= i < |rest| && rest[i].0 == k;
      assert vec[i + 1] == rest[i];
    }
  }

  /** addToMap(vector) on a map: whatever happens, the map keeps its
      entries; it succeeds exactly when the keys are new and distinct, and
      then holds each pair of the vector besides. */
  lemma {:induction false} AddAllToMapFacts(m: map<string, Chunk>, vec: seq<(string, Chunk)>)
    ensures AddAllToMap(Map(m), vec).state.Map?
    ensures Keeps(m, AddAllToMap(Map(m), vec).state.values)
    ensures AddAllToMap(Map(m), vec).Done? <==> FreshKeys(m, vec)
    ensures AddAllToMap(Map(m), vec).Done? ==>
      && AddAllToMap(Map(m), vec).state.values.Keys == m.Keys + KeysOf(vec)
      && forall i :: 0 <= i < |vec| ==> AddAllToMap(Map(m), vec).state.values[vec[i].0] == vec[i].1
    decreases |vec|
  {
    if vec != [] {
      var (k, v) := vec[0];
      var rest := vec[1..];
      FreshKeysStep(m, vec);
      if k !in m {
        var m' := m[k := v];
        AddAllToMapFacts(m', rest);
        assert AddAllToMap(Map(m), vec) == AddAllToMap(Map(m'), rest);
        var r := AddAllToMap(Map(m'), rest).state.values;
        if AddAllToMap(Map(m), vec).Done? {
          KeysOfStep(vec);
          forall i | 0 <= i < |vec|
            ensures r[vec[i].0] == vec[i].1
          {
            if i > 0 {
              assert vec[i] == rest[i - 1];
            }
          }
        }
      }
    }
  }

  /** addToList(vector) on a list or None appends the whole vector. */
  lemma {:induction false} AddAllToListAppends(c: Chunk, vec: seq<Chunk>)
    requires c.List?
    ensures AddAllToList(c, vec) == Done(List(c.items + vec))
    decreases |vec|
  {
    if vec != [] {
      AddAllToListAppends(List(c.items + [vec[0]]), vec[1..]);
      assert c.items + [vec[0]] + vec[1..] == c.items + vec;
    }
  }

  /** ... and on a string or a map it throws at once, changing nothing. */
  lemma {:induction false} AddAllToListWrongKind(c: Chunk, vec: seq<Chunk>)
    requires c.Str? || c.Map?
    requires vec != []
    ensures AddAllToList(c, vec) == Failed(FormatError("Cannot add elements to non-list chunks", "", Shown(c), -1), c)
  {
  }

  // ---------------------------------------------------------------------
  // Concatenating

  /** std::map visits every key once. */
  lemma {:induction false} KeysOnce(s: set<string>)
    ensures forall i, j :: 0 <= i < j < |SortedKeys(s)| ==> SortedKeys(s)[i] != SortedKeys(s)[j]
    ensures (set k | k in SortedKeys(s)) == s
  {
    SortedKeysSorted(s);
    SortedDistinct(SortedKeys(s));
  }

  /** The entries std::map iterates are those of the map, each key once. */
  lemma {:induction false} PairsFacts(o: map<string, Chunk>)
    ensures KeysOf(Pairs(o)) == o.Keys
    ensures forall i :: 0 <= i < |Pairs(o)| ==> Pairs(o)[i].1 == o[Pairs(o)[i].0]
    ensures forall i, j :: 0 <= i < j < |Pairs(o)| ==> Pairs(o)[i].0 != Pairs(o)[j].0
  {
    var ks := SortedKeys(o.Keys);
    var p := Pairs(o);
    KeysOnce(o.Keys);
    forall k | k in o
      ensures k in KeysOf(p)
    {
      var i :| 0 <= i < |ks| && ks[i] == k;
      assert p[i].0 == k;
    }
  }

  /** Concatenating two maps succeeds exactly when their key sets are
      disjoint, and gives their union. */
  lemma {:induction false} ConcatMaps(m: map<string, Chunk>, o: map<string, Chunk>)
    ensures Concat(Map(m), Map(o)).Done? <==> m.Keys !! o.Keys
    ensures Concat(Map(m), Map(o)).Done? ==> Concat(Map(m), Map(o)).state == Map(m + o)
  {
    var p := Pairs(o);
    PairsFacts(o);
    AddAllToMapFacts(m, p);
    if m.Keys !! o.Keys {
      forall i | 0 <= i < |p|
        ensures p[i].0 !in m
      {
        assert p[i].0 in KeysOf(p);
      }
    }
    if FreshKeys(m, p) {
      forall k | k in o
        ensures k !in m
      {
        var i :| 0 <= i < |p| && p[i].0 == k;
      }
      var r := AddAllToMap(Map(m), p).state.values;
      forall k | k in o && k !in m
        ensures r[k] == o[k]
      {
        var i :| 0 <= i < |p| && p[i].0 == k;
      }
      UnionOf(m, o, r);
    }
  }

  /** When concatenating two maps throws, the exception leaves a map that
      kept all its entries and gained only entries of the other map. */
  lemma {:induction false} ConcatMapsPartial(m: map<string, Chunk>, o: map<string, Chunk>)
    ensures Concat(Map(m), Map(o)).state.Map?
    ensures Keeps(m, Concat(Map(m), Map(o)).state.values)
  {
    AddAllToMapFacts(m, Pairs(o));
  }

  /** The kind table of concatenate. */
  lemma {:induction false} ConcatKinds(c: Chunk, other: Chunk)
    ensures c.None? ==> Concat(c, other) == Done(other)
    ensures c.List? && other.List? ==> Concat(c, other) == Done(List(c.items + other.items))
    ensures c.Str? && other.Str? ==> Concat(c, other) == Done(Str(c.val + other.val))
    ensures !c.None? && KindOf(c) != KindOf(other) ==>
      Concat(c, other) == Failed(FormatError("Cannot concatenate chunks of different types", "", "", -1), c)
  {
    if c.List? && other.List? {
      AddAllToListAppends(c, other.items);
    }
  }

  // ---------------------------------------------------------------------
  // Merging

  /** The map branch of merge over distinct keys of the other map: it
      always leaves a map; when it succeeds the keys are those of both,
      an entry of one side only is taken as it is, and a shared entry is
      the merge of the two. */
  lemma {:induction false} MergeEntriesFacts(m: map<string, Chunk>, o: map<string, Chunk>, ks: seq<string>, overwrite: bool)
    requires forall k :: k in ks ==> k in o
    requires forall i, j :: 0 <= i < j < |ks| ==> ks[i] != ks[j]
    ensures MergeEntries(m, o, ks, overwrite).state.Map?
    ensures var r := MergeEntries(m, o, ks, overwrite);
      r.Done? ==>
        && r.state.values.Keys == m.Keys + (set k | k in ks)
        && (forall k :: k in m && k !in ks ==> r.state.values[k] == m[k])
        && (forall k :: k in ks && k !in m ==> r.state.values[k] == o[k])
        && (forall k :: k in ks && k in m ==> Merge(m[k], o[k], overwrite) == Done(r.state.values[k]))
    decreases |ks|
  {
    if ks != [] {
      var k := ks[0];
      var rest := ks[1..];
      assert forall i, j :: 0 <= i < j < |rest| ==> rest[i] != rest[j] by {
        forall i, j | 0 <= i < j < |rest|
          ensures rest[i] != rest[j]
        {
          assert rest[i] == ks[i + 1] && rest[j] == ks[j + 1];
        }
      }
      assert k !in rest by {
        forall i | 0 <= i < |rest|
          ensures rest[i] != k
        {
          assert rest[i] == ks[i + 1];
        }
      }
      assert forall j :: j in ks <==> j == k || j in rest;
      if k !in m {
        MergeEntriesFacts(m[k := o[k]], o, rest, overwrite);
      } else {
        var mk := Merge(m[k], o[k], overwrite);
        if mk.Done? {
          MergeEntriesFacts(m[k := mk.state], o, rest, overwrite);
        }
      }
    }
  }

  /** Merging two maps succeeds exactly as the merges of the shared
      entries do, and then yields the union in which every shared key
      holds the merge of its two chunks. */
  lemma {:induction false} MergeMaps(m: map<string, Chunk>, o: map<string, Chunk>, overwrite: bool)
    ensures Merge(Map(m), Map(o), overwrite).state.Map?
    ensures var r := Merge(Map(m), Map(o), overwrite);
      r.Done? ==>
        && r.state.values.Keys == m.Keys + o.Keys
        && (forall k :: k in m && k !in o ==> r.state.values[k] == m[k])
        && (forall k :: k in o && k !in m ==> r.state.values[k] == o[k])
        && (forall k :: k in m && k in o ==> Merge(m[k], o[k], overwrite) == Done(r.state.values[k]))
  {
    var ks := SortedKeys(o.Keys);
    KeysOnce(o.Keys);
    MergeEntriesFacts(m, o, ks, overwrite);
  }


  /** Two maps without a shared key merge into their union, whatever
      `overwrite` says. */
  lemma {:induction false} MergeDisjoint(m: map<string, Chunk>, o: map<string, Chunk>, overwrite: bool)
    requires m.Keys !! o.Keys
    ensures Merge(Map(m), Map(o), overwrite) == Done(Map(m + o))
  {
    KeysOnce(o.Keys);
    DisjointEntries(m, o, SortedKeys(o.Keys), overwrite);
    MergeMaps(m, o, overwrite);
    UnionOf(m, o, Merge(Map(m), Map(o), overwrite).state.values);
  }

  lemma {:induction false} UnionOf(m: map<string, Chunk>, o: map<string, Chunk>, r: map<string, Chunk>)
    requires m.Keys !! o.Keys && r.Keys == m.Keys + o.Keys
    requires forall k :: k in m && k !in o ==> r[k] == m[k]
    requires forall k :: k in o && k !in m ==> r[k] == o[k]
    ensures r == m + o
  {
  }

  lemma {:induction false} DisjointEntries(m: map<string, Chunk>, o: map<string, Chunk>, ks: seq<string>, overwrite: bool)
    requires forall k :: k in ks ==> k in o && k !in m
    requires forall i, j :: 0 <= i < j < |ks| ==> ks[i] != ks[j]
    ensures MergeEntries(m, o, ks, overwrite).Done?
    decreases |ks|
  {
    if ks != [] {
      var k := ks[0];
      var rest := ks[1..];
      forall j | j in rest
        ensures j in o && j !in m[k := o[k]]
      {
        var i :| 0 <= i < |rest| && rest[i] == j;
        assert ks[i + 1] == j;
      }
      forall i, j | 0 <= i < j < |rest|
        ensures rest[i] != rest[j]
      {
        assert rest[i] == ks[i + 1] && rest[j] == ks[j + 1];
      }
      DisjointEntries(m[k := o[k]], o, rest, overwrite);
    }
  }

  /** The kind table of merge: None adopts the other chunk, lists append,
      strings are replaced only with `overwrite`, and differing kinds are
      an error unless `overwrite` lets the other chunk replace this one. */
  lemma {:induction false} MergeKinds(c: Chunk, other: Chunk, overwrite: bool)
    ensures c.None? ==> Merge(c, other, overwrite) == Done(other)
    ensures c.List? && other.List? ==> Merge(c, other, overwrite) == Done(List(c.items + other.items))
    ensures c.Str? && other.Str? ==>
      Merge(c, other, overwrite) ==
        if overwrite then Done(other) else Failed(FormatError("Cannot merge string chunks", "", "", -1), c)
    ensures !c.None? && KindOf(c) != KindOf(other) ==>
      Merge(c, other, overwrite) ==
        if overwrite then Done(other) else Failed(FormatError("Cannot merge chunks of different types", "", "", -1), c)
  {
    if c.List? && other.List? {
      AddAllToListAppends(c, other.items);
    }
  }

  /** Merging a map into itself without `overwrite` fails as soon as it
      holds a string: a map is not a fixed point of merge. */
  lemma {:induction false} MergeSelfFails(m: map<string, Chunk>, k: string)
    requires k in m && m[k].Str?
    ensures Merge(Map(m), Map(m), false).Failed?
  {
    MergeMaps(m, m, false);
  }

  // ---------------------------------------------------------------------
  // Erasing

  /** erase(key) throws on a non-map or an absent key, changing nothing;
      otherwise it removes exactly that entry and keeps every other. */
  lemma {:induction false} EraseKeyExact(c: Chunk, key: string)
    ensures EraseKey(c, key).Done? <==> c.Map? && key in c.values
    ensures EraseKey(c, key).Failed? ==> EraseKey(c, key).state == c
    ensures EraseKey(c, key).Done? ==>
      && EraseKey(c, key).state.Map?
      && EraseKey(c, key).state.values.Keys == c.values.Keys - {key}
      && Keeps(EraseKey(c, key).state.values, c.values)
  {
  }

  /** erase(index) throws on a non-list or when `index` is not below
      listSize(), changing nothing; otherwise it removes exactly that
      element and keeps the others in their order. */
  lemma {:induction false} EraseIndexExact(c: Chunk, index: nat)
    ensures EraseIndex(c, index).Done? <==> index < ListSize(c)
    ensures EraseIndex(c, index).Failed? ==> EraseIndex(c, index).state == c
    ensures EraseIndex(c, index).Done? ==>
      var l := EraseIndex(c, index).state.items;
      && |l| == |c.items| - 1
      && (forall j :: 0 <= j < index ==> l[j] == c.items[j])
      && (forall j :: index <= j < |l| ==> l[j] == c.items[j + 1])
      && multiset(l) + multiset{c.items[index]} == multiset(c.items)
  {
    if EraseIndex(c, index).Done? {
      var l := c.items;
      assert l == l[..index] + [l[index]] + l[index + 1..];
    }
  }

  /** Erasing the key just added gives the map back. */
  lemma {:induction false} AddThenErase(m: map<string, Chunk>, name: string, val: Chunk)
    requires name !in m
    ensures AddToMap(Map(m), name, val).Done?
    ensures EraseKey(AddToMap(Map(m), name, val).state, name) == Done(Map(m))
  {
    assert m[name := val] - {name} == m;
  }

  /** Erasing the element just appended gives the list back. */
  lemma {:induction false} AppendThenErase(l: seq<Chunk>, val: Chunk)
    ensures EraseIndex(AddToList(List(l), val).state, |l|) == Done(List(l))
  {
    var l' := l + [val];
    assert l'[..|l|] + l'[|l| + 1..] == l;
  }

  /** Adding back an erased entry gives the map back. */
  lemma {:induction false} EraseThenAdd(m: map<string, Chunk>, key: string)
    requires key in m
    ensures AddToMap(EraseKey(Map(m), key).state, key, m[key]) == Done(Map(m))
  {
    assert (m - {key})[key := m[key]] == m;
  }

  // ---------------------------------------------------------------------
  // Accessors

  /** listSize() is -1 on any chunk but a list, the element count on a
      list. */
  lemma {:induction false} ListSizeKinds(c: Chunk)
    ensures ListSize(c) == -1 <==> !c.List?
    ensures c.List? ==> ListSize(c) == |c.items|
  {
  }

  /** subChunkPtr finds a child exactly when subChunkRef does not throw,
      and both yield the same child. */
  lemma {:induction false} PtrMatchesRef(c: Chunk, key: string, index: nat, t: Trace)
    ensures SubChunkPtr(c, key).Some? <==> SubChunkRef(c, key, t).Ok?
    ensures SubChunkPtr(c, key).Some? ==> SubChunkPtr(c, key).value == SubChunkRef(c, key, t).value
    ensures SubChunkPtrAt(c, index).Some? <==> SubChunkRefAt(c, index, t).Ok?
    ensures SubChunkPtrAt(c, index).Some? ==> SubChunkPtrAt(c, index).value == SubChunkRefAt(c, index, t).value
  {
  }

  /** subChunkPtr(index) finds a child exactly for the indices below
      listSize(). */
  lemma {:induction false} PtrAtInRange(c: Chunk, index: nat)
    ensures SubChunkPtrAt(c, index).Some? <==> index < ListSize(c)
  {
  }

  /** An added entry can be looked up, and an erased one no more. */
  lemma {:induction false} AddedFound(m: map<string, Chunk>, name: string, val: Chunk, key: string)
    requires name !in m
    ensures SubChunkPtr(AddToMap(Map(m), name, val).state, name) == Some(val)
    ensures key in m ==> SubChunkPtr(EraseKey(Map(m), key).state, key) == Nothing
  {
  }
}
