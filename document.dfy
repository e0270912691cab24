/** The objects of the chunk data format: chunkdat, which owns a tree of
    chunks and changes it in place, and filedat, which holds the imported
    text and the tree parsed from it. Every method that changes a tree is
    proved to leave exactly the tree (and error) that the functions of
    module Mutation describe. */
module Documents {
  import opened Chunks
  import opened Text
  import opened Render
  import opened Comments
  import opened Parser
  import opened Mutation

  /** The Outcome of a call that left `c` behind and threw `err`, if any. */
  function Settled(c: Chunk, err: Option<FormatError>): Outcome
  {
    if err.Some? then Failed(err.value, c) else Done(c)
  }

  /** A structural copy of a chunk tree (chunkdat::set(chunkdat const&),
      src/filedat.cpp:623-659, with pcopy for every child). */
  method CopyChunk(c: Chunk) returns (r: Chunk)
    ensures r == c
    decreases c
  {
    match c {
      case None =>
        r := None;
      case Str(v) =>
        r := Str(v);
      case Map(m) =>
        r := CopyMap(m);
      case List(l) =>
        r := CopyList(l);
    }
  }

  method CopyMap(m: map<string, Chunk>) returns (r: Chunk)
    ensures r == Map(m)
    decreases Map(m), 0
  {
    var rest := KeysInOrder(m.Keys);
    var values: map<string, Chunk> := map[];
    while rest != []
      invariant forall k :: k in m ==> k in values || k in rest
      invariant forall k :: k in rest ==> k in m
      invariant forall k :: k in values ==> k in m && values[k] == m[k]
    {
      var k := rest[0];
      var child := CopyChunk(m[k]);
      values := values[k := child];
      rest := rest[1..];
    }
    r := Map(values);
  }

  method CopyList(l: seq<Chunk>) returns (r: Chunk)
    ensures r == List(l)
    decreases List(l), 0
  {
    var items: seq<Chunk> := [];
    var i := 0;
    while i < |l|
      invariant i <= |l|
      invariant items == l[..i]
    {
      var child := CopyChunk(l[i]);
      items := items + [child];
      i := i + 1;
    }
    r := List(items);
  }

  /** merge on chunk values: the source merges the chunk of a shared key by
      calling merge on that child in place. */
  method MergeChunk(c: Chunk, other: Chunk, overwrite: bool) returns (o: Outcome)
    ensures o == Merge(c, other, overwrite)
    decreases other, 1
  {
    if c.None? {
      var copy := CopyChunk(other);
      return Done(copy);
    } else if c.Map? && other.Map? {
      o := MergeMap(c.values, other.values, overwrite);
    } else if c.List? && other.List? {
      var items := c.items;
      var i := 0;
      while i < |other.items|
        invariant i <= |other.items|
        invariant AddAllToList(List(items), other.items[i..]) == AddAllToList(c, other.items)
      {
        var child := CopyChunk(other.items[i]);
        assert other.items[i..][1..] == other.items[i + 1..];
        items := items + [child];
        i := i + 1;
      }
      return Done(List(items));
    } else if c.Str? && other.Str? {
      if overwrite {
        return Done(Str(other.val));
      }
      return Failed(FormatError("Cannot merge string chunks", "", "", -1), c);
    } else if overwrite {
      var copy := CopyChunk(other);
      return Done(copy);
    } else {
      return Failed(FormatError("Cannot merge chunks of different types", "", "", -1), c);
    }
  }

  /** The map branch of merge: the other map's keys in order, each added
      when new and merged into the present chunk otherwise. */
  method MergeMap(m: map<string, Chunk>, o: map<string, Chunk>, overwrite: bool) returns (r: Outcome)
    ensures r == Merge(Map(m), Map(o), overwrite)
    decreases Map(o), 0
  {
    var ks := KeysInOrder(o.Keys);
    var values := m;
    var i := 0;
    while i < |ks|
      invariant i <= |ks|
      invariant MergeEntries(values, o, ks[i..], overwrite) == MergeEntries(m, o, ks, overwrite)
    {
      var k := ks[i];
      MergeEntriesStep(values, o, ks, i, overwrite);
      if k !in values {
        var child := CopyChunk(o[k]);
        values := values[k := child];
      } else {
        var sub := MergeChunk(values[k], o[k], overwrite);
        if sub.Failed? {
          return Failed(sub.error, Map(values[k := sub.state]));
        }
        values := values[k := sub.state];
      }
      i := i + 1;
    }
    return Done(Map(values));
  }

  /** One key of the map branch of merge. */
  lemma {:induction false} MergeEntriesStep(values: map<string, Chunk>, o: map<string, Chunk>, ks: seq<string>, i: nat, overwrite: bool)
    requires i < |ks| && forall k :: k in ks ==> k in o
    ensures var k := ks[i];
      MergeEntries(values, o, ks[i..], overwrite) ==
        if k !in values then MergeEntries(values[k := o[k]], o, ks[i + 1..], overwrite)
        else
          match Merge(values[k], o[k], overwrite)
          case Failed(e, s) => Failed(e, Map(values[k := s]))
          case Done(s) => MergeEntries(values[k := s], o, ks[i + 1..], overwrite)
  {
    assert ks[i..][1..] == ks[i + 1..];
  }

  /** chunkdat: a tree of chunks (m_achunk, None when null), the offset it
      was read at and the filedat it was read from. */
  class ChunkDat {
    var value: Chunk
    var offset: int
    var parent: FileDat?

    /** chunkdat() */
    constructor ()
      ensures value == None && offset == 0 && parent == null
    {
      value := None;
      offset := 0;
      parent := null;
    }

    /** chunkdat(chunkdat const&): a deep copy, with the other's trace. */
    constructor Copy(other: ChunkDat)
      ensures value == other.value && offset == other.offset && parent == other.parent
    {
      var v := CopyChunk(other.value);
      value := v;
      offset := other.offset;
      parent := other.parent;
    }

    /** chunkdat(string, offset, parent): a chunk parsed from `input`, or
        the format_error the parse threw (and no object). */
    static method FromText(input: string, at: int, from: FileDat?) returns (c: ChunkDat?, err: Option<FormatError>)
      ensures c == null <==> err.Some?
      ensures err.Some? <==> SetOutcome(input).Failed?
      ensures SetOutcome(input).Failed? ==> err == Some(SetOutcome(input).error)
      ensures c != null ==>
        fresh(c) && SetOutcome(input) == Done(c.value) && c.offset == at && c.parent == from
    {
      var o := ParseText(input);
      if o.Failed? {
        return null, Some(o.error);
      }
      c := new ChunkDat();
      c.value, c.offset, c.parent := o.state, at, from;
      err := Nothing;
    }

    /** set(string, offset, parent): the tree is replaced by the one parsed
        from `input`; when the parse throws, by what it had built so far. */
    method Set(input: string, at: int, from: FileDat?) returns (err: Option<FormatError>)
      modifies this
      ensures Settled(value, err) == SetOutcome(input)
      ensures offset == at && parent == from
    {
      value := None;
      parent := from;
      offset := at;
      var o := ParseText(input);
      value := o.state;
      err := if o.Failed? then Some(o.error) else Nothing;
    }

    /** set(chunkdat const&): clears this chunk, takes the other's trace,
        then copies the other's tree — which is already gone when the other
        is this chunk itself. */
    method CopyFrom(other: ChunkDat)
      modifies this
      ensures value == (if other == this then None else old(other.value))
      ensures offset == old(other.offset) && parent == old(other.parent)
    {
      value := None;
      offset := other.offset;
      parent := other.parent;
      var v := CopyChunk(other.value);
      value := v;
    }

    /** clear(): the tree is dropped, the trace is kept. */
    method Clear()
      modifies this
      ensures value == None && offset == old(offset) && parent == old(parent)
    {
      value := None;
    }

    /** type() */
    function Type(): (k: Kind)
      reads this
      ensures k == KindOf(value)
    {
      KindOf(value)
    }

    /** listSize() */
    function ListSize(): (n: int)
      reads this
      ensures n == Mutation.ListSize(value)
    {
      if value.List? then |value.items| else -1
    }

    /** Where accessor errors point to: the parent's file and text at this
        chunk's offset, when there is a parent. */
    function TraceOf(): Trace
      reads this, parent
    {
      if parent == null then Detached else Attached(parent.path, parent.data, offset)
    }

    /** strval(alignment, aligner) */
    method StrVal(alignment: nat, aligner: string) returns (s: string)
      ensures s == Render.Render(value, alignment, aligner)
    {
      s := Render.StrVal(value, alignment, aligner);
    }

    /** addToMap(name, val) */
    method AddToMap(name: string, val: Chunk) returns (err: Option<FormatError>)
      modifies this
      ensures Settled(value, err) == Mutation.AddToMap(old(value), name, val)
      ensures offset == old(offset) && parent == old(parent)
    {
      if value.Map? {
        var m := value.values;
        var child := CopyChunk(val);
        if name in m {
          var data := StrVal(0, "\t");
          return Some(FormatError("Key '" + name + "' already present", "", data, -1));
        }
        value := Map(m[name := child]);
        err := Nothing;
      } else if value.None? {
        var child := CopyChunk(val);
        value := Map(map[name := child]);
        err := Nothing;
      } else {
        var data := StrVal(0, "\t");
        err := Some(FormatError("Cannot add keys to non-map chunks", "", data, -1));
      }
    }

    /** addToMap(vector): one addToMap per pair, in order; the first error
        escapes with the pairs before it added. */
    method AddAllToMap(vec: seq<(string, Chunk)>) returns (err: Option<FormatError>)
      modifies this
      ensures Settled(value, err) == Mutation.AddAllToMap(old(value), vec)
      ensures offset == old(offset) && parent == old(parent)
    {
      var i := 0;
      while i < |vec|
        invariant i <= |vec|
        invariant Mutation.AddAllToMap(value, vec[i..]) == Mutation.AddAllToMap(old(value), vec)
        invariant offset == old(offset) && parent == old(parent)
      {
        assert vec[i..][1..] == vec[i + 1..];
        err := AddToMap(vec[i].0, vec[i].1);
        if err.Some? {
          return;
        }
        i := i + 1;
      }
      err := Nothing;
    }

    /** addToList(val) */
    method AddToList(val: Chunk) returns (err: Option<FormatError>)
      modifies this
      ensures Settled(value, err) == Mutation.AddToList(old(value), val)
      ensures offset == old(offset) && parent == old(parent)
    {
      if value.List? {
        var child := CopyChunk(val);
        value := List(value.items + [child]);
        err := Nothing;
      } else if value.None? {
        var child := CopyChunk(val);
        value := List([child]);
        err := Nothing;
      } else {
        var data := StrVal(0, "\t");
        err := Some(FormatError("Cannot add elements to non-list chunks", "", data, -1));
      }
    }

    /** addToList(vector) */
    method AddAllToList(vec: seq<Chunk>) returns (err: Option<FormatError>)
      modifies this
      ensures Settled(value, err) == Mutation.AddAllToList(old(value), vec)
      ensures offset == old(offset) && parent == old(parent)
    {
      var i := 0;
      while i < |vec|
        invariant i <= |vec|
        invariant Mutation.AddAllToList(value, vec[i..]) == Mutation.AddAllToList(old(value), vec)
        invariant offset == old(offset) && parent == old(parent)
      {
        assert vec[i..][1..] == vec[i + 1..];
        err := AddToList(vec[i]);
        if err.Some? {
          return;
        }
        i := i + 1;
      }
      err := Nothing;
    }

    /** concatenate(chk). A None chunk takes a copy of the other one, trace
        included. */
    method Concatenate(other: ChunkDat) returns (err: Option<FormatError>)
      modifies this
      ensures Settled(value, err) == Concat(old(value), old(other.value))
      ensures old(value).None? ==> offset == old(other.offset) && parent == old(other.parent)
      ensures !old(value).None? ==> offset == old(offset) && parent == old(parent)
    {
      var o := other.value;
      if value.None? {
        CopyFrom(other);
        err := Nothing;
      } else if value.Map? && o.Map? {
        var ks := KeysInOrder(o.values.Keys);
        ghost var pairs := Pairs(o.values);
        var i := 0;
        while i < |ks|
          invariant i <= |ks| == |pairs|
          invariant Mutation.AddAllToMap(value, pairs[i..]) == Mutation.AddAllToMap(old(value), pairs)
          invariant offset == old(offset) && parent == old(parent)
        {
          assert pairs[i..][1..] == pairs[i + 1..];
          assert pairs[i] == (ks[i], o.values[ks[i]]);
          err := AddToMap(ks[i], o.values[ks[i]]);
          if err.Some? {
            return;
          }
          i := i + 1;
        }
        err := Nothing;
      } else if value.List? && o.List? {
        var i := 0;
        while i < |o.items|
          invariant i <= |o.items|
          invariant Mutation.AddAllToList(value, o.items[i..]) == Mutation.AddAllToList(old(value), o.items)
          invariant offset == old(offset) && parent == old(parent)
          invariant value.List?
        {
          assert o.items[i..][1..] == o.items[i + 1..];
          err := AddToList(o.items[i]);
          i := i + 1;
        }
        err := Nothing;
      } else if value.Str? && o.Str? {
        value := Str(value.val + o.val);
        err := Nothing;
      } else {
        err := Some(FormatError("Cannot concatenate chunks of different types", "", "", -1));
      }
    }

    /** merge(chk, overwrite). Where the other chunk replaces this one whole
        (a None target, or differing kinds with `overwrite`), its trace is
        taken too. */
    method Merge(other: ChunkDat, overwrite: bool) returns (err: Option<FormatError>)
      modifies this
      ensures Settled(value, err) == Mutation.Merge(old(value), old(other.value), overwrite)
      ensures MergeCopies(old(value), old(other.value), overwrite) ==>
        offset == old(other.offset) && parent == old(other.parent)
      ensures !MergeCopies(old(value), old(other.value), overwrite) ==>
        offset == old(offset) && parent == old(parent)
    {
      if MergeCopies(value, other.value, overwrite) {
        assert Mutation.Merge(value, other.value, overwrite) == Done(other.value);
        CopyFrom(other);
        err := Nothing;
      } else {
        var o := MergeChunk(value, other.value, overwrite);
        value := o.state;
        err := if o.Failed? then Some(o.error) else Nothing;
      }
    }

    /** erase(key) */
    method EraseKey(key: string) returns (err: Option<FormatError>)
      modifies this
      ensures Settled(value, err) == Mutation.EraseKey(old(value), key)
      ensures offset == old(offset) && parent == old(parent)
    {
      if value.Map? {
        if key !in value.values {
          var data := StrVal(0, "\t");
          return Some(FormatError("Key '" + key + "' not present", "", data, -1));
        }
        value := Map(value.values - {key});
        err := Nothing;
      } else {
        var data := StrVal(0, "\t");
        err := Some(FormatError("Cannot erase element from non-map chunk", "", data, -1));
      }
    }

    /** erase(index) */
    method EraseIndex(index: nat) returns (err: Option<FormatError>)
      modifies this
      ensures Settled(value, err) == Mutation.EraseIndex(old(value), index)
      ensures offset == old(offset) && parent == old(parent)
    {
      if value.List? {
        var size := ListSize();
        if index >= size {
          var data := StrVal(0, "\t");
          return Some(FormatError("Cannot erase out of bonds: " + NatToString(index) + " in size " + NatToString(size), "", data, -1));
        }
        var l := value.items;
        value := List(l[..index] + l[index + 1..]);
        err := Nothing;
      } else {
        var data := StrVal(0, "\t");
        err := Some(FormatError("Cannot erase element from non-list chunk", "", data, -1));
      }
    }

    /** The error of an accessor. */
    method Locate(message: string) returns (e: FormatError)
      ensures e == Located(message, value, TraceOf())
    {
      if parent != null {
        return FormatError(message, parent.path, parent.data, offset);
      }
      var data := StrVal(0, "\t");
      e := FormatError(message, "", data, -1);
    }

    /** getlist() */
    method GetList() returns (r: Result<seq<Chunk>>)
      ensures r == Mutation.GetList(value, TraceOf())
    {
      if !value.List? {
        var e := Locate("chunkdat isn't a list");
        return Err(e);
      }
      r := Ok(value.items);
    }

    /** getmap() */
    method GetMap() returns (r: Result<map<string, Chunk>>)
      ensures r == Mutation.GetMap(value, TraceOf())
    {
      if !value.Map? {
        var e := Locate("chunkdat isn't a map");
        return Err(e);
      }
      r := Ok(value.values);
    }

    /** subChunkPtr(key) */
    function SubChunkPtr(key: string): (p: Option<Chunk>)
      reads this
      ensures p == Mutation.SubChunkPtr(value, key)
    {
      if value.Map? && key in value.values then Some(value.values[key]) else Nothing
    }

    /** subChunkPtr(index) */
    function SubChunkPtrAt(index: nat): (p: Option<Chunk>)
      reads this
      ensures p == Mutation.SubChunkPtrAt(value, index)
    {
      if value.List? && index < |value.items| then Some(value.items[index]) else Nothing
    }

    /** subChunkRef(key), and operator[] with a key */
    method SubChunkRef(key: string) returns (r: Result<Chunk>)
      ensures r == Mutation.SubChunkRef(value, key, TraceOf())
    {
      if !value.Map? {
        var e := Locate("chunkdat isn't a map");
        return Err(e);
      }
      if key !in value.values {
        var e := Locate("Map doesn't have '" + key + "' flag");
        return Err(e);
      }
      r := Ok(value.values[key]);
    }

    /** subChunkRef(index), and operator[] with an index */
    method SubChunkRefAt(index: nat) returns (r: Result<Chunk>)
      ensures r == Mutation.SubChunkRefAt(value, index, TraceOf())
    {
      if !value.List? {
        var e := Locate("chunkdat isn't a list");
        return Err(e);
      }
      if index >= |value.items| {
        var e := Locate("List size is below " + NatToString(index));
        return Err(e);
      }
      r := Ok(value.items[index]);
    }
  }

  // -----------------------------------------------------------------------
  // The copying operators: the left operand is copied, the copy changed.

  /** operator+(chunkdat, pair) */
  method PlusPair(a: ChunkDat, name: string, val: Chunk) returns (ret: ChunkDat, err: Option<FormatError>)
    ensures fresh(ret)
    ensures Settled(ret.value, err) == Mutation.AddToMap(a.value, name, val)
    ensures ret.offset == a.offset && ret.parent == a.parent
  {
    ret := new ChunkDat.Copy(a);
    err := ret.AddToMap(name, val);
  }

  /** operator+(chunkdat, vector of pairs) */
  method PlusPairs(a: ChunkDat, vec: seq<(string, Chunk)>) returns (ret: ChunkDat, err: Option<FormatError>)
    ensures fresh(ret)
    ensures Settled(ret.value, err) == Mutation.AddAllToMap(a.value, vec)
    ensures ret.offset == a.offset && ret.parent == a.parent
  {
    ret := new ChunkDat.Copy(a);
    err := ret.AddAllToMap(vec);
  }

  /** operator+(chunkdat, chunkdat) */
  method PlusChunk(a: ChunkDat, val: Chunk) returns (ret: ChunkDat, err: Option<FormatError>)
    ensures fresh(ret)
    ensures Settled(ret.value, err) == Mutation.AddToList(a.value, val)
    ensures ret.offset == a.offset && ret.parent == a.parent
  {
    ret := new ChunkDat.Copy(a);
    err := ret.AddToList(val);
  }

  /** operator+(chunkdat, vector of chunkdat) */
  method PlusChunks(a: ChunkDat, vec: seq<Chunk>) returns (ret: ChunkDat, err: Option<FormatError>)
    ensures fresh(ret)
    ensures Settled(ret.value, err) == Mutation.AddAllToList(a.value, vec)
    ensures ret.offset == a.offset && ret.parent == a.parent
  {
    ret := new ChunkDat.Copy(a);
    err := ret.AddAllToList(vec);
  }

  /** operator*(chunkdat, chunkdat) */
  method Times(a: ChunkDat, b: ChunkDat) returns (ret: ChunkDat, err: Option<FormatError>)
    ensures fresh(ret)
    ensures Settled(ret.value, err) == Concat(a.value, b.value)
    ensures a.value.None? ==> ret.offset == b.offset && ret.parent == b.parent
    ensures !a.value.None? ==> ret.offset == a.offset && ret.parent == a.parent
  {
    ret := new ChunkDat.Copy(a);
    err := ret.Concatenate(b);
  }

  /** operator-(chunkdat, key) */
  method MinusKey(a: ChunkDat, key: string) returns (ret: ChunkDat, err: Option<FormatError>)
    ensures fresh(ret)
    ensures Settled(ret.value, err) == Mutation.EraseKey(a.value, key)
    ensures ret.offset == a.offset && ret.parent == a.parent
  {
    ret := new ChunkDat.Copy(a);
    err := ret.EraseKey(key);
  }

  /** operator-(chunkdat, index) */
  method MinusIndex(a: ChunkDat, index: nat) returns (ret: ChunkDat, err: Option<FormatError>)
    ensures fresh(ret)
    ensures Settled(ret.value, err) == Mutation.EraseIndex(a.value, index)
    ensures ret.offset == a.offset && ret.parent == a.parent
  {
    ret := new ChunkDat.Copy(a);
    err := ret.EraseIndex(index);
  }

  // -----------------------------------------------------------------------
  // filedat

  /** filedat: the file path, the imported text (m_data) and the tree parsed
      from it (m_dataChunk, null after a failed parse). */
  class FileDat {
    var path: string
    var data: string
    var root: ChunkDat?

    /** filedat() */
    constructor ()
      ensures path == "" && data == ""
      ensures root != null && fresh(root) && root.value == None && root.offset == 0 && root.parent == null
    {
      path := "";
      data := "";
      root := new ChunkDat();
    }

    /** filedat(path) */
    constructor WithPath(p: string)
      ensures path == p && data == ""
      ensures root != null && fresh(root) && root.value == None && root.offset == 0 && root.parent == null
    {
      path := p;
      data := "";
      root := new ChunkDat();
    }

    /** What generateChunk leaves after working on the text `src`: the
        comments stripped and the result parsed without a parent; an error
        of either step is rethrown with this file's path and the text as it
        was when it was thrown, and leaves no tree. */
    ghost predicate Generated(src: string, err: Option<FormatError>)
      reads this, root
    {
      match Strip(src)
      case Err(e) =>
        root == null && data == src && err == Some(FormatError(e.message, path, src, e.where))
      case Ok(t) =>
        data == t &&
        match SetOutcome(t)
        case Done(c) => err == Nothing && root != null && root.value == c && root.offset == 0 && root.parent == null
        case Failed(e, _) => root == null && err == Some(FormatError(e.message, path, t, e.where))
    }

    /** generateChunk() */
    method GenerateChunk() returns (err: Option<FormatError>)
      modifies this
      ensures path == old(path)
      ensures Generated(old(data), err)
      ensures root != null ==> fresh(root)
    {
      root := null;
      var stripped := RemoveComments(data);
      if stripped.Err? {
        return Some(FormatError(stripped.error.message, path, data, stripped.error.where));
      }
      data := stripped.value;
      var c, e := ChunkDat.FromText(data, 0, null);
      if e.Some? {
        return Some(FormatError(e.value.message, path, data, e.value.where));
      }
      root := c;
      err := Nothing;
    }

    /** clear(): the text is emptied; a present tree is replaced by an
        empty chunk. */
    method Clear()
      modifies this
      ensures path == old(path) && data == ""
      ensures old(root) == null ==> root == null
      ensures old(root) != null ==>
        root != null && fresh(root) && root.value == None && root.offset == 0 && root.parent == null
    {
      data := "";
      if root != null {
        root := new ChunkDat();
      }
    }

    /** import_string(text) */
    method ImportString(text: string) returns (err: Option<FormatError>)
      modifies this
      ensures path == ""
      ensures Generated(text, err)
      ensures root != null ==> fresh(root)
    {
      Clear();
      data := text;
      path := "";
      err := GenerateChunk();
    }

    /** strval(aligner): empty when there is no tree. */
    method StrVal(aligner: string) returns (s: string)
      ensures s == if root == null then "" else Render.Render(root.value, 0, aligner)
    {
      if root == null {
        return "";
      }
      s := root.StrVal(0, aligner);
    }
  }
}
