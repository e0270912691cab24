/** What the chunkdat mutators and accessors (src/filedat.cpp:661-1008) do
    to the tree a chunkdat holds, as functions from the old tree to the
    Outcome: the new tree, or the format_error thrown together with the
    tree as the exception leaves it. */
module Mutation {
  import opened Chunks
  import opened Text
  import opened Render

  /** strval() with its default arguments: no alignment, a tab as aligner.
      The mutators quote it as the data of their errors. */
  ghost function Shown(c: Chunk): string
  {
    Render.Render(c, 0, "\t")
  }

  /** A format_error of a mutator: no origin, no offset. */
  ghost function Fault(message: string, data: string): FormatError
  {
    FormatError(message, "", data, -1)
  }

  // ---------------------------------------------------------------------
  // Adding

  /** addToMap(name, val) */
  ghost function AddToMap(c: Chunk, name: string, val: Chunk): Outcome
  {
    match c
    case Map(m) =>
      if name in m then Failed(Fault("Key '" + name + "' already present", Shown(c)), c)
      else Done(Map(m[name := val]))
    case None => Done(Map(map[name := val]))
    case _ => Failed(Fault("Cannot add keys to non-map chunks", Shown(c)), c)
  }

  /** addToMap(vector): the pairs in order, stopping at the first error. */
  ghost function AddAllToMap(c: Chunk, vec: seq<(string, Chunk)>): Outcome
    decreases |vec|
  {
    if vec == [] then Done(c)
    else
      match AddToMap(c, vec[0].0, vec[0].1)
      case Failed(e, s) => Failed(e, s)
      case Done(s) => AddAllToMap(s, vec[1..])
  }

  /** addToList(val) */
  ghost function AddToList(c: Chunk, val: Chunk): Outcome
  {
    match c
    case List(l) => Done(List(l + [val]))
    case None => Done(List([val]))
    case _ => Failed(Fault("Cannot add elements to non-list chunks", Shown(c)), c)
  }

  /** addToList(vector) */
  ghost function AddAllToList(c: Chunk, vec: seq<Chunk>): Outcome
    decreases |vec|
  {
    if vec == [] then Done(c)
    else
      match AddToList(c, vec[0])
      case Failed(e, s) => Failed(e, s)
      case Done(s) => AddAllToList(s, vec[1..])
  }

  /** The entries of a map as std::map iterates them. */
  ghost function Pairs(m: map<string, Chunk>): (p: seq<(string, Chunk)>)
  {
    var ks := SortedKeys(m.Keys);
    seq(|ks|, i requires 0 <= i < |ks| => (ks[i], m[ks[i]]))
  }

  // ---------------------------------------------------------------------
  // Concatenating and merging

  /** concatenate(chk): a None target takes the other chunk; two maps add
      the other's entries in key order, two lists append, two strings are
      joined; any other pair of kinds throws. */
  ghost function Concat(c: Chunk, other: Chunk): Outcome
  {
    if c.None? then Done(other)
    else if c.Map? && other.Map? then AddAllToMap(c, Pairs(other.values))
    else if c.List? && other.List? then AddAllToList(c, other.items)
    else if c.Str? && other.Str? then Done(Str(c.val + other.val))
    else Failed(Fault("Cannot concatenate chunks of different types", ""), c)
  }

  /** merge(chk, overwrite) */
  ghost function Merge(c: Chunk, other: Chunk, overwrite: bool): Outcome
    decreases other, 1
  {
    if c.None? then Done(other)
    else if c.Map? && other.Map? then
      MergeEntries(c.values, other.values, SortedKeys(other.values.Keys), overwrite)
    else if c.List? && other.List? then AddAllToList(c, other.items)
    else if c.Str? && other.Str? then
      if overwrite then Done(Str(other.val)) else Failed(Fault("Cannot merge string chunks", ""), c)
    else if overwrite then Done(other)
    else Failed(Fault("Cannot merge chunks of different types", ""), c)
  }

  /** The map branch of merge over the keys `ks` of the other map: a new
      key is added, a shared one has its chunk merged in place. */
  ghost function MergeEntries(m: map<string, Chunk>, o: map<string, Chunk>, ks: seq<string>, overwrite: bool): Outcome
    requires forall k :: k in ks ==> k in o
    decreases Map(o), 0, |ks|
  {
    if ks == [] then Done(Map(m))
    else
      var k := ks[0];
      if k !in m then MergeEntries(m[k := o[k]], o, ks[1..], overwrite)
      else
        match Merge(m[k], o[k], overwrite)
        case Failed(e, s) => Failed(e, Map(m[k := s]))
        case Done(s) => MergeEntries(m[k := s], o, ks[1..], overwrite)
  }

  /** merge changes the trace of the chunk (offset and parent) exactly
      where it copies the other chunk whole, with set(chk). */
  predicate MergeCopies(c: Chunk, other: Chunk, overwrite: bool)
  {
    c.None? || (overwrite && !(c.Map? && other.Map?) && !(c.List? && other.List?) && !(c.Str? && other.Str?))
  }

  // ---------------------------------------------------------------------
  // Erasing

  /** erase(key) */
  ghost function EraseKey(c: Chunk, key: string): Outcome
  {
    match c
    case Map(m) =>
      if key in m then Done(Map(m - {key}))
      else Failed(Fault("Key '" + key + "' not present", Shown(c)), c)
    case _ => Failed(Fault("Cannot erase element from non-map chunk", Shown(c)), c)
  }

  /** erase(index) */
  ghost function EraseIndex(c: Chunk, index: nat): Outcome
  {
    match c
    case List(l) =>
      if index >= |l| then
        Failed(Fault("Cannot erase out of bonds: " + NatToString(index) + " in size " + NatToString(|l|), Shown(c)), c)
      else Done(List(l[..index] + l[index + 1..]))
    case _ => Failed(Fault("Cannot erase element from non-list chunk", Shown(c)), c)
  }

  // ---------------------------------------------------------------------
  // Accessors

  /** listSize() */
  function ListSize(c: Chunk): int
  {
    if c.List? then |c.items| else -1
  }

  /** subChunkPtr(key) */
  function SubChunkPtr(c: Chunk, key: string): Option<Chunk>
  {
    if c.Map? && key in c.values then Some(c.values[key]) else Nothing
  }

  /** subChunkPtr(index) */
  function SubChunkPtrAt(c: Chunk, index: nat): Option<Chunk>
  {
    if c.List? && index < |c.items| then Some(c.items[index]) else Nothing
  }

  /** Where a chunkdat was read from: its parent filedat (file path and
      imported text) and its offset in that text, or no parent. */
  datatype Trace = Detached | Attached(path: string, data: string, offset: int)

  /** The error of an accessor: located in the parent's text when there is
      one, otherwise quoting the chunk itself. */
  ghost function Located(message: string, c: Chunk, t: Trace): FormatError
  {
    match t
    case Detached => Fault(message, Shown(c))
    case Attached(path, data, offset) => FormatError(message, path, data, offset)
  }

  /** subChunkRef(key) */
  ghost function SubChunkRef(c: Chunk, key: string, t: Trace): Result<Chunk>
  {
    if !c.Map? then Err(Located("chunkdat isn't a map", c, t))
    else if key !in c.values then Err(Located("Map doesn't have '" + key + "' flag", c, t))
    else Ok(c.values[key])
  }

  /** subChunkRef(index) */
  ghost function SubChunkRefAt(c: Chunk, index: nat, t: Trace): Result<Chunk>
  {
    if !c.List? then Err(Located("chunkdat isn't a list", c, t))
    else if index >= |c.items| then Err(Located("List size is below " + NatToString(index), c, t))
    else Ok(c.items[index])
  }

  /** getlist() */
  ghost function GetList(c: Chunk, t: Trace): Result<seq<Chunk>>
  {
    if c.List? then Ok(c.items) else Err(Located("chunkdat isn't a list", c, t))
  }

  /** getmap() */
  ghost function GetMap(c: Chunk, t: Trace): Result<map<string, Chunk>>
  {
    if c.Map? then Ok(c.values) else Err(Located("chunkdat isn't a map", c, t))
  }
}
