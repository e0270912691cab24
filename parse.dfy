/** The key/value splitter _getkeyval (src/filedat.cpp:438-492) and the
    recursive parser chunkdat::set(string, offset, parent)
    (src/filedat.cpp:494-621), which turns a text into a tree of chunks. */
module Parser {
  import opened Chunks
  import opened Text
  import opened Segments
  import opened SegmentFacts

  /** What _getkeyval returns: key, value, rest, start of the rest, start
      of the value and start of the key. As in the source, the start of the
      value is counted from the text after the `=`, not from the input. */
  datatype KeyValue = KeyValue(key: string, value: string, rest: string, restAt: int, valStart: int, keyStart: int)

  /** _getkeyval(input) */
  function KeyVal(input: string): (r: Result<KeyValue>)
    ensures r.Ok? ==> |r.value.value| <= |input| && (r.value.rest != "" ==> |r.value.rest| < |input|)
  {
    SegmentSize(input, '=', '\0');
    var k :- Segment(input, '=', '\0');
    if |k.val| > 0 && k.val[0] == ';' then
      Ok(KeyValue("", "", k.val[1..] + k.rest, k.start + 1, -1, -1))
    else if k.val == "" && !Blank(k.rest) then
      Err(FormatError("Value has no Key", "", input, Find(input, (k.restAt % 256) as char, 0)))
    else if k.val != "" && !k.found then
      Err(FormatError("Key '" + k.val + "' has no value", "", input, k.start + |k.val|))
    else
      SegmentSize(k.rest, ';', '\n');
      var v :- Segment(k.rest, ';', '\n');
      Ok(KeyValue(k.val, v.val, v.rest, k.restAt + v.restAt, v.start, k.start))
  }

  /** chunkdat::set(input): the chunk the object holds afterwards, and the
      error if the text does not parse. A value that starts with `{` or
      `[` is a map or a list; any other non-empty value keeps the whole
      text verbatim. */
  function SetOutcome(input: string): Outcome
    decreases |input|, 3
  {
    match Segment(input, '\0', '\0')
    case Err(e) => Failed(e, None)
    case Ok(g) =>
      SegmentSize(input, '\0', '\0');
      if g.val == "" then Done(Str(""))
      else if g.val[0] == '{' || g.val[0] == '[' then Group(input, g)
      else Done(Str(input))
  }

  /** A value that starts with `{` or `[`: nothing printable may follow
      it; the text between the first and the last character is the body. */
  function Group(input: string, g: Seg): Outcome
    requires 0 < |g.val| <= |input|
    decreases |input|, 2
  {
    if !Blank(g.rest) then
      Failed(FormatError("Unexpected char", "", input, g.restAt + FirstRead(g.rest, 0)), None)
    else
      var body := if |g.val| >= 2 then g.val[1..|g.val| - 1] else "";
      Body(input, body, g.start + 1, g.val[0] == '{')
  }

  /** The body of a map or list, starting at offset `i` of `input`. */
  function Body(input: string, body: string, i: int, isMap: bool): Outcome
    requires |body| < |input|
    decreases |input|, 1, |body| + 1
  {
    if isMap then
      if Blank(body) then Done(Map(map[])) else Entries(input, body, i, map[])
    else
      if Blank(body) then Done(List([])) else Items(input, body, i, [])
  }

  /** Where one round of the map loop leaves it: the loop ends with an
      outcome, or goes on with the rest of the body, its offset and the
      entries inserted so far. */
  datatype Round = Stop(outcome: Outcome) | Next(rest: string, at: int, acc: map<string, Chunk>)

  /** The do-while loop over the entries of a map body `str`, which starts
      at offset `i` of `input`; `acc` holds the entries inserted so far. */
  function Entries(input: string, str: string, i: int, acc: map<string, Chunk>): Outcome
    requires |str| < |input|
    decreases |input|, 1, |str|, 1
  {
    match EntryRound(input, str, i, acc)
    case Stop(o) => o
    case Next(rest, at, acc') => Entries(input, rest, at, acc')
  }

  /** One round of the map loop: a `=` with no key before it is an error;
      otherwise the next key/value pair is read and inserted, and the loop
      ends after the last pair. */
  function EntryRound(input: string, str: string, i: int, acc: map<string, Chunk>): (r: Round)
    requires |str| < |input|
    ensures r.Next? ==> |r.rest| < |str|
    decreases |input|, 1, |str|, 0
  {
    var p := FirstRead(str, 0);
    if At(str, p) == '=' then Stop(Failed(FormatError("Value has no key", "", input, i + p), Map(acc)))
    else
      match KeyVal(str)
      case Err(e) => Stop(Failed(FormatError(e.message, e.origin, input, i + e.where), Map(acc)))
      case Ok(kv) =>
        match Insert(input, kv, i, acc)
        case Err(e) => Stop(Failed(e, Map(acc)))
        case Ok(acc') =>
          if kv.rest == "" then Stop(Done(Map(acc')))
          else Next(kv.rest, i + kv.restAt, acc')
  }

  /** The insertion step of the map loop: a non-empty key gets the chunk
      its value parses to, unless the key is already present, which is an
      error at the start of the key; an empty key inserts nothing. */
  function Insert(input: string, kv: KeyValue, i: int, acc: map<string, Chunk>): Result<map<string, Chunk>>
    requires |kv.value| < |input|
    decreases |input|, 0
  {
    var valstart := i + kv.valStart;
    var keystart := i + kv.keyStart;
    if kv.key == "" then Ok(acc)
    else
      var child := SetOutcome(kv.value);
      if child.Failed? then
        Err(FormatError(child.error.message, "", input, child.error.where + valstart))
      else if kv.key in acc then
        Err(FormatError("Key '" + kv.key + "' already present", "", input, keystart))
      else Ok(acc[kv.key := child.state])
  }

  /** The insertion step as the source writes it: the duplicate-key error
      is thrown inside the try block whose handler rethrows child errors,
      so the start of the value is added to its offset a second time. */
  function InsertAsWritten(input: string, kv: KeyValue, i: int, acc: map<string, Chunk>): (r: Result<map<string, Chunk>>)
    requires |kv.value| < |input|
    ensures r.Err? ==> r.error.data == input && r.error.origin == ""
    ensures r.Ok? ==> r == Insert(input, kv, i, acc)
  {
    var valstart := i + kv.valStart;
    var keystart := i + kv.keyStart;
    if kv.key == "" then Ok(acc)
    else
      var child := SetOutcome(kv.value);
      if child.Failed? then
        Err(FormatError(child.error.message, "", input, child.error.where + valstart))
      else if kv.key in acc then
        Err(FormatError("Key '" + kv.key + "' already present", "", input, keystart + valstart))
      else Ok(acc[kv.key := child.state])
  }

  /** The do-while loop over the elements of a list body `str`, which
      starts at offset `i` of `input`; `acc` holds the elements so far. */
  function Items(input: string, str: string, i: int, acc: seq<Chunk>): Outcome
    requires |str| < |input|
    decreases |input|, 1, |str|
  {
    SegmentSize(str, ',', ';');
    match Segment(str, ',', ';')
    case Err(e) => Failed(FormatError(e.message, e.origin, input, e.where + i), List(acc))
    case Ok(g) =>
      var valstart := i + g.start;
      var next := i + g.restAt;
      var child := SetOutcome(g.val);
      if child.Failed? then
        Failed(FormatError(child.error.message, child.error.origin, input, child.error.where + valstart), List(acc))
      else if g.rest == "" then Done(List(acc + [child.state]))
      else Items(input, g.rest, next, acc + [child.state])
  }

  // ---------------------------------------------------------------------
  // The source's procedures

  /** _getkeyval */
  method GetKeyVal(input: string) returns (r: Result<KeyValue>)
    ensures r == KeyVal(input)
  {
    var tup := GetStrVal(input, '=', '\0');
    if tup.Err? {
      return Err(tup.error);
    }
    var key, rstr, dpos, keystart, eqFound := tup.value.val, tup.value.rest, tup.value.restAt, tup.value.start, tup.value.found;
    if |key| > 0 && key[0] == ';' {
      key := key[1..];
      assert key + "" == key;
      return Ok(KeyValue("", "", key + "" + rstr, keystart + 1, -1, -1));
    }
    var skipped, _ := Skip(rstr);
    if key == "" && skipped != "" {
      return Err(FormatError("Value has no Key", "", input, Find(input, (dpos % 256) as char, 0)));
    }
    if key != "" && !eqFound {
      return Err(FormatError("Key '" + key + "' has no value", "", input, keystart + |key|));
    }
    tup := GetStrVal(rstr, ';', '\n');
    if tup.Err? {
      return Err(tup.error);
    }
    var value, rpos, valstart := tup.value.val, tup.value.restAt, tup.value.start;
    rstr := tup.value.rest;
    r := Ok(KeyValue(key, value, rstr, dpos + rpos, valstart, keystart));
  }

  /** chunkdat::set(input): builds the tree, inserting entries into a map or
      appending elements to a list as it reads them. */
  method ParseText(input: string) returns (o: Outcome)
    ensures o == SetOutcome(input)
    decreases |input|, 6
  {
    var tup := GetStrVal(input, '\0', '\0');
    if tup.Err? {
      return Failed(tup.error, None);
    }
    SegmentSize(input, '\0', '\0');
    var str := tup.value.val;
    if str == "" {
      return Done(Str(""));
    }
    if str[0] != '{' && str[0] != '[' {
      return Done(Str(input));
    }
    o := ParseGroup(input, tup.value);
  }

  /** The map and list branches of chunkdat::set. */
  method ParseGroup(input: string, g: Seg) returns (o: Outcome)
    requires 0 < |g.val| <= |input|
    ensures o == Group(input, g)
    decreases |input|, 5
  {
    var str, rest, i, j := g.val, g.rest, g.restAt, g.start;
    var skipped, p := Skip(rest);
    if skipped != "" {
      return Failed(FormatError("Unexpected char", "", input, i + p), None);
    }
    var isMap := str[0] == '{';
    str := str[1..];
    if |str| > 0 {
      str := str[..|str| - 1];
    }
    assert str == if |g.val| >= 2 then g.val[1..|g.val| - 1] else "";
    o := ParseBody(input, str, j + 1, isMap);
  }

  /** The body of a map or a list: empty, or read entry by entry. */
  method ParseBody(input: string, str: string, at: int, isMap: bool) returns (o: Outcome)
    requires |str| < |input|
    ensures o == Body(input, str, at, isMap)
    decreases |input|, 4
  {
    var skipped, p := Skip(str);
    if skipped == "" {
      return if isMap then Done(Map(map[])) else Done(List([]));
    }
    if isMap {
      o := ParseEntries(input, str, at);
    } else {
      o := ParseItems(input, str, at);
    }
  }

  /** The map loop of chunkdat::set. */
  method ParseEntries(input: string, body: string, start: int) returns (o: Outcome)
    requires |body| < |input|
    ensures o == Entries(input, body, start, map[])
    decreases |input|, 3
  {
    var values: map<string, Chunk> := map[];
    var str, i := body, start;
    while true
      invariant |str| < |input|
      invariant Entries(input, str, i, values) == Entries(input, body, start, map[])
      decreases |str|
    {
      var r := ParseEntry(input, str, i, values);
      if r.Stop? {
        return r.outcome;
      }
      str, i, values := r.rest, r.at, r.acc;
    }
  }

  /** One round of the map loop: reads one key/value pair and inserts it. */
  method ParseEntry(input: string, str: string, i: int, values: map<string, Chunk>) returns (r: Round)
    requires |str| < |input|
    ensures r == EntryRound(input, str, i, values)
    decreases |input|, 2
  {
    var skipped, p := Skip(str);
    if At(str, p) == '=' {
      return Stop(Failed(FormatError("Value has no key", "", input, i + p), Map(values)));
    }
    var tup2 := GetKeyVal(str);
    if tup2.Err? {
      return Stop(Failed(FormatError(tup2.error.message, tup2.error.origin, input, i + tup2.error.where), Map(values)));
    }
    var kv := tup2.value;
    var inserted := InsertEntry(input, kv, i, values);
    if inserted.Err? {
      return Stop(Failed(inserted.error, Map(values)));
    }
    if kv.rest == "" {
      return Stop(Done(Map(inserted.value)));
    }
    r := Next(kv.rest, i + kv.restAt, inserted.value);
  }

  /** The insertion step of the map loop of chunkdat::set. */
  method InsertEntry(input: string, kv: KeyValue, i: int, values: map<string, Chunk>) returns (r: Result<map<string, Chunk>>)
    requires |kv.value| < |input|
    ensures r == Insert(input, kv, i, values)
    decreases |input|, 0
  {
    var valstart, keystart := i + kv.valStart, i + kv.keyStart;
    if kv.key == "" {
      return Ok(values);
    }
    var chk := ParseText(kv.value);
    if chk.Failed? {
      return Err(FormatError(chk.error.message, "", input, chk.error.where + valstart));
    }
    if kv.key in values {
      return Err(FormatError("Key '" + kv.key + "' already present", "", input, keystart));
    }
    r := Ok(values[kv.key := chk.state]);
  }

  /** The list loop of chunkdat::set. */
  method ParseItems(input: string, body: string, start: int) returns (o: Outcome)
    requires |body| < |input|
    ensures o == Items(input, body, start, [])
    decreases |input|, 3
  {
    var list: seq<Chunk> := [];
    var str, i := body, start;
    while true
      invariant |str| < |input|
      invariant Items(input, str, i, list) == Items(input, body, start, [])
      decreases |str|
    {
      SegmentSize(str, ',', ';');
      var tup2 := GetStrVal(str, ',', ';');
      if tup2.Err? {
        return Failed(FormatError(tup2.error.message, tup2.error.origin, input, tup2.error.where + i), List(list));
      }
      var g := tup2.value;
      var valstart := i + g.start;
      i := i + g.restAt;
      var chk := ParseText(g.val);
      if chk.Failed? {
        return Failed(FormatError(chk.error.message, chk.error.origin, input, chk.error.where + valstart), List(list));
      }
      list := list + [chk.state];
      if g.rest == "" {
        return Done(List(list));
      }
      str := g.rest;
    }
  }
}
