/** What chunkdat::set promises about the tree it builds and the errors it
    throws. */
module ParserFacts {
  import opened Chunks
  import opened Segments
  import opened SegmentFacts
  import opened Parser

  /** Every error of _getkeyval has an empty origin; a non-empty key starts
      at the first printable character of the text. */
  lemma {:induction false} KeyValShape(s: string)
    ensures KeyVal(s).Err? ==> KeyVal(s).error.origin == ""
    ensures KeyVal(s).Ok? && KeyVal(s).value.key != "" ==>
      KeyVal(s).value.keyStart == FirstRead(s, 0) < |s|
  {
    SegmentShape(s, '=', '\0');
    var k := Segment(s, '=', '\0');
    if k.Ok? && k.value.rest != "" {
      SegmentShape(k.value.rest, ';', '\n');
    } else if k.Ok? {
      SegmentShape("", ';', '\n');
    }
  }

  /** Every error chunkdat::set throws quotes the whole text it was given
      and has an empty origin. */
  lemma {:induction false} SetOutcomeError(input: string)
    ensures SetOutcome(input).Failed? ==>
      SetOutcome(input).error.data == input && SetOutcome(input).error.origin == ""
    decreases |input|, 3
  {
    SegmentShape(input, '\0', '\0');
    var g := Segment(input, '\0', '\0');
    if g.Ok? && g.value.val != "" && (g.value.val[0] == '{' || g.value.val[0] == '[') {
      GroupError(input, g.value);
    }
  }

  lemma {:induction false} GroupError(input: string, g: Seg)
    requires 0 < |g.val| <= |input|
    ensures Group(input, g).Failed? ==>
      Group(input, g).error.data == input && Group(input, g).error.origin == ""
    decreases |input|, 2
  {
    if Blank(g.rest) {
      var body := if |g.val| >= 2 then g.val[1..|g.val| - 1] else "";
      BodyError(input, body, g.start + 1, g.val[0] == '{');
    }
  }

  lemma {:induction false} BodyError(input: string, body: string, i: int, isMap: bool)
    requires |body| < |input|
    ensures Body(input, body, i, isMap).Failed? ==>
      Body(input, body, i, isMap).error.data == input && Body(input, body, i, isMap).error.origin == ""
    decreases |input|, 1, |body| + 1
  {
    if !Blank(body) {
      if isMap {
        EntriesError(input, body, i, map[]);
      } else {
        ItemsError(input, body, i, []);
      }
    }
  }

  lemma {:induction false} EntriesError(input: string, str: string, i: int, acc: map<string, Chunk>)
    requires |str| < |input|
    ensures Entries(input, str, i, acc).Failed? ==>
      Entries(input, str, i, acc).error.data == input && Entries(input, str, i, acc).error.origin == ""
    decreases |input|, 1, |str|
  {
    RoundError(input, str, i, acc);
    var r := EntryRound(input, str, i, acc);
    if r.Next? {
      EntriesError(input, r.rest, r.at, r.acc);
    }
  }

  /** A round of the map loop that throws quotes the whole text. */
  lemma {:induction false} RoundError(input: string, str: string, i: int, acc: map<string, Chunk>)
    requires |str| < |input|
    ensures EntryRound(input, str, i, acc).Stop? && EntryRound(input, str, i, acc).outcome.Failed? ==>
      EntryRound(input, str, i, acc).outcome.error.data == input && EntryRound(input, str, i, acc).outcome.error.origin == ""
    decreases |input|, 1, |str|, 0
  {
    KeyValShape(str);
  }

  lemma {:induction false} ItemsError(input: string, str: string, i: int, acc: seq<Chunk>)
    requires |str| < |input|
    ensures Items(input, str, i, acc).Failed? ==>
      Items(input, str, i, acc).error.data == input && Items(input, str, i, acc).error.origin == ""
    decreases |input|, 1, |str|
  {
    SegmentSize(str, ',', ';');
    SegmentShape(str, ',', ';');
    var g := Segment(str, ',', ';');
    if g.Ok? {
      SetOutcomeError(g.value.val);
      var child := SetOutcome(g.value.val);
      if child.Done? && g.value.rest != "" {
        ItemsError(input, g.value.rest, i + g.value.restAt, acc + [child.state]);
      }
    }
  }

  /** `m` holds every entry of `acc` unchanged. */
  predicate Keeps(acc: map<string, Chunk>, m: map<string, Chunk>)
  {
    forall k :: k in acc ==> k in m && m[k] == acc[k]
  }

  /** An insertion adds at most one entry, under a non-empty key that was
      not present, and never replaces an entry. */
  lemma {:induction false} InsertKeeps(input: string, kv: KeyValue, i: int, acc: map<string, Chunk>)
    requires |kv.value| < |input|
    ensures Insert(input, kv, i, acc).Ok? ==>
      var m := Insert(input, kv, i, acc).value;
      && Keeps(acc, m)
      && m.Keys <= acc.Keys + {kv.key}
      && (kv.key in m && kv.key !in acc ==> kv.key != "")
  {
  }

  /** The map loop never overwrites an entry it has inserted, whether it
      finishes or throws, and never inserts an empty key: the state it
      leaves behind is a map that extends the one it started from. */
  lemma {:induction false} EntriesKeep(input: string, str: string, i: int, acc: map<string, Chunk>)
    requires |str| < |input|
    ensures Entries(input, str, i, acc).state.Map?
    ensures Keeps(acc, Entries(input, str, i, acc).state.values)
    ensures "" !in acc ==> "" !in Entries(input, str, i, acc).state.values
    decreases |str|
  {
    RoundKeep(input, str, i, acc);
    var r := EntryRound(input, str, i, acc);
    if r.Next? {
      EntriesKeep(input, r.rest, r.at, r.acc);
      KeepsTrans(acc, r.acc, Entries(input, r.rest, r.at, r.acc).state.values);
    }
  }

  /** A round of the map loop keeps every entry and adds no empty key. */
  lemma {:induction false} RoundKeep(input: string, str: string, i: int, acc: map<string, Chunk>)
    requires |str| < |input|
    ensures var r := EntryRound(input, str, i, acc);
      && (r.Stop? ==> r.outcome.state.Map? && Keeps(acc, r.outcome.state.values)
                      && ("" !in acc ==> "" !in r.outcome.state.values))
      && (r.Next? ==> Keeps(acc, r.acc) && ("" !in acc ==> "" !in r.acc))
  {
    var kv := KeyVal(str);
    if At(str, FirstRead(str, 0)) != '=' && kv.Ok? {
      InsertKeeps(input, kv.value, i, acc);
    }
  }

  /** Keeping entries is transitive. */
  lemma {:induction false} KeepsTrans(a: map<string, Chunk>, b: map<string, Chunk>, c: map<string, Chunk>)
    requires Keeps(a, b) && Keeps(b, c)
    ensures Keeps(a, c)
  {
  }

  /** The list loop only appends: the elements it started from stay a
      prefix of the list it leaves behind, whether it finishes or throws. */
  lemma {:induction false} ItemsKeep(input: string, str: string, i: int, acc: seq<Chunk>)
    requires |str| < |input|
    ensures Items(input, str, i, acc).state.List?
    ensures acc <= Items(input, str, i, acc).state.items
    decreases |str|
  {
    SegmentSize(str, ',', ';');
    var g := Segment(str, ',', ';');
    if g.Ok? {
      var child := SetOutcome(g.value.val);
      if child.Done? && g.value.rest != "" {
        ItemsKeep(input, g.value.rest, i + g.value.restAt, acc + [child.state]);
      }
    }
  }

  /** A key that is already present is an error at the start of the key,
      and the second chunk is not inserted: the map is left as it was. */
  lemma {:induction false} DuplicateKeyRejected(input: string, str: string, i: int, acc: map<string, Chunk>)
    requires |str| < |input|
    requires At(str, FirstRead(str, 0)) != '='
    requires KeyVal(str).Ok? && KeyVal(str).value.key in acc && KeyVal(str).value.key != ""
    requires SetOutcome(KeyVal(str).value.value).Done?
    ensures Entries(input, str, i, acc) ==
      Failed(FormatError("Key '" + KeyVal(str).value.key + "' already present", "", input, i + FirstRead(str, 0)), Map(acc))
    ensures FirstRead(str, 0) < |str|
  {
    KeyValShape(str);
    var kv := KeyVal(str).value;
    assert Insert(input, kv, i, acc) == Err(FormatError("Key '" + kv.key + "' already present", "", input, i + kv.keyStart));
  }

  /** A blank text is the empty string value. */
  lemma {:induction false} BlankIsEmptyString(input: string)
    requires Blank(input)
    ensures SetOutcome(input) == Done(Str(""))
  {
    SegmentShape(input, '\0', '\0');
  }

  /** A map or list group yields a map without an empty key or a list. */
  lemma {:induction false} GroupKinds(input: string, g: Seg)
    requires 0 < |g.val| <= |input|
    ensures Group(input, g).state.Map? ==> "" !in Group(input, g).state.values
    ensures Group(input, g).Done? ==> Group(input, g).state.Map? || Group(input, g).state.List?
  {
    if Blank(g.rest) {
      var body := if |g.val| >= 2 then g.val[1..|g.val| - 1] else "";
      var isMap := g.val[0] == '{';
      assert Group(input, g) == Body(input, body, g.start + 1, isMap);
      if !Blank(body) {
        if isMap {
          EntriesKeep(input, body, g.start + 1, map[]);
        } else {
          ItemsKeep(input, body, g.start + 1, []);
        }
      }
    }
  }

  /** What a successful parse yields: a string chunk holds either nothing
      or the whole text, verbatim; a parse never yields None, and a map
      never has an empty key. */
  lemma {:induction false} ParsedKinds(input: string)
    requires SetOutcome(input).Done?
    ensures !SetOutcome(input).state.None?
    ensures SetOutcome(input).state.Str? ==> SetOutcome(input).state.val in {"", input}
    ensures SetOutcome(input).state.Map? ==> "" !in SetOutcome(input).state.values
  {
    SegmentSize(input, '\0', '\0');
    var g := Segment(input, '\0', '\0');
    if g.Ok? && g.value.val != "" && (g.value.val[0] == '{' || g.value.val[0] == '[') {
      GroupKinds(input, g.value);
    }
  }
}
