/** Worked inputs for chunkdat::set, built from single-character keys and
    values, and the duplicate-key offset they expose. */
module ParserExamples {
  import opened Chunks
  import opened Segments
  import opened Parser

  /** A lone printable character that is no quote, brace, bracket or
      delimiter is a whole value. */
  lemma {:induction false} PlainChar(c: char, delim: char, alt: char)
    requires IsRead(c) && c !in {'"', '\'', '{', '[', delim, alt}
    ensures Segment([c], delim, alt) == Ok(Seg([c], "", 1, 0, false))
  {
    var s := [c];
    assert FirstRead(s, 0) == 0;
    assert ScanValue(s, delim, alt, 1, [c]) == Ok(([c], 1));
    assert At(s, 0) == c;
    assert "" + [c] == [c];
    assert Dispatch(s, delim, alt, 0, "") == Ok(([c], 1));
    assert TrimEnd([c]) == [c];
  }

  /** ... and parses to a string chunk holding it. */
  lemma {:induction false} CharValue(c: char)
    requires IsRead(c) && c !in {'"', '\'', '{', '['}
    ensures SetOutcome([c]) == Done(Str([c]))
  {
    PlainChar(c, '\0', '\0');
  }

  /** A one-character value ends at the delimiter that follows it; the
      rest is the text after the delimiter. */
  lemma {:induction false} CharBefore(c: char, delim: char, alt: char, rest: string)
    requires IsRead(c) && c !in {'"', '\'', '{', '[', delim, alt} && rest != ""
    requires IsRead(delim) && delim !in {'"', '\'', '{', '['}
    ensures Segment([c, delim] + rest, delim, alt) == Ok(Seg([c], rest, 2, 0, true))
  {
    var s := [c, delim] + rest;
    assert FirstRead(s, 0) == 0;
    assert At(s, 1) == delim;
    assert Dispatch(s, delim, alt, 1, [c]) == Ok(([c], 2));
    assert ScanValue(s, delim, alt, 1, [c]) == Ok(([c], 2));
    assert At(s, 0) == c;
    assert "" + [c] == [c];
    assert Dispatch(s, delim, alt, 0, "") == Ok(([c], 2));
    assert s[2..] == rest;
  }

  /** `k=v` at the end of a map body. */
  lemma {:induction false} LastPair(k: char, v: char)
    requires IsRead(k) && k !in {'"', '\'', '{', '[', '=', ';'}
    requires IsRead(v) && v !in {'"', '\'', '{', '[', ';'}
    ensures KeyVal([k, '=', v]) == Ok(KeyValue([k], [v], "", 3, 0, 0))
  {
    CharBefore(k, '=', '\0', [v]);
    assert [k, '='] + [v] == [k, '=', v];
    PlainChar(v, ';', '\n');
  }

  /** `k=v;` followed by more entries. */
  lemma {:induction false} PairBefore(k: char, v: char, rest: string)
    requires IsRead(k) && k !in {'"', '\'', '{', '[', '=', ';'}
    requires IsRead(v) && v !in {'"', '\'', '{', '[', ';', '='}
    requires rest != ""
    ensures KeyVal([k, '=', v, ';'] + rest) == Ok(KeyValue([k], [v], rest, 4, 0, 0))
  {
    CharBefore(k, '=', '\0', [v, ';'] + rest);
    assert [k, '='] + ([v, ';'] + rest) == [k, '=', v, ';'] + rest;
    CharBefore(v, ';', '\n', rest);
  }
  /** A group body without quotes and without the group's own braces or
      brackets. */
  predicate PlainBody(b: string, open: char, close: char)
  {
    forall x :: 0 <= x < |b| ==> b[x] !in {'"', '\'', open, close}
  }

  /** Such a body is closed by the first closing character. */
  lemma {:induction false} GroupEndPlain(s: string, i: nat, k: nat, j: nat, open: char, close: char, up: nat)
    requires j < i <= k < |s| && s[k] == close && up < U32
    requires forall x :: i <= x < k ==> s[x] !in {'"', '\'', open, close}
    ensures GroupEnd(s, i, open, close, up, 0, j) == Ok(k)
    decreases k - i
  {
    if i < k {
      GroupEndPlain(s, i + 1, k, j, open, close, up);
    }
  }

  /** `{b}` or `[b]` with a plain body is one value, and nothing is left
      after it. */
  lemma {:induction false} BracedValue(b: string, open: char)
    requires open == '{' || open == '['
    requires PlainBody(b, open, if open == '{' then '}' else ']')
    ensures
      var s := [open] + b + [if open == '{' then '}' else ']'];
      Segment(s, '\0', '\0') == Ok(Seg(s, "", |b| + 2, 0, false))
  {
    var s := [open] + b + [if open == '{' then '}' else ']'];
    BracedScan(b, open, s);
    assert TrimEnd(s) == s;
  }

  /** The scan of a braced value reads it whole, from its first character
      to its closing one. */
  lemma {:induction false} BracedScan(b: string, open: char, s: string)
    requires open == '{' || open == '['
    requires PlainBody(b, open, if open == '{' then '}' else ']')
    requires s == [open] + b + [if open == '{' then '}' else ']']
    ensures FirstRead(s, 0) == 0
    ensures ScanValue(s, '\0', '\0', 0, "") == Ok((s, |b| + 2))
    ensures IsRead(s[|s| - 1])
  {
    var close := if open == '{' then '}' else ']';
    assert FirstRead(s, 0) == 0;
    forall x | 1 <= x < |b| + 1
      ensures s[x] !in {'"', '\'', open, close}
    {
      assert s[x] == b[x - 1];
    }
    GroupEndPlain(s, 1, |b| + 1, 0, open, close, if open == '{' then 1 else U32 - 1);
    assert s[0..|b| + 2] == s;
    assert ScanValue(s, '\0', '\0', |b| + 2, s) == Ok((s, |b| + 2));
    assert "" + s[0..|b| + 2] == s;
    assert At(s, 0) == open;
    assert Dispatch(s, '\0', '\0', 0, "") == Ok((s, |b| + 2));
    assert IsRead(s[|s| - 1]);
  }

  /** A blank body has no quotes, braces or brackets. */
  lemma {:induction false} BlankPlain(b: string, open: char, close: char)
    requires Blank(b) && IsRead(open) && IsRead(close)
    ensures PlainBody(b, open, close)
  {
    FirstReadSkips(b, 0);
    forall x | 0 <= x < |b|
      ensures b[x] !in {'"', '\'', open, close}
    {
      assert !IsRead(b[x]);
    }
  }

  /** `{}` with only blanks inside is the empty map. */
  lemma {:induction false} EmptyMap(b: string)
    requires Blank(b)
    ensures SetOutcome("{" + b + "}") == Done(Map(map[]))
  {
    BlankPlain(b, '{', '}');
    BracedValue(b, '{');
    var s := "{" + b + "}";
    assert s[1..|s| - 1] == b;
    assert Group(s, Seg(s, "", |b| + 2, 0, false)) == Body(s, b, 1, true);
  }

  /** `[]` with only blanks inside is the empty list. */
  lemma {:induction false} EmptyList(b: string)
    requires Blank(b)
    ensures SetOutcome("[" + b + "]") == Done(List([]))
  {
    BlankPlain(b, '[', ']');
    BracedValue(b, '[');
    var s := "[" + b + "]";
    assert s[1..|s| - 1] == b;
    assert Group(s, Seg(s, "", |b| + 2, 0, false)) == Body(s, b, 1, false);
  }

  /** One round of the map loop over `k=v;rest`: the entry is inserted
      and the loop goes on four characters further. */
  lemma {:induction false} EntryStep(input: string, k: char, v: char, rest: string, i: int, acc: map<string, Chunk>)
    requires IsRead(k) && k !in {'"', '\'', '{', '[', '=', ';'}
    requires IsRead(v) && v !in {'"', '\'', '{', '[', ';', '='}
    requires rest != "" && [k] !in acc && 4 + |rest| < |input|
    ensures Entries(input, [k, '=', v, ';'] + rest, i, acc) == Entries(input, rest, i + 4, acc[[k] := Str([v])])
  {
    var str := [k, '=', v, ';'] + rest;
    PairBefore(k, v, rest);
    CharValue(v);
    assert FirstRead(str, 0) == 0;
    assert At(str, 0) == k;
    assert EntryRound(input, str, i, acc) == Next(rest, i + 4, acc[[k] := Str([v])]);
  }

  /** The last entry `k=v` of a map body repeats a key: the corrected
      insertion points at the key, the source's at twice its offset. */
  lemma {:induction false} LastEntryDuplicate(input: string, k: char, v: char, i: int, acc: map<string, Chunk>)
    requires IsRead(k) && k !in {'"', '\'', '{', '[', '=', ';'}
    requires IsRead(v) && v !in {'"', '\'', '{', '[', ';'}
    requires [k] in acc && 3 < |input|
    ensures Entries(input, [k, '=', v], i, acc) == Failed(FormatError("Key '" + [k] + "' already present", "", input, i), Map(acc))
    ensures KeyVal([k, '=', v]) == Ok(KeyValue([k], [v], "", 3, 0, 0))
    ensures InsertAsWritten(input, KeyValue([k], [v], "", 3, 0, 0), i, acc) == Err(FormatError("Key '" + [k] + "' already present", "", input, i + i))
  {
    var str := [k, '=', v];
    LastPair(k, v);
    CharValue(v);
    assert FirstRead(str, 0) == 0;
    assert At(str, 0) == k;
    assert EntryRound(input, str, i, acc) == Stop(Failed(FormatError("Key '" + [k] + "' already present", "", input, i), Map(acc)));
  }

  /** A character that can stand alone as a key or a value. */
  predicate KeyChar(k: char)
  {
    IsRead(k) && k !in {'"', '\'', '{', '}', '[', '=', ';'}
  }

  /** `{k=a;k=b}` is parsed as a map body starting at offset 1. */
  lemma {:induction false} DuplicateGroup(k: char, v1: char, v2: char)
    requires KeyChar(k) && KeyChar(v1) && KeyChar(v2)
    ensures
      var s := ['{', k, '=', v1, ';', k, '=', v2, '}'];
      SetOutcome(s) == Entries(s, s[1..8], 1, map[])
  {
    var s := ['{', k, '=', v1, ';', k, '=', v2, '}'];
    var b := s[1..8];
    assert s == ['{'] + b + ['}'];
    assert PlainBody(b, '{', '}');
    BracedValue(b, '{');
    assert Group(s, Seg(s, "", 9, 0, false)) == Body(s, b, 1, true);
  }

  /** The map loop over `k=a;k=b`. */
  lemma {:induction false} DuplicateEntries(k: char, v1: char, v2: char)
    requires KeyChar(k) && KeyChar(v1) && KeyChar(v2)
    ensures
      var s := ['{', k, '=', v1, ';', k, '=', v2, '}'];
      && Entries(s, s[1..8], 1, map[]) == Failed(FormatError("Key '" + [k] + "' already present", "", s, 5), Map(map[[k] := Str([v1])]))
      && InsertAsWritten(s, KeyValue([k], [v2], "", 3, 0, 0), 5, map[[k] := Str([v1])]) == Err(FormatError("Key '" + [k] + "' already present", "", s, 10))
  {
    var s := ['{', k, '=', v1, ';', k, '=', v2, '}'];
    assert s[1..8] == [k, '=', v1, ';'] + [k, '=', v2];
    EntryStep(s, k, v1, [k, '=', v2], 1, map[]);
    LastEntryDuplicate(s, k, v2, 5, map[[k] := Str([v1])]);
  }

  /** As written: for the nine-character text `{k=a;k=b}` the source's
      insertion step reports the repeated key at offset 10, past the end of
      the text, while the first entry was inserted and the key sits at
      offset 5. */
  lemma {:induction false} DuplicateOffsetAsWritten(k: char, v1: char, v2: char)
    requires KeyChar(k) && KeyChar(v1) && KeyChar(v2)
    ensures
      var s := ['{', k, '=', v1, ';', k, '=', v2, '}'];
      var acc := map[[k] := Str([v1])];
      && KeyVal([k, '=', v2]) == Ok(KeyValue([k], [v2], "", 3, 0, 0))
      && InsertAsWritten(s, KeyValue([k], [v2], "", 3, 0, 0), 5, acc).Err?
      && InsertAsWritten(s, KeyValue([k], [v2], "", 3, 0, 0), 5, acc).error.where == 10 > |s|
      && s[5] == k
  {
    var s := ['{', k, '=', v1, ';', k, '=', v2, '}'];
    DuplicateEntries(k, v1, v2);
    LastEntryDuplicate(s, k, v2, 5, map[[k] := Str([v1])]);
  }

  /** Corrected: the same text fails with the error at the repeated key,
      and the map keeps the first entry only. */
  lemma {:induction false} DuplicateOffsetCorrected(k: char, v1: char, v2: char)
    requires KeyChar(k) && KeyChar(v1) && KeyChar(v2)
    ensures
      var s := ['{', k, '=', v1, ';', k, '=', v2, '}'];
      && SetOutcome(s) == Failed(FormatError("Key '" + [k] + "' already present", "", s, 5), Map(map[[k] := Str([v1])]))
      && s[5] == k
  {
    DuplicateGroup(k, v1, v2);
    DuplicateEntries(k, v1, v2);
  }

  /** A key whose `=` is followed by blanks only, as in `{ a = 1 ; b = }`,
      gets the empty string: no error is thrown. */
  lemma {:induction false} EmptyValueKept()
    ensures SetOutcome("{ a = 1 ; b = }") == Done(Map(map["a" := Str("1"), "b" := Str("")]))
  {
    var s := "{ a = 1 ; b = }";
    SpacedGroup();
    SpacedFirst();
    SpacedLast();
    assert Entries(s, " b = ", 9, map["a" := Str("1")]) == Done(Map(map["a" := Str("1"), "b" := Str("")]));
  }

  /** `{ a = 1 ; b = }` is parsed as a map body starting at offset 1. */
  lemma {:induction false} SpacedGroup()
    ensures SetOutcome("{ a = 1 ; b = }") == Entries("{ a = 1 ; b = }", " a = 1 ; b = ", 1, map[])
  {
    var s := "{ a = 1 ; b = }";
    var b := " a = 1 ; b = ";
    SpacedPieces();
    SpacedPlain();
    BracedValue(b, '{');
    assert Group(s, Seg(s, "", 15, 0, false)) == Body(s, b, 1, true);
  }

  /** Its body holds no quote and no brace. */
  lemma {:induction false} SpacedPlain()
    ensures PlainBody(" a = 1 ; b = ", '{', '}')
  {
    var b := " a = 1 ; b = ";
    forall x | 0 <= x < |b|
      ensures b[x] !in {'"', '\'', '{', '}'}
    {
    }
  }

  /** The text `{ a = 1 ; b = }` and its parts. */
  lemma {:induction false} SpacedPieces()
    ensures "{ a = 1 ; b = }" == "{" + " a = 1 ; b = " + "}"
    ensures " a = 1 ; b = "[4..] == " 1 ; b = "
    ensures " 1 ; b = "[4..] == " b = "
    ensures " b = "[4..] == " "
    ensures "{ a = 1 ; b = }"[1..14] == " a = 1 ; b = "
  {
    assert "{ a = 1 ; b = }" == "{" + " a = 1 ; b = " + "}" by {
      var s := "{ a = 1 ; b = }";
      var t := "{" + " a = 1 ; b = " + "}";
      assert |s| == |t|;
      forall x | 0 <= x < |s|
        ensures s[x] == t[x]
      {
      }
    }
  }

  /** The first round reads `a = 1 ;` and goes on at offset 9. */
  lemma {:induction false} SpacedFirst()
    ensures EntryRound("{ a = 1 ; b = }", " a = 1 ; b = ", 1, map[]) == Next(" b = ", 9, map["a" := Str("1")])
  {
    var b := " a = 1 ; b = ";
    var v := " 1 ; b = ";
    var r := " b = ";
    SpacedPieces();
    KeyThenBlank(b, 'a');
    KeyThenBlank(v, '1');
    CharValue('1');
    assert KeyVal(b) == Ok(KeyValue("a", "1", r, 8, 1, 1));
    assert FirstRead(b, 0) == 1;
  }

  /** The second round reads `b =` with nothing after it: the value is
      empty, and the loop stops with both entries. */
  lemma {:induction false} SpacedLast()
    ensures EntryRound("{ a = 1 ; b = }", " b = ", 9, map["a" := Str("1")]) == Stop(Done(Map(map["a" := Str("1"), "b" := Str("")])))
  {
    var r := " b = ";
    SpacedPieces();
    KeyThenBlank(r, 'b');
    assert FirstRead(" ", 0) == 1;
    assert Segment(" ", ';', '\n') == Ok(Seg("", "", 0, 0, false));
    assert KeyVal(r) == Ok(KeyValue("b", "", "", 4, 0, 1));
    assert FirstRead("", 0) == 0;
    assert SetOutcome("") == Done(Str(""));
    assert FirstRead(r, 0) == 1;
  }

  /** Without the blank, `b=` ends the text at its `=` and the key is
      reported as having no value. */
  lemma {:induction false} BareKeyReported()
    ensures KeyVal("b=") == Err(FormatError("Key '" + "b" + "' has no value", "", "b=", 1))
  {
    BareKeySegment();
  }

  /** The key segment of `b=`: the key, and no delimiter found before the
      end of the text. */
  lemma {:induction false} BareKeySegment()
    ensures Segment("b=", '=', '\0') == Ok(Seg("b", "", 2, 0, false))
  {
    var s := "b=";
    assert FirstRead(s, 0) == 0;
    assert At(s, 1) == '=';
    assert Dispatch(s, '=', '\0', 1, "b") == Ok(("b", 2));
    assert ScanValue(s, '=', '\0', 1, "b") == Ok(("b", 2));
    assert At(s, 0) == 'b';
    assert "" + ['b'] == "b";
    assert Dispatch(s, '=', '\0', 0, "") == Ok(("b", 2));
    assert TrimEnd("b") == "b";
  }

  /** A blank, a one-character word, a blank and a delimiter: the segment
      is that word, and the rest starts after the delimiter. */
  lemma {:induction false} KeyThenBlank(s: string, c: char)
    requires 4 < |s| && !IsRead(s[0]) && s[1] == c && s[2] == ' '
    requires IsRead(c) && c !in {'"', '\'', '{', '[', '=', ';'}
    requires s[3] == '=' || s[3] == ';'
    ensures var alt := if s[3] == '=' then '\0' else '\n';
      Segment(s, s[3], alt) == Ok(Seg([c], s[4..], 4, 1, true))
  {
    var d := s[3];
    var alt := if d == '=' then '\0' else '\n';
    assert FirstRead(s, 0) == 1;
    assert BlankRunEnd(s, 2, d, alt) == 3;
    assert Dispatch(s, d, alt, 2, [c]) == Ok(([c], 4));
    assert ScanValue(s, d, alt, 2, [c]) == Ok(([c], 4));
    assert At(s, 1) == c;
    assert "" + [c] == [c];
    assert Dispatch(s, d, alt, 1, "") == Ok(([c], 4));
  }
}
