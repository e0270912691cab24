/** chunkdat::strval (src/filedat.cpp:863-928): renders a tree of chunks
    back to text. A map prints one `key = value` line per entry in key
    order, a list one element per line with a comma after every element
    but the last, each line indented by the aligner repeated once more than
    its container; string children are double-quoted with their double
    quotes escaped. */
module Render {
  import opened Chunks
  import opened Text

  /** strval(alignment, aligner) of a chunk. */
  ghost function Render(c: Chunk, alignment: nat, aligner: string): string
    decreases c, 2
  {
    match c
    case None => ""
    case Str(v) => v
    case Map(m) =>
      if |m| == 0 then "{}"
      else
        var ks := SortedKeys(m.Keys);
        "{\n" + MapLines(m, ks, |ks|, alignment + 1, aligner) + Repeat(aligner, alignment) + "}"
    case List(l) =>
      if |l| == 0 then "[]"
      else "[\n" + ListLines(l, alignment + 1, aligner) + Repeat(aligner, alignment) + "]"
  }

  /** How a child appears inside a map or a list: a string quoted, with
      its double quotes escaped; anything else rendered one level deeper. */
  ghost function Child(c: Chunk, alignment: nat, aligner: string): string
    decreases c, 3
  {
    if c.Str? then "\"" + Escaped(c.val, '"') + "\"" else Render(c, alignment, aligner)
  }

  /** The lines of the entries with the first `n` keys of `ks`, in that
      order. */
  ghost function MapLines(m: map<string, Chunk>, ks: seq<string>, n: nat, alignment: nat, aligner: string): string
    requires n <= |ks| && forall k :: k in ks ==> k in m
    decreases Map(m), 1, n
  {
    if n == 0 then ""
    else MapLines(m, ks, n - 1, alignment, aligner) + EntryLine(ks[n - 1], m[ks[n - 1]], alignment, aligner)
  }

  /** The line of one map entry. */
  ghost function EntryLine(k: string, c: Chunk, alignment: nat, aligner: string): string
    decreases c, 4
  {
    Repeat(aligner, alignment) + k + " = " + Child(c, alignment, aligner) + "\n"
  }

  /** The first `n` elements of a list, each as a line ending in ",\n". */
  ghost function CommaLines(l: seq<Chunk>, n: nat, alignment: nat, aligner: string): string
    requires n <= |l|
    decreases List(l), 1, n
  {
    if n == 0 then ""
    else CommaLines(l, n - 1, alignment, aligner) + Repeat(aligner, alignment) + Child(l[n - 1], alignment, aligner) + ",\n"
  }

  /** The elements of a non-empty list, one per line, separated by commas:
      the last line has none. */
  ghost function ListLines(l: seq<Chunk>, alignment: nat, aligner: string): string
    requires |l| > 0
    decreases List(l), 1, |l| + 1
  {
    CommaLines(l, |l| - 1, alignment, aligner) + Repeat(aligner, alignment) + Child(l[|l| - 1], alignment, aligner) + "\n"
  }

  // ---------------------------------------------------------------------
  // Properties

  /** A non-empty map or list is rendered between its braces or brackets,
      with its entries on lines of their own. */
  lemma {:induction false} Delimited(c: Chunk, alignment: nat, aligner: string)
    requires c.Map? || c.List?
    ensures var r := Render(c, alignment, aligner);
      |r| >= 2 && r[0] == (if c.Map? then '{' else '[') && r[|r| - 1] == (if c.Map? then '}' else ']')
    ensures var r := Render(c, alignment, aligner);
      (c.Map? && |c.values| > 0) || (c.List? && |c.items| > 0) ==> r[1] == '\n'
  {
  }

  /** The text between the quotes of a string child reads back as the
      string: escaping is undone by removing the backslashes. */
  lemma {:induction false} StringChild(v: string, alignment: nat, aligner: string)
    ensures var t := Child(Str(v), alignment, aligner);
      |t| >= 2 && t[0] == '"' && t[|t| - 1] == '"' && Unescaped(t[1..|t| - 1], '"') == v
  {
    var t := Child(Str(v), alignment, aligner);
    assert t[1..|t| - 1] == Escaped(v, '"');
    EscapeRoundTrip(v, '"');
  }

  /** Every element of a list but the last is followed by ",\n"; erasing
      the comma of the last one leaves its newline: that is how strval
      turns the comma-terminated lines into the list's lines. */
  lemma {:induction false} EraseLastComma(l: seq<Chunk>, alignment: nat, aligner: string, head: string)
    requires |l| > 0
    ensures var r := head + CommaLines(l, |l|, alignment, aligner);
      |r| >= 2 && r[..|r| - 2] + r[|r| - 1..] == head + ListLines(l, alignment, aligner)
  {
    var n := |l| - 1;
    var body := CommaLines(l, n, alignment, aligner) + Repeat(aligner, alignment) + Child(l[n], alignment, aligner);
    var r := head + CommaLines(l, |l|, alignment, aligner);
    assert r == (head + body) + ",\n";
    assert r[..|r| - 2] == head + body;
    assert r[|r| - 1..] == "\n";
  }

  // ---------------------------------------------------------------------
  // The source's procedure

  /** The entry of a key set that std::map visits first. */
  predicate IsLeast(k: string, keys: set<string>)
  {
    k in keys && forall j :: j in keys && j != k ==> StrLt(k, j)
  }

  lemma {:induction false} LeastUnique(k: string, keys: set<string>)
    requires IsLeast(k, keys)
    ensures k == Least(keys)
  {
    var l := Least(keys);
    if k != l {
      StrLtAsymmetric(l, k);
    }
  }

  /** Visiting the least remaining key moves it from the keys still to
      visit to the end of the keys visited, in sorted order. */
  lemma {:induction false} SortedStep(done: seq<string>, rest: set<string>, k: string, all: seq<string>)
    requires done + SortedKeys(rest) == all
    requires IsLeast(k, rest)
    ensures (done + [k]) + SortedKeys(rest - {k}) == all
  {
    LeastUnique(k, rest);
    var tail := SortedKeys(rest - {k});
    assert SortedKeys(rest) == [k] + tail;
    assert done + ([k] + tail) == (done + [k]) + tail;
  }

  lemma {:induction false} Append(a: string, b: string, c: string)
    ensures a + b + c == a + (b + c)
  {
  }

  /** strval */
  method StrVal(c: Chunk, alignment: nat, aligner: string) returns (ret: string)
    ensures ret == Render(c, alignment, aligner)
    decreases c, 2
  {
    match c {
      case None => ret := "";
      case Str(v) => ret := v;
      case Map(m) =>
        if |m| == 0 {
          return "{}";
        }
        ret := MapText(m, alignment, aligner);
      case List(l) =>
        if |l| == 0 {
          return "[]";
        }
        ret := ListText(l, alignment, aligner);
    }
  }

  /** A child of a map or list, as strval writes it. */
  method ChildText(c: Chunk, alignment: nat, aligner: string) returns (t: string)
    ensures t == Child(c, alignment, aligner)
    decreases c, 3
  {
    if c.Str? {
      var e := Escape(c.val, '"');
      t := "\"" + e + "\"";
    } else {
      t := StrVal(c, alignment, aligner);
    }
  }

  /** The keys of a map in the order std::map iterates them: the least
      remaining key, again and again. */
  method KeysInOrder(keys: set<string>) returns (ks: seq<string>)
    ensures ks == SortedKeys(keys)
  {
    ks := [];
    var rest := keys;
    while rest != {}
      invariant ks + SortedKeys(rest) == SortedKeys(keys)
      decreases rest
    {
      ghost var least := Least(rest);
      assert IsLeast(least, rest);
      var k :| IsLeast(k, rest);
      SortedStep(ks, rest, k, SortedKeys(keys));
      ks, rest := ks + [k], rest - {k};
    }
    assert SortedKeys({}) == [];
  }

  /** The map branch of strval: the entries in the order the map iterates
      them, that is by ascending key. */
  method MapText(m: map<string, Chunk>, alignment: nat, aligner: string) returns (ret: string)
    requires |m| > 0
    ensures ret == Render(Map(m), alignment, aligner)
    decreases Map(m), 1
  {
    var ks := KeysInOrder(m.Keys);
    ret := "{\n";
    var i := 0;
    while i < |ks|
      invariant i <= |ks|
      invariant ret == "{\n" + MapLines(m, ks, i, alignment + 1, aligner)
    {
      var k := ks[i];
      var pad := RepeatString(aligner, alignment + 1);
      var child := ChildText(m[k], alignment + 1, aligner);
      var line := pad + k + " = " + child + "\n";
      Append("{\n", MapLines(m, ks, i, alignment + 1, aligner), line);
      ret := ret + line;
      i := i + 1;
    }
    var pad := RepeatString(aligner, alignment);
    ret := ret + pad + "}";
  }

  /** The list branch of strval: every element followed by ",\n", then
      the last comma erased. */
  method ListText(l: seq<Chunk>, alignment: nat, aligner: string) returns (ret: string)
    requires |l| > 0
    ensures ret == Render(List(l), alignment, aligner)
    decreases List(l), 1
  {
    ret := "[\n";
    var i := 0;
    while i < |l|
      invariant i <= |l|
      invariant ret == "[\n" + CommaLines(l, i, alignment + 1, aligner)
    {
      var pad := RepeatString(aligner, alignment + 1);
      var child := ChildText(l[i], alignment + 1, aligner);
      ret := ret + pad + child + ",\n";
      i := i + 1;
    }
    EraseLastComma(l, alignment + 1, aligner, "[\n");
    ret := ret[..|ret| - 2] + ret[|ret| - 1..];
    var pad := RepeatString(aligner, alignment);
    ret := ret + pad + "]";
  }
}
