/** Reading back what chunkdat::strval writes: chunkdat::set applied to the
    rendering of a tree gives the tree again, for trees that hold no empty
    chunk, whose keys and string leaves are plain words, and whose maps and
    lists nest fewer than 2^32 deep, rendered with an aligner of spaces and
    tabs. */
module RoundTrip {
  import opened Chunks
  import opened Text
  import opened Comments
  import opened Segments
  import opened Parser
  import opened Render

  // ---------------------------------------------------------------------
  // The trees the law is about

  /** A character strval writes as it is and set reads as part of a word. */
  predicate WordChar(c: char)
  {
    IsRead(c) && c !in {'"', '\'', '{', '}', '[', ']', '=', ';', ',', '\\'}
  }

  /** A non-empty run of word characters. */
  predicate Word(w: string)
  {
    |w| > 0 && forall x :: 0 <= x < |w| ==> WordChar(w[x])
  }

  /** Spaces, tabs and newlines only. */
  predicate Pad(p: string)
  {
    forall x :: 0 <= x < |p| ==> p[x] in {' ', '\t', '\n'}
  }

  /** An aligner made of spaces and tabs. */
  predicate Indent(al: string)
  {
    forall x :: 0 <= x < |al| ==> al[x] in {' ', '\t'}
  }

  /** A tree set reads back from its rendering: no empty chunk, keys and
      string leaves are words, and maps and lists nest at most `depth`
      deep. */
  predicate Readable(c: Chunk, depth: nat)
  {
    match c
    case None => false
    case Str(v) => Word(v)
    case Map(m) => depth > 0 && forall k :: k in m ==> Word(k) && Readable(m[k], depth - 1)
    case List(l) => depth > 0 && forall x :: 0 <= x < |l| ==> Readable(l[x], depth - 1)
  }

  /** Element `y` of `l` reads back as itself once rendered. */
  ghost predicate ItemBack(l: seq<Chunk>, y: int, a: nat, al: string)
  {
    0 <= y < |l| && SetOutcome(Render.Render(l[y], a, al)) == Done(l[y])
  }

  /** The value of key `k` in `m` reads back as itself once rendered. */
  ghost predicate ValueBack(m: map<string, Chunk>, k: string, a: nat, al: string)
  {
    k in m && SetOutcome(Render.Render(m[k], a, al)) == Done(m[k])
  }

  /** No key appears twice. */
  predicate Distinct(ks: seq<string>)
  {
    forall x, y :: 0 <= x < y < |ks| ==> ks[x] != ks[y]
  }

  // ---------------------------------------------------------------------
  // The rendering read front to back

  /** The entry lines of the keys `ks[j..]`, first key first. */
  ghost function LinesFrom(m: map<string, Chunk>, ks: seq<string>, j: nat, a: nat, al: string): string
    requires j <= |ks| && forall k :: k in ks ==> k in m
    decreases |ks| - j
  {
    if j == |ks| then "" else EntryLine(ks[j], m[ks[j]], a, al) + LinesFrom(m, ks, j + 1, a, al)
  }

  /** The element lines of `l[j..]`: each but the last ends in a comma. */
  ghost function ItemsFrom(l: seq<Chunk>, j: nat, a: nat, al: string): string
    requires j < |l|
    decreases |l| - j
  {
    Repeat(al, a) + Child(l[j], a, al) + (if j == |l| - 1 then "\n" else ",\n" + ItemsFrom(l, j + 1, a, al))
  }

  /** The text strval writes between the braces or brackets of a group. */
  ghost function Inner(c: Chunk, a: nat, al: string): string
    requires c.Map? || c.List?
  {
    match c
    case Map(m) => if |m| == 0 then "" else "\n" + LinesFrom(m, SortedKeys(m.Keys), 0, a + 1, al) + Repeat(al, a)
    case List(l) => if |l| == 0 then "" else "\n" + ItemsFrom(l, 0, a + 1, al) + Repeat(al, a)
  }

  lemma {:induction false} MapLinesSplit(m: map<string, Chunk>, ks: seq<string>, n: nat, a: nat, al: string)
    requires n <= |ks| && forall k :: k in ks ==> k in m
    ensures MapLines(m, ks, n, a, al) + LinesFrom(m, ks, n, a, al) == LinesFrom(m, ks, 0, a, al)
    decreases n
  {
    if n > 0 {
      MapLinesSplit(m, ks, n - 1, a, al);
      var e := EntryLine(ks[n - 1], m[ks[n - 1]], a, al);
      assert MapLines(m, ks, n, a, al) == MapLines(m, ks, n - 1, a, al) + e;
      assert LinesFrom(m, ks, n - 1, a, al) == e + LinesFrom(m, ks, n, a, al);
      Assoc(MapLines(m, ks, n - 1, a, al), e, LinesFrom(m, ks, n, a, al));
    }
  }

  lemma {:induction false} CommaLinesSplit(l: seq<Chunk>, n: nat, a: nat, al: string)
    requires n < |l|
    ensures CommaLines(l, n, a, al) + ItemsFrom(l, n, a, al) == ItemsFrom(l, 0, a, al)
    decreases n
  {
    if n > 0 {
      CommaLinesSplit(l, n - 1, a, al);
      var r := Repeat(al, a);
      var ch := Child(l[n - 1], a, al);
      var e := r + ch;
      var c := CommaLines(l, n - 1, a, al);
      var t := ItemsFrom(l, n, a, al);
      assert CommaLines(l, n, a, al) == c + r + ch + ",\n";
      assert ItemsFrom(l, n - 1, a, al) == e + (",\n" + t);
      Assoc(c, r, ch);
      Assoc(c + e, ",\n", t);
      Assoc(c, e, ",\n" + t);
    }
  }

  /** `{\n` + lines + tail + `}` is the opening character, the inner text
      and the closing character. */
  lemma {:induction false} Framed(o: char, x: string, y: string, cl: char)
    ensures [o] + "\n" + x + y + [cl] == [o] + ("\n" + x + y) + [cl]
  {
    Assoc([o], "\n" + x, y);
    Assoc([o], "\n", x);
  }

  lemma {:induction false} MapInner(m: map<string, Chunk>, a: nat, al: string)
    requires |m| > 0
    ensures Render.Render(Map(m), a, al) == ['{'] + Inner(Map(m), a, al) + ['}']
  {
    var ks := SortedKeys(m.Keys);
    MapLinesSplit(m, ks, |ks|, a + 1, al);
    var x := MapLines(m, ks, |ks|, a + 1, al);
    assert LinesFrom(m, ks, |ks|, a + 1, al) == "";
    assert x + "" == x;
    var y := Repeat(al, a);
    assert "{\n" == ['{'] + "\n";
    assert Render.Render(Map(m), a, al) == ['{'] + "\n" + x + y + ['}'];
    Framed('{', x, y, '}');
  }

  lemma {:induction false} ListInner(l: seq<Chunk>, a: nat, al: string)
    requires |l| > 0
    ensures Render.Render(List(l), a, al) == ['['] + Inner(List(l), a, al) + [']']
  {
    var n := |l| - 1;
    var c := CommaLines(l, n, a + 1, al);
    var r := Repeat(al, a + 1);
    var ch := Child(l[n], a + 1, al);
    CommaLinesSplit(l, n, a + 1, al);
    assert ItemsFrom(l, n, a + 1, al) == r + ch + "\n";
    assert ListLines(l, a + 1, al) == c + r + ch + "\n";
    Assoc(c, r, ch);
    Assoc(c, r + ch, "\n");
    assert ListLines(l, a + 1, al) == ItemsFrom(l, 0, a + 1, al);
    var x := ListLines(l, a + 1, al);
    var y := Repeat(al, a);
    assert "[\n" == ['['] + "\n";
    assert Render.Render(List(l), a, al) == ['['] + "\n" + x + y + [']'];
    Framed('[', x, y, ']');
  }

  /** A group is rendered as its opening character, its inner text and its
      closing character. */
  lemma {:induction false} RenderInner(c: Chunk, a: nat, al: string)
    requires c.Map? || c.List?
    ensures Render.Render(c, a, al) == [OpenOf(c)] + Inner(c, a, al) + [CloseOf(OpenOf(c))]
  {
    match c
    case Map(m) =>
      if |m| > 0 {
        MapInner(m, a, al);
      } else {
        assert Render.Render(c, a, al) == "{}";
      }
    case List(l) =>
      if |l| > 0 {
        ListInner(l, a, al);
      } else {
        assert Render.Render(c, a, al) == "[]";
      }
  }

  /** The rendering of a readable tree starts and ends with a printable
      character: a brace or bracket for a group, the word itself for a
      string. */
  lemma {:induction false} RenderEnds(c: Chunk, a: nat, al: string, n: nat)
    requires Readable(c, n)
    ensures var r := Render.Render(c, a, al);
      && |r| > 0 && IsRead(r[0]) && IsRead(r[|r| - 1])
      && (c.Str? ==> r == c.val)
      && (!c.Str? ==> r[0] == (if c.Map? then '{' else '[') && r[|r| - 1] == (if c.Map? then '}' else ']'))
  {
    if !c.Str? {
      Delimited(c, a, al);
    }
  }

  /** A string child is its word between double quotes. */
  lemma {:induction false} QuotedChild(c: Chunk, a: nat, al: string, n: nat)
    requires Readable(c, n) && c.Str?
    ensures Child(c, a, al) == "\"" + c.val + "\""
  {
    EscapedWithout(c.val, '"');
  }

  // ---------------------------------------------------------------------
  // Locating text inside a larger text

  /** `s` holds `x` at offset `i`. */
  predicate Holds(s: string, i: nat, x: string)
  {
    i + |x| <= |s| && s[i..i + |x|] == x
  }

  lemma {:induction false} HoldsSplit(s: string, i: nat, k: nat, x: string, y: string)
    requires Holds(s, i, x + y) && k == i + |x|
    ensures Holds(s, i, x) && Holds(s, k, y)
  {
    assert s[i..i + |x|] == s[i..i + |x + y|][..|x|];
    assert s[i + |x|..i + |x| + |y|] == s[i..i + |x + y|][|x|..];
  }

  lemma {:induction false} HoldsAt(s: string, i: nat, x: string, k: nat)
    requires Holds(s, i, x) && k < |x|
    ensures s[i + k] == x[k]
  {
    assert s[i + k] == s[i..i + |x|][k];
  }

  // ---------------------------------------------------------------------
  // The group loops of _getstrval pass over a rendered tree

  /** The opening character of a group. */
  function OpenOf(c: Chunk): char
  {
    if c.Map? then '{' else '['
  }

  function CloseOf(open: char): char
  {
    if open == '{' then '}' else ']'
  }

  function UpOf(open: char): nat
  {
    if open == '{' then 1 else U32 - 1
  }

  /** The counter of a group loop `d` levels inside the group it reads. */
  function Level(open: char, d: nat): (r: nat)
    requires d < U32
    ensures r < U32 && (r == 0 <==> d == 0)
  {
    if open == '{' then d else (U32 - d) % U32
  }

  lemma {:induction false} LevelSteps(open: char, d: nat)
    requires d + 1 < U32
    ensures (Level(open, d) + UpOf(open)) % U32 == Level(open, d + 1)
    ensures (Level(open, d + 1) + U32 - UpOf(open)) % U32 == Level(open, d)
  {
    if open != '{' {
      if d == 0 {
        assert Level(open, d) == 0;
      } else {
        assert Level(open, d) == U32 - d;
        assert Level(open, d) + UpOf(open) == (U32 - d - 1) + U32;
      }
      assert Level(open, d + 1) == U32 - d - 1;
      assert Level(open, d + 1) + U32 - UpOf(open) == U32 - d;
    }
  }

  /** The group loop for `open`, `d` levels deep, from offset `i`. */
  function Walk(s: string, i: nat, open: char, d: nat, j: nat): Result<nat>
    requires i <= |s| && j < |s| && d < U32
  {
    GroupEnd(s, i, open, CloseOf(open), UpOf(open), Level(open, d), j)
  }

  /** Text without quotes and without the group's own characters. */
  predicate Quiet(x: string, open: char)
  {
    forall k :: 0 <= k < |x| ==> x[k] !in {'"', '\'', open, CloseOf(open)}
  }

  /** Quiet text from `i` to `e` leaves the loop as it found it. */
  lemma {:induction false} QuietSkip(s: string, i: nat, e: nat, x: string, open: char, d: nat, j: nat)
    requires Holds(s, i, x) && Quiet(x, open) && e == i + |x| && j < |s| && d < U32
    ensures Walk(s, i, open, d, j) == Walk(s, e, open, d, j)
    decreases |x|
  {
    if x != "" {
      HoldsAt(s, i, x, 0);
      assert Holds(s, i + 1, x[1..]) by {
        assert x == [x[0]] + x[1..];
        HoldsSplit(s, i, i + 1, [x[0]], x[1..]);
      }
      QuietSkip(s, i + 1, e, x[1..], open, d, j);
    } else {
      assert e == i;
    }
  }

  lemma {:induction false} WordQuiet(w: string, open: char)
    requires Word(w) && (open == '{' || open == '[')
    ensures Quiet(w, open)
  {
  }

  lemma {:induction false} IndentQuiet(al: string, a: nat, open: char)
    requires Indent(al) && (open == '{' || open == '[')
    ensures Quiet(Repeat(al, a), open) && Pad(Repeat(al, a))
  {
    RepeatChars(al, a);
    forall k | 0 <= k < |Repeat(al, a)|
      ensures Repeat(al, a)[k] in {' ', '\t'}
    {
      var c := Repeat(al, a)[k];
      assert c in al;
      var x :| 0 <= x < |al| && al[x] == c;
    }
  }

  lemma {:induction false} QuotedSkip(s: string, i: nat, e: nat, v: string, open: char, d: nat, j: nat)
    requires Holds(s, i, "\"" + v + "\"") && Word(v) && e == i + |v| + 2
    requires j < |s| && d < U32 && (open == '{' || open == '[')
    ensures Walk(s, i, open, d, j) == Walk(s, e, open, d, j)
  {
    QuoteSpan(s, i, v);
    assert QuoteEnd(s, i + 1, '"') + 1 == e;
  }

  /** A child line, a rendering or the inner text of a group, from `i` to
      `e`, leaves the counter of an enclosing group loop as it found it. */
  lemma {:induction false} ChildSkip(s: string, i: nat, e: nat, c: Chunk, a: nat, al: string, open: char, d: nat, j: nat, n: nat)
    requires open == '{' || open == '['
    requires Readable(c, n) && Indent(al) && d + n < U32 && j < |s|
    requires Holds(s, i, Child(c, a, al)) && e == i + |Child(c, a, al)|
    ensures Walk(s, i, open, d, j) == Walk(s, e, open, d, j)
    decreases c, 5
  {
    if c.Str? {
      QuotedChild(c, a, al, n);
      QuotedSkip(s, i, e, c.val, open, d, j);
    } else {
      RenderSkip(s, i, e, c, a, al, open, d, j, n);
    }
  }

  lemma {:induction false} QuietCat(x: string, y: string, open: char)
    requires Quiet(x, open) && Quiet(y, open)
    ensures Quiet(x + y, open)
  {
    forall k | 0 <= k < |x + y|
      ensures (x + y)[k] !in {'"', '\'', open, CloseOf(open)}
    {
      if k >= |x| {
        assert (x + y)[k] == y[k - |x|];
      }
    }
  }

  /** Where the middle of three pieces sits. */
  lemma {:induction false} Middle(s: string, i: nat, p: nat, x: string, y: string, z: string)
    requires Holds(s, i, x + y + z) && p == i + |x|
    ensures Holds(s, p, y)
  {
    HoldsSplit(s, i, i + |x + y|, x + y, z);
    HoldsSplit(s, i, i + |x|, x, y);
  }

  /** Text passed over between two quiet pieces is passed over with them:
      the pieces run from `i` to `p`, `p` to `q` and `q` to `e`. */
  lemma {:induction false} Around(s: string, i: nat, p: nat, q: nat, e: nat, x: string, y: string, z: string, open: char, d: nat, j: nat)
    requires (open == '{' || open == '[') && j < |s| && d < U32
    requires Holds(s, i, x + y + z) && Quiet(x, open) && Quiet(z, open)
    requires p == i + |x| && q == p + |y| && e == q + |z|
    requires Walk(s, p, open, d, j) == Walk(s, q, open, d, j)
    ensures Walk(s, i, open, d, j) == Walk(s, e, open, d, j)
  {
    HoldsSplit(s, i, i + |x + y|, x + y, z);
    HoldsSplit(s, i, i + |x|, x, y);
    QuietSkip(s, i, p, x, open, d, j);
    QuietSkip(s, q, e, z, open, d, j);
  }

  /** The loop's own opening and closing characters around inner text it
      passes over one level deeper: the counter goes up and back down. */
  lemma {:induction false} OwnFrameSkip(s: string, i: nat, p: nat, q: nat, e: nat, inner: string, open: char, d: nat, j: nat)
    requires (open == '{' || open == '[') && j < |s| && d + 1 < U32
    requires Holds(s, i, [open] + inner + [CloseOf(open)])
    requires p == i + 1 && q == p + |inner| && e == q + 1
    requires Walk(s, p, open, d + 1, j) == Walk(s, q, open, d + 1, j)
    ensures Walk(s, i, open, d, j) == Walk(s, e, open, d, j)
  {
    HoldsSplit(s, i, i + |[open] + inner|, [open] + inner, [CloseOf(open)]);
    HoldsAt(s, i, [open] + inner, 0);
    HoldsAt(s, q, [CloseOf(open)], 0);
    LevelSteps(open, d);
    assert Walk(s, i, open, d, j) == Walk(s, p, open, d + 1, j);
    assert Walk(s, q, open, d + 1, j) == Walk(s, e, open, d, j);
  }

  lemma {:induction false} RenderSkip(s: string, i: nat, e: nat, c: Chunk, a: nat, al: string, open: char, d: nat, j: nat, n: nat)
    requires open == '{' || open == '['
    requires (c.Map? || c.List?) && Readable(c, n) && Indent(al) && d + n < U32 && j < |s|
    requires Holds(s, i, Render.Render(c, a, al)) && e == i + |Render.Render(c, a, al)|
    ensures Walk(s, i, open, d, j) == Walk(s, e, open, d, j)
    decreases c, 4
  {
    RenderInner(c, a, al);
    if OpenOf(c) == open {
      OwnRenderSkip(s, i, e, c, a, al, open, d, j, n);
    } else {
      OtherRenderSkip(s, i, e, c, a, al, open, d, j, n);
    }
  }

  /** A group of the loop's own kind. */
  lemma {:induction false} OwnRenderSkip(s: string, i: nat, e: nat, c: Chunk, a: nat, al: string, open: char, d: nat, j: nat, n: nat)
    requires OpenOf(c) == open
    requires (c.Map? || c.List?) && Readable(c, n) && Indent(al) && d + n < U32 && j < |s|
    requires Holds(s, i, [open] + Inner(c, a, al) + [CloseOf(open)]) && e == i + |Inner(c, a, al)| + 2
    ensures Walk(s, i, open, d, j) == Walk(s, e, open, d, j)
    decreases c, 3
  {
    var inner := Inner(c, a, al);
    var p := i + 1;
    var q := p + |inner|;
    Middle(s, i, p, [open], inner, [CloseOf(open)]);
    assert n > 0;
    InnerSkip(s, p, q, c, a, al, open, d + 1, j, n);
    OwnFrameSkip(s, i, p, q, e, inner, open, d, j);
  }

  /** A group of the other kind. */
  lemma {:induction false} OtherRenderSkip(s: string, i: nat, e: nat, c: Chunk, a: nat, al: string, open: char, d: nat, j: nat, n: nat)
    requires (open == '{' || open == '[') && OpenOf(c) != open
    requires (c.Map? || c.List?) && Readable(c, n) && Indent(al) && d + n < U32 && j < |s|
    requires Holds(s, i, [OpenOf(c)] + Inner(c, a, al) + [CloseOf(OpenOf(c))]) && e == i + |Inner(c, a, al)| + 2
    ensures Walk(s, i, open, d, j) == Walk(s, e, open, d, j)
    decreases c, 3
  {
    var o := OpenOf(c);
    var inner := Inner(c, a, al);
    var p := i + 1;
    var q := p + |inner|;
    Middle(s, i, p, [o], inner, [CloseOf(o)]);
    InnerSkip(s, p, q, c, a, al, open, d, j, n);
    Around(s, i, p, q, e, [o], inner, [CloseOf(o)], open, d, j);
  }

  lemma {:induction false} InnerSkip(s: string, i: nat, e: nat, c: Chunk, a: nat, al: string, open: char, d: nat, j: nat, n: nat)
    requires open == '{' || open == '['
    requires (c.Map? || c.List?) && Readable(c, n) && Indent(al) && d + n <= U32 && j < |s|
    requires Holds(s, i, Inner(c, a, al)) && e == i + |Inner(c, a, al)|
    ensures Walk(s, i, open, d, j) == Walk(s, e, open, d, j)
    decreases c, 2
  {
    if Inner(c, a, al) == "" {
      assert e == i;
    } else if c.Map? {
      MapInnerSkip(s, i, e, c.values, a, al, open, d, j, n);
    } else {
      ListInnerSkip(s, i, e, c.items, a, al, open, d, j, n);
    }
  }

  lemma {:induction false} MapInnerSkip(s: string, i: nat, e: nat, m: map<string, Chunk>, a: nat, al: string, open: char, d: nat, j: nat, n: nat)
    requires open == '{' || open == '['
    requires |m| > 0 && Readable(Map(m), n) && Indent(al) && d + n <= U32 && j < |s|
    requires Holds(s, i, Inner(Map(m), a, al)) && e == i + |Inner(Map(m), a, al)|
    ensures Walk(s, i, open, d, j) == Walk(s, e, open, d, j)
    decreases Map(m), 1
  {
    var tail := Repeat(al, a);
    var lines := LinesFrom(m, SortedKeys(m.Keys), 0, a + 1, al);
    assert Inner(Map(m), a, al) == "\n" + lines + tail;
    var p := i + 1;
    var q := p + |lines|;
    IndentQuiet(al, a, open);
    Middle(s, i, p, "\n", lines, tail);
    LinesSkip(s, p, q, m, SortedKeys(m.Keys), 0, a + 1, al, open, d, j, n - 1);
    Around(s, i, p, q, e, "\n", lines, tail, open, d, j);
  }

  lemma {:induction false} ListInnerSkip(s: string, i: nat, e: nat, l: seq<Chunk>, a: nat, al: string, open: char, d: nat, j: nat, n: nat)
    requires open == '{' || open == '['
    requires |l| > 0 && Readable(List(l), n) && Indent(al) && d + n <= U32 && j < |s|
    requires Holds(s, i, Inner(List(l), a, al)) && e == i + |Inner(List(l), a, al)|
    ensures Walk(s, i, open, d, j) == Walk(s, e, open, d, j)
    decreases List(l), 1
  {
    var tail := Repeat(al, a);
    var items := ItemsFrom(l, 0, a + 1, al);
    assert Inner(List(l), a, al) == "\n" + items + tail;
    var p := i + 1;
    var q := p + |items|;
    IndentQuiet(al, a, open);
    Middle(s, i, p, "\n", items, tail);
    ItemsSkip(s, p, q, l, 0, a + 1, al, open, d, j, n - 1);
    Around(s, i, p, q, e, "\n", items, tail, open, d, j);
  }

  /** The text before the child of an entry line is quiet. */
  lemma {:induction false} KeyQuiet(indent: string, k: string, open: char)
    requires Quiet(indent, open) && Word(k) && (open == '{' || open == '[')
    ensures Quiet(indent + k + " = ", open)
  {
    WordQuiet(k, open);
    QuietCat(indent, k, open);
    QuietCat(indent + k, " = ", open);
  }

  lemma {:induction false} LinesSkip(s: string, i: nat, e: nat, m: map<string, Chunk>, ks: seq<string>, x: nat, a: nat, al: string, open: char, d: nat, j: nat, n: nat)
    requires open == '{' || open == '['
    requires x <= |ks| && forall k :: k in ks ==> k in m
    requires forall k :: k in m ==> Word(k) && Readable(m[k], n)
    requires Indent(al) && d + n < U32 && j < |s|
    requires Holds(s, i, LinesFrom(m, ks, x, a, al)) && e == i + |LinesFrom(m, ks, x, a, al)|
    ensures Walk(s, i, open, d, j) == Walk(s, e, open, d, j)
    decreases Map(m), 0, |ks| - x
  {
    if x < |ks| {
      var k := ks[x];
      var pre := Repeat(al, a) + k + " = ";
      var child := Child(m[k], a, al);
      var rest := LinesFrom(m, ks, x + 1, a, al);
      assert LinesFrom(m, ks, x, a, al) == pre + child + "\n" + rest;
      var p := i + |pre|;
      var q := p + |child|;
      var r := q + 1;
      HoldsSplit(s, i, r, pre + child + "\n", rest);
      Middle(s, i, p, pre, child, "\n");
      IndentQuiet(al, a, open);
      KeyQuiet(Repeat(al, a), k, open);
      ChildSkip(s, p, q, m[k], a, al, open, d, j, n);
      Around(s, i, p, q, r, pre, child, "\n", open, d, j);
      LinesSkip(s, r, e, m, ks, x + 1, a, al, open, d, j, n);
    } else {
      assert e == i;
    }
  }

  lemma {:induction false} ItemsSkip(s: string, i: nat, e: nat, l: seq<Chunk>, x: nat, a: nat, al: string, open: char, d: nat, j: nat, n: nat)
    requires open == '{' || open == '['
    requires x < |l| && forall y :: 0 <= y < |l| ==> Readable(l[y], n)
    requires Indent(al) && d + n < U32 && j < |s|
    requires Holds(s, i, ItemsFrom(l, x, a, al)) && e == i + |ItemsFrom(l, x, a, al)|
    ensures Walk(s, i, open, d, j) == Walk(s, e, open, d, j)
    decreases List(l), 0, |l| - x, 1
  {
    if x == |l| - 1 {
      LastItemSkip(s, i, e, l, x, a, al, open, d, j, n);
    } else {
      NextItemSkip(s, i, e, l, x, a, al, open, d, j, n);
    }
  }

  /** The last element line. */
  lemma {:induction false} LastItemSkip(s: string, i: nat, e: nat, l: seq<Chunk>, x: nat, a: nat, al: string, open: char, d: nat, j: nat, n: nat)
    requires open == '{' || open == '['
    requires x == |l| - 1 && forall y :: 0 <= y < |l| ==> Readable(l[y], n)
    requires Indent(al) && d + n < U32 && j < |s|
    requires Holds(s, i, ItemsFrom(l, x, a, al)) && e == i + |ItemsFrom(l, x, a, al)|
    ensures Walk(s, i, open, d, j) == Walk(s, e, open, d, j)
    decreases List(l), 0, |l| - x, 0
  {
    var indent := Repeat(al, a);
    var child := Child(l[x], a, al);
    var p := i + |indent|;
    var q := p + |child|;
    IndentQuiet(al, a, open);
    assert ItemsFrom(l, x, a, al) == indent + child + "\n";
    Middle(s, i, p, indent, child, "\n");
    ChildSkip(s, p, q, l[x], a, al, open, d, j, n);
    Around(s, i, p, q, e, indent, child, "\n", open, d, j);
  }

  /** An element line followed by more. */
  lemma {:induction false} NextItemSkip(s: string, i: nat, e: nat, l: seq<Chunk>, x: nat, a: nat, al: string, open: char, d: nat, j: nat, n: nat)
    requires open == '{' || open == '['
    requires x < |l| - 1 && forall y :: 0 <= y < |l| ==> Readable(l[y], n)
    requires Indent(al) && d + n < U32 && j < |s|
    requires Holds(s, i, ItemsFrom(l, x, a, al)) && e == i + |ItemsFrom(l, x, a, al)|
    ensures Walk(s, i, open, d, j) == Walk(s, e, open, d, j)
    decreases List(l), 0, |l| - x, 0
  {
    var indent := Repeat(al, a);
    var child := Child(l[x], a, al);
    var rest := ItemsFrom(l, x + 1, a, al);
    var p := i + |indent|;
    var q := p + |child|;
    var r := q + 2;
    IndentQuiet(al, a, open);
    Assoc(indent + child, ",\n", rest);
    assert ItemsFrom(l, x, a, al) == indent + child + ",\n" + rest;
    HoldsSplit(s, i, r, indent + child + ",\n", rest);
    Middle(s, i, p, indent, child, ",\n");
    ChildSkip(s, p, q, l[x], a, al, open, d, j, n);
    Around(s, i, p, q, r, indent, child, ",\n", open, d, j);
    ItemsSkip(s, r, e, l, x + 1, a, al, open, d, j, n);
  }

  /** The group loop that starts after the opening character of a rendered
      group stops at its closing character. */
  lemma {:induction false} GroupGrab(s: string, i: nat, e: nat, c: Chunk, a: nat, al: string, n: nat)
    requires (c.Map? || c.List?) && Readable(c, n) && Indent(al) && n <= U32
    requires Holds(s, i, Render.Render(c, a, al)) && e == i + |Render.Render(c, a, al)| - 1
    ensures GroupEnd(s, i + 1, OpenOf(c), CloseOf(OpenOf(c)), UpOf(OpenOf(c)), 0, i) == Ok(e)
  {
    var o := OpenOf(c);
    var inner := Inner(c, a, al);
    RenderInner(c, a, al);
    var p := i + 1;
    HoldsSplit(s, i, e, [o] + inner, [CloseOf(o)]);
    Middle(s, i, p, [o], inner, [CloseOf(o)]);
    HoldsAt(s, e, [CloseOf(o)], 0);
    InnerSkip(s, p, e, c, a, al, o, 0, i, n);
    assert Level(o, 0) == 0;
    assert Walk(s, e, o, 0, i) == Ok(e);
  }

  // ---------------------------------------------------------------------
  // _getstrval over rendered text

  lemma {:induction false} FirstReadAt(s: string, i: nat, k: nat)
    requires i <= k <= |s|
    requires forall x :: i <= x < k ==> !IsRead(s[x])
    requires k < |s| ==> IsRead(s[k])
    ensures FirstRead(s, i) == k
    decreases k - i
  {
    if i < k {
      FirstReadAt(s, i + 1, k);
    }
  }

  /** The blanks of `p` at offset `i` are passed over. */
  lemma {:induction false} PadRead(s: string, p: string, i: nat)
    requires Holds(s, 0, p) && Pad(p) && |p| <= i <= |s|
    requires forall x :: |p| <= x < i ==> !IsRead(s[x])
    requires i < |s| ==> IsRead(s[i])
    ensures FirstRead(s, 0) == i
  {
    forall x | 0 <= x < |p|
      ensures !IsRead(s[x])
    {
      HoldsAt(s, 0, p, x);
    }
    FirstReadAt(s, 0, i);
  }

  lemma {:induction false} WordScan(s: string, delim: char, alt: char, i: nat, w: string, val: string)
    requires Holds(s, i, w) && forall x :: 0 <= x < |w| ==> WordChar(w[x])
    requires !WordChar(delim) && !WordChar(alt)
    ensures ScanValue(s, delim, alt, i, val) == ScanValue(s, delim, alt, i + |w|, val + w)
    decreases |w|
  {
    if w != "" {
      HoldsAt(s, i, w, 0);
      assert w == [w[0]] + w[1..];
      HoldsSplit(s, i, i + 1, [w[0]], w[1..]);
      assert Dispatch(s, delim, alt, i, val) == ScanValue(s, delim, alt, i + 1, val + [w[0]]);
      WordScan(s, delim, alt, i + 1, w[1..], val + [w[0]]);
      assert val + [w[0]] + w[1..] == val + w;
    } else {
      assert val + w == val;
    }
  }

  lemma {:induction false} QuoteTextPlain(s: string, i: nat, e: nat, q: char)
    requires i <= e < |s| && s[e] == q
    requires forall x :: i <= x < e ==> s[x] != q && s[x] != '\\'
    ensures QuoteText(s, i, q) == s[i..e]
    decreases e - i
  {
    if i < e {
      QuoteTextPlain(s, i + 1, e, q);
      assert s[i..e] == [s[i]] + s[i + 1..e];
    }
  }

  lemma {:induction false} TrimRead(r: string)
    requires |r| > 0 && IsRead(r[|r| - 1])
    ensures TrimEnd(r) == r
  {
  }

  lemma {:induction false} TrimPad(r: string, p: string)
    requires |r| > 0 && IsRead(r[|r| - 1]) && Pad(p)
    ensures TrimEnd(r + p) == r
    decreases |p|
  {
    if p == "" {
      assert r + p == r;
    } else {
      var q := p[..|p| - 1];
      assert (r + p)[..|r + p| - 1] == r + q;
      TrimPad(r, q);
    }
  }

  /** A word between double quotes at `i`: the quote closes after the
      word, and its text is the word. */
  lemma {:induction false} QuoteSpan(s: string, i: nat, v: string)
    requires Holds(s, i, "\"" + v + "\"") && Word(v)
    ensures s[i] == '"'
    ensures QuoteEnd(s, i + 1, '"') == i + 1 + |v|
    ensures QuoteText(s, i + 1, '"') == v
  {
    var t := "\"" + v + "\"";
    var e := i + 1 + |v|;
    forall x | i + 1 <= x < e
      ensures s[x] == v[x - i - 1] && s[x] != '"' && s[x] != '\\'
    {
      HoldsAt(s, i, t, x - i);
    }
    HoldsAt(s, i, t, 0);
    HoldsAt(s, i, t, |v| + 1);
    QuoteEndPlain(s, i + 1, e, '"');
    QuoteTextPlain(s, i + 1, e, '"');
    assert s[i + 1..e] == v;
  }

  lemma {:induction false} HoldsSlice(s: string, i: nat, k: nat, x: string)
    requires Holds(s, i, x) && k == i + |x|
    ensures s[i..k] == x
  {
  }

  lemma {:induction false} StrScan(s: string, delim: char, alt: char, i: nat, k: nat, v: string)
    requires Holds(s, i, "\"" + v + "\"") && Word(v) && k == i + |v| + 2
    requires k < |s| && s[k] !in {'"', '\''}
    ensures ScanValue(s, delim, alt, i, "") == ScanValue(s, delim, alt, k, v)
  {
    QuoteSpan(s, i, v);
    assert QuoteEnd(s, i + 1, '"') + 1 == k;
    assert "" + v == v;
  }

  /** The brace or bracket branch of _getstrval, for a group that closes
      just before `k`. */
  lemma {:induction false} GroupValue(s: string, delim: char, alt: char, i: nat, k: nat, val: string)
    requires i < k <= |s| && (s[i] == '{' || s[i] == '[')
    requires GroupEnd(s, i + 1, s[i], CloseOf(s[i]), UpOf(s[i]), 0, i) == Ok(k - 1)
    ensures ScanValue(s, delim, alt, i, val) == ScanValue(s, delim, alt, k, val + s[i..k])
  {
    assert At(s, i) == s[i];
    assert Dispatch(s, delim, alt, i, val) == ScanValue(s, delim, alt, k, val + s[i..k]);
  }

  lemma {:induction false} GroupScan(s: string, delim: char, alt: char, i: nat, k: nat, c: Chunk, a: nat, al: string, n: nat)
    requires (c.Map? || c.List?) && Readable(c, n) && n <= U32 && Indent(al)
    requires Holds(s, i, Render.Render(c, a, al)) && k == i + |Render.Render(c, a, al)| && k <= |s|
    ensures ScanValue(s, delim, alt, i, "") == ScanValue(s, delim, alt, k, Render.Render(c, a, al))
  {
    var r := Render.Render(c, a, al);
    RenderEnds(c, a, al, n);
    HoldsAt(s, i, r, 0);
    GroupGrab(s, i, k - 1, c, a, al, n);
    assert s[i] == OpenOf(c);
    GroupValue(s, delim, alt, i, k, "");
    HoldsSlice(s, i, k, r);
    assert "" + r == r;
  }

  /** The scan of a child reads the child whole and stops right after it,
      at `k`; what it has read is the rendering of the child. */
  lemma {:induction false} ChildScan(s: string, delim: char, alt: char, i: nat, k: nat, c: Chunk, a: nat, al: string, n: nat)
    requires Readable(c, n) && n <= U32 && Indent(al)
    requires Holds(s, i, Child(c, a, al)) && k == i + |Child(c, a, al)| && k < |s|
    requires s[k] !in {'"', '\''}
    ensures ScanValue(s, delim, alt, i, "") == ScanValue(s, delim, alt, k, Render.Render(c, a, al))
  {
    if c.Str? {
      QuotedChild(c, a, al, n);
      StrScan(s, delim, alt, i, k, c.val);
    } else {
      GroupScan(s, delim, alt, i, k, c, a, al, n);
    }
  }

  /** A child starts with a printable character. */
  lemma {:induction false} ChildFirst(c: Chunk, a: nat, al: string, n: nat)
    requires Readable(c, n) && n <= U32 && Indent(al)
    ensures |Child(c, a, al)| > 0 && IsRead(Child(c, a, al)[0])
  {
    if c.Str? {
      QuotedChild(c, a, al, n);
    } else {
      RenderEnds(c, a, al, n);
    }
  }

  lemma {:induction false} PadCat(p: string, q: string)
    requires Pad(p) && Pad(q)
    ensures Pad(p + q)
  {
    forall x | 0 <= x < |p + q|
      ensures (p + q)[x] in {' ', '\t', '\n'}
    {
      if x >= |p| {
        assert (p + q)[x] == q[x - |p|];
      }
    }
  }

  /** _getstrval once the scan from the first printable character `st`
      has stopped at `e`, inside the text. */
  lemma {:induction false} SegmentFound(s: string, delim: char, alt: char, st: nat, val: string, e: nat)
    requires st < |s| && FirstRead(s, 0) == st && e < |s|
    requires ScanValue(s, delim, alt, st, "") == Ok((val, e))
    ensures Segment(s, delim, alt) == Ok(Seg(val, s[e..], e, st, true))
  {
  }

  /** _getstrval once the scan has run to the end of the text. */
  lemma {:induction false} SegmentEnd(s: string, delim: char, alt: char, st: nat, val: string)
    requires st < |s| && FirstRead(s, 0) == st
    requires ScanValue(s, delim, alt, st, "") == Ok((val, |s|))
    ensures Segment(s, delim, alt) == Ok(Seg(TrimEnd(val), "", |s|, st, false))
  {
  }

  /** The blank before a `=` ends the key. */
  lemma {:induction false} SpaceEq(s: string, b: nat, val: string)
    requires b + 1 < |s| && s[b] == ' ' && s[b + 1] == '='
    ensures ScanValue(s, '=', '\0', b, val) == Ok((val, b + 2))
  {
    assert BlankRunEnd(s, b, '=', '\0') == b + 1;
  }

  /** A newline right after a map value ends it. */
  lemma {:induction false} LineEnd(s: string, b: nat, val: string)
    requires b < |s| && s[b] == '\n'
    ensures ScanValue(s, ';', '\n', b, val) == Ok((val, b + 1))
  {
    assert BlankRunEnd(s, b, ';', '\n') == b;
  }

  /** A comma right after an element ends it. */
  lemma {:induction false} CommaEnd(s: string, b: nat, val: string)
    requires b < |s| && s[b] == ','
    ensures ScanValue(s, ',', ';', b, val) == Ok((val, b + 1))
  {
  }

  /** Blanks up to the end of the text are one run. */
  lemma {:induction false} PadRun(s: string, i: nat)
    requires i <= |s| && Pad(s[i..])
    ensures BlankRunEnd(s, i, ',', ';') == |s|
    decreases |s| - i
  {
    if i < |s| {
      assert s[i] == s[i..][0];
      assert s[i + 1..] == s[i..][1..];
      PadRun(s, i + 1);
    }
  }

  /** A newline and blanks up to the end of the text end the last element,
      and are read as part of it. */
  lemma {:induction false} TailEnd(s: string, b: nat, val: string)
    requires b < |s| && s[b] == '\n' && Pad(s[b..])
    ensures ScanValue(s, ',', ';', b, val) == Ok((val + s[b..], |s|))
  {
    PadRun(s, b);
    assert s[b..|s|] == s[b..];
  }

  lemma {:induction false} EntryText(p: string, k: string, t: string, more: string)
    ensures p + k + " = " + t + "\n" + more == p + k + " =" + (" " + t + "\n" + more)
  {
    var pk := p + k;
    assert " = " == " =" + " ";
    Assoc(pk, " =", " ");
    Assoc(pk + " =", " ", t);
    Assoc(pk + " =", " " + t, "\n");
    Assoc(pk + " =", " " + t + "\n", more);
  }

  lemma {:induction false} LinesText(p: string, indent: string, k: string, child: string, rest: string, t: string)
    ensures p + (indent + k + " = " + child + "\n" + rest) + t == (p + indent) + k + " = " + child + "\n" + (rest + t)
  {
    var a := indent + k + " = " + child + "\n";
    Assoc(p, indent, k);
    Assoc(p, indent + k, " = ");
    Assoc(p, indent + k + " = ", child);
    Assoc(p, indent + k + " = " + child, "\n");
    Assoc(p, a, rest);
    Assoc(p + a, rest, t);
  }

  lemma {:induction false} LastItemText(indent: string, v: string, t: string)
    ensures "\n" + (indent + v + "\n") + t == ("\n" + indent) + v + "\n" + t
  {
    Assoc("\n", indent, v);
    Assoc("\n", indent + v, "\n");
  }

  lemma {:induction false} NextItemText(indent: string, v: string, rest: string, t: string)
    ensures "\n" + (indent + v + (",\n" + rest)) + t == ("\n" + indent) + v + "," + ("\n" + rest + t)
  {
    var w := indent + v;
    assert ",\n" == "," + "\n";
    Assoc(",", "\n", rest);
    Assoc(w, ",", "\n" + rest);
    Assoc("\n", w + ",", "\n" + rest);
    Assoc("\n" + (w + ","), "\n" + rest, t);
    Assoc("\n", w, ",");
    Assoc("\n", indent, v);
  }

  /** _getstrval(s, '=') over a word `k` at `q` followed by ` =`. */
  lemma {:induction false} KeyScan(s: string, q: nat, b: nat, k: string)
    requires FirstRead(s, 0) == q && Holds(s, q, k) && Word(k)
    requires b == q + |k| && b + 2 < |s| && s[b] == ' ' && s[b + 1] == '='
    ensures Segment(s, '=', '\0') == Ok(Seg(k, s[b + 2..], b + 2, q, true))
  {
    WordScan(s, '=', '\0', q, k, "");
    SpaceEq(s, b, "" + k);
    assert "" + k == k;
    SegmentFound(s, '=', '\0', q, k, b + 2);
  }

  /** A key followed by ` =`. */
  lemma {:induction false} KeySegment(str: string, p: string, k: string, rest: string)
    requires str == p + k + " =" + rest && Pad(p) && Word(k) && rest != ""
    ensures FirstRead(str, 0) == |p| && str[|p|] == k[0]
    ensures Segment(str, '=', '\0') == Ok(Seg(k, rest, |p| + |k| + 2, |p|, true))
  {
    var q := |p|;
    var b := q + |k|;
    HoldsSplit(str, 0, b + 2, p + k + " =", rest);
    HoldsSplit(str, 0, b, p + k, " =");
    HoldsSplit(str, 0, q, p, k);
    HoldsAt(str, q, k, 0);
    PadRead(str, p, q);
    HoldsAt(str, b, " =", 0);
    HoldsAt(str, b, " =", 1);
    KeyScan(str, q, b, k);
    assert str[b + 2..] == rest;
  }

  /** The value of a map entry line, up to the end of its line. */
  lemma {:induction false} ValueSegment(str: string, c: Chunk, a: nat, al: string, n: nat, more: string)
    requires Readable(c, n) && n <= U32 && Indent(al)
    requires str == " " + Child(c, a, al) + "\n" + more
    ensures Segment(str, ';', '\n') == Ok(Seg(Render.Render(c, a, al), more, |Child(c, a, al)| + 2, 1, more != ""))
  {
    var t := Child(c, a, al);
    var r := Render.Render(c, a, al);
    var b := 1 + |t|;
    HoldsSplit(str, 0, b + 1, " " + t + "\n", more);
    HoldsSplit(str, 0, b, " " + t, "\n");
    HoldsSplit(str, 0, 1, " ", t);
    ChildFirst(c, a, al, n);
    HoldsAt(str, 1, t, 0);
    HoldsAt(str, b, "\n", 0);
    PadRead(str, " ", 1);
    ChildScan(str, ';', '\n', 1, b, c, a, al, n);
    LineEnd(str, b, r);
    RenderEnds(c, a, al, n);
    TrimRead(r);
    assert str[b + 1..] == more;
  }

  /** _getkeyval once both of its scans have succeeded. */
  lemma {:induction false} KeyValOf(s: string, ks: Seg, vs: Seg, w: int)
    requires Segment(s, '=', '\0') == Ok(ks) && ks.val != "" && ks.val[0] != ';' && ks.found
    requires Segment(ks.rest, ';', '\n') == Ok(vs) && w == ks.restAt + vs.restAt
    ensures KeyVal(s) == Ok(KeyValue(ks.val, vs.val, vs.rest, w, vs.start, ks.start))
  {
  }

  /** _getkeyval on a map entry line. */
  lemma {:induction false} EntryKeyVal(str: string, p: string, k: string, c: Chunk, a: nat, al: string, n: nat, more: string, kv: KeyValue)
    requires Readable(c, n) && n <= U32 && Indent(al) && Pad(p) && Word(k)
    requires str == p + k + " = " + Child(c, a, al) + "\n" + more
    requires kv == KeyValue(k, Render.Render(c, a, al), more, |p| + |k| + |Child(c, a, al)| + 4, 1, |p|)
    ensures FirstRead(str, 0) == |p| && str[|p|] != '='
    ensures KeyVal(str) == Ok(kv)
  {
    var rest := " " + Child(c, a, al) + "\n" + more;
    EntryText(p, k, Child(c, a, al), more);
    KeySegment(str, p, k, rest);
    ValueSegment(rest, c, a, al, n, more);
    var ks := Seg(k, rest, |p| + |k| + 2, |p|, true);
    var vs := Seg(Render.Render(c, a, al), more, |Child(c, a, al)| + 2, 1, more != "");
    KeyValOf(str, ks, vs, kv.restAt);
  }

  /** One round of the map loop that reads a fresh key. */
  lemma {:induction false} RoundStep(input: string, str: string, i: int, i': int, acc: map<string, Chunk>, kv: KeyValue, c: Chunk)
    requires |str| < |input| && FirstRead(str, 0) < |str| && str[FirstRead(str, 0)] != '='
    requires KeyVal(str) == Ok(kv) && kv.key != "" && kv.key !in acc && SetOutcome(kv.value) == Done(c)
    requires i' == i + kv.restAt
    ensures EntryRound(input, str, i, acc) ==
      if kv.rest == "" then Stop(Done(Map(acc[kv.key := c])))
      else Next(kv.rest, i', acc[kv.key := c])
  {
  }

  /** A blank remainder ends the map loop without adding an entry. */
  lemma {:induction false} BlankEntries(input: string, t: string, i: int, acc: map<string, Chunk>)
    requires Pad(t) && |t| < |input|
    ensures Entries(input, t, i, acc) == Done(Map(acc))
  {
    PadRead(t, t, |t|);
    assert Segment(t, '=', '\0') == Ok(Seg("", "", 0, 0, false));
    assert Blank("");
    assert Segment("", ';', '\n') == Ok(Seg("", "", 0, 0, false));
    assert KeyVal(t) == Ok(KeyValue("", "", "", 0, 0, 0));
    assert EntryRound(input, t, i, acc) == Stop(Done(Map(acc)));
  }

  lemma {:induction false} EmptyCat(x: string)
    ensures "" + x == x
  {
  }

  /** The map loop goes on with the round's remainder. */
  lemma {:induction false} EntriesNext(input: string, str: string, i: int, acc: map<string, Chunk>, rest: string, at: int, acc': map<string, Chunk>)
    requires |str| < |input| && EntryRound(input, str, i, acc) == Next(rest, at, acc')
    ensures Entries(input, str, i, acc) == Entries(input, rest, at, acc')
  {
  }

  /** The map the loop has built after reading key `ks[j]`: the key was not
      among those read before, and once every key is read the map is `m`. */
  lemma {:induction false} NextAcc(ks: seq<string>, j: nat, m: map<string, Chunk>, acc: map<string, Chunk>, acc': map<string, Chunk>)
    requires j < |ks| && Distinct(ks) && (forall k :: k in ks <==> k in m)
    requires forall k :: k in acc <==> k in ks[..j]
    requires forall k :: k in acc ==> acc[k] == m[k]
    requires acc' == acc[ks[j] := m[ks[j]]]
    ensures ks[j] !in acc
    ensures forall k :: k in acc' <==> k in ks[..j + 1]
    ensures forall k :: k in acc' ==> acc'[k] == m[k]
    ensures j + 1 == |ks| ==> acc' == m
  {
    forall y | 0 <= y < j
      ensures ks[..j][y] != ks[j]
    {
      assert ks[..j][y] == ks[y];
    }
    assert ks[..j + 1] == ks[..j] + [ks[j]];
    if j + 1 == |ks| {
      assert ks[..j + 1] == ks;
    }
  }

  /** One round of the map loop over the entry line of key `ks[j]`. */
  lemma {:induction false} LineRound(input: string, m: map<string, Chunk>, ks: seq<string>, j: nat, a: nat, al: string, n: nat, p: string, t: string, i: int, i': int, acc: map<string, Chunk>)
    requires j < |ks| && (forall k :: k in ks ==> k in m) && ks[j] !in acc
    requires Word(ks[j]) && Readable(m[ks[j]], n) && SetOutcome(Render.Render(m[ks[j]], a, al)) == Done(m[ks[j]])
    requires n <= U32 && Indent(al) && Pad(p)
    requires |p + LinesFrom(m, ks, j, a, al) + t| < |input|
    requires i' == i + |p + Repeat(al, a)| + |ks[j]| + |Child(m[ks[j]], a, al)| + 4
    ensures !Blank(p + LinesFrom(m, ks, j, a, al) + t)
    ensures EntryRound(input, p + LinesFrom(m, ks, j, a, al) + t, i, acc) ==
      if LinesFrom(m, ks, j + 1, a, al) + t == "" then Stop(Done(Map(acc[ks[j] := m[ks[j]]])))
      else Next(LinesFrom(m, ks, j + 1, a, al) + t, i', acc[ks[j] := m[ks[j]]])
  {
    var k := ks[j];
    var c := m[k];
    var indent := Repeat(al, a);
    var child := Child(c, a, al);
    var rest := LinesFrom(m, ks, j + 1, a, al);
    var str := p + LinesFrom(m, ks, j, a, al) + t;
    assert LinesFrom(m, ks, j, a, al) == indent + k + " = " + child + "\n" + rest;
    IndentQuiet(al, a, '{');
    PadCat(p, indent);
    LinesText(p, indent, k, child, rest, t);
    var kv := KeyValue(k, Render.Render(c, a, al), rest + t, |p + indent| + |k| + |Child(c, a, al)| + 4, 1, |p + indent|);
    EntryKeyVal(str, p + indent, k, c, a, al, n, rest + t, kv);
    RoundStep(input, str, i, i', acc, kv, c);
  }

  /** The map loop over the last entry line, followed by blanks only. */
  lemma {:induction false} LastEntry(input: string, m: map<string, Chunk>, ks: seq<string>, j: nat, a: nat, al: string, n: nat, p: string, t: string, i: int, acc: map<string, Chunk>)
    requires j + 1 == |ks| && (forall k :: k in ks <==> k in m) && Distinct(ks)
    requires Word(ks[j]) && Readable(m[ks[j]], n) && SetOutcome(Render.Render(m[ks[j]], a, al)) == Done(m[ks[j]])
    requires n <= U32 && Indent(al) && Pad(p) && Pad(t)
    requires |p + LinesFrom(m, ks, j, a, al) + t| < |input|
    requires forall k :: k in acc <==> k in ks[..j]
    requires forall k :: k in acc ==> acc[k] == m[k]
    ensures !Blank(p + LinesFrom(m, ks, j, a, al) + t)
    ensures Entries(input, p + LinesFrom(m, ks, j, a, al) + t, i, acc) == Done(Map(m))
  {
    var k := ks[j];
    var str := p + LinesFrom(m, ks, j, a, al) + t;
    var acc' := acc[k := m[k]];
    NextAcc(ks, j, m, acc, acc');
    var i' := i + |p + Repeat(al, a)| + |k| + |Child(m[k], a, al)| + 4;
    LineRound(input, m, ks, j, a, al, n, p, t, i, i', acc);
    assert LinesFrom(m, ks, j + 1, a, al) == "";
    EmptyCat(t);
    if t != "" {
      EntriesNext(input, str, i, acc, t, i', acc');
      BlankEntries(input, t, i', acc');
    }
  }

  /** The map loop over the entry lines of `ks[j..]` collects the entries
      for those keys, which with the entries already read make up `m`. */
  lemma {:induction false} EntriesFrom(input: string, m: map<string, Chunk>, ks: seq<string>, j: nat, a: nat, al: string, n: nat, p: string, t: string, i: int, acc: map<string, Chunk>)
    requires j < |ks| && (forall k :: k in ks <==> k in m) && Distinct(ks)
    requires forall k :: k in m ==> Word(k) && Readable(m[k], n)
    requires forall k {:trigger ValueBack(m, k, a, al)} :: k in m ==> ValueBack(m, k, a, al)
    requires n <= U32 && Indent(al) && Pad(p) && Pad(t)
    requires |p + LinesFrom(m, ks, j, a, al) + t| < |input|
    requires forall k :: k in acc <==> k in ks[..j]
    requires forall k :: k in acc ==> acc[k] == m[k]
    ensures !Blank(p + LinesFrom(m, ks, j, a, al) + t)
    ensures Entries(input, p + LinesFrom(m, ks, j, a, al) + t, i, acc) == Done(Map(m))
    decreases |ks| - j, 1
  {
    assert ValueBack(m, ks[j], a, al);
    if j + 1 == |ks| {
      LastEntry(input, m, ks, j, a, al, n, p, t, i, acc);
    } else {
      EntriesOn(input, m, ks, j, a, al, n, p, t, i, acc);
    }
  }

  /** An entry followed by more entries: one round, then the rest. */
  lemma {:induction false} EntriesOn(input: string, m: map<string, Chunk>, ks: seq<string>, j: nat, a: nat, al: string, n: nat, p: string, t: string, i: int, acc: map<string, Chunk>)
    requires j + 1 < |ks| && (forall k :: k in ks <==> k in m) && Distinct(ks)
    requires forall k :: k in m ==> Word(k) && Readable(m[k], n)
    requires forall k {:trigger ValueBack(m, k, a, al)} :: k in m ==> ValueBack(m, k, a, al)
    requires n <= U32 && Indent(al) && Pad(p) && Pad(t)
    requires |p + LinesFrom(m, ks, j, a, al) + t| < |input|
    requires forall k :: k in acc <==> k in ks[..j]
    requires forall k :: k in acc ==> acc[k] == m[k]
    ensures !Blank(p + LinesFrom(m, ks, j, a, al) + t)
    ensures Entries(input, p + LinesFrom(m, ks, j, a, al) + t, i, acc) == Done(Map(m))
    decreases |ks| - j, 0
  {
    assert ValueBack(m, ks[j], a, al);
    var k := ks[j];
    var str := p + LinesFrom(m, ks, j, a, al) + t;
    var rest := LinesFrom(m, ks, j + 1, a, al);
    var acc' := acc[k := m[k]];
    NextAcc(ks, j, m, acc, acc');
    var i' := i + |p + Repeat(al, a)| + |k| + |Child(m[k], a, al)| + 4;
    LineRound(input, m, ks, j, a, al, n, p, t, i, i', acc);
    EmptyCat(rest);
    EntriesFrom(input, m, ks, j + 1, a, al, n, "", t, i', acc');
    EntriesNext(input, str, i, acc, rest + t, i', acc');
  }

  /** One round of the list loop. */
  lemma {:induction false} ItemStep(input: string, str: string, i: int, i': int, acc: seq<Chunk>, g: Seg, c: Chunk)
    requires |str| < |input| && Segment(str, ',', ';') == Ok(g) && SetOutcome(g.val) == Done(c)
    requires g.rest == "" || |g.rest| < |str|
    requires i' == i + g.restAt
    ensures Items(input, str, i, acc) ==
      if g.rest == "" then Done(List(acc + [c]))
      else Items(input, g.rest, i', acc + [c])
  {
  }

  /** _getstrval(s, ',', ';') over a child at `q` followed by a comma. */
  lemma {:induction false} CommaSegment(s: string, q: nat, b: nat, c: Chunk, a: nat, al: string, n: nat, rest: string, e: nat)
    requires Readable(c, n) && n <= U32 && Indent(al)
    requires FirstRead(s, 0) == q && Holds(s, q, Child(c, a, al)) && b == q + |Child(c, a, al)|
    requires e == b + 1 && e < |s| && s[b] == ',' && s[e..] == rest
    ensures Segment(s, ',', ';') == Ok(Seg(Render.Render(c, a, al), rest, e, q, true))
  {
    var r := Render.Render(c, a, al);
    ChildScan(s, ',', ';', q, b, c, a, al, n);
    CommaEnd(s, b, r);
    SegmentFound(s, ',', ';', q, r, e);
  }

  /** _getstrval(s, ',', ';') over a child at `q` followed by blanks up to
      the end of the text. */
  lemma {:induction false} TailSegment(s: string, q: nat, b: nat, c: Chunk, a: nat, al: string, n: nat)
    requires Readable(c, n) && n <= U32 && Indent(al)
    requires FirstRead(s, 0) == q && Holds(s, q, Child(c, a, al)) && b == q + |Child(c, a, al)|
    requires b < |s| && s[b] == '\n' && Pad(s[b..])
    ensures Segment(s, ',', ';') == Ok(Seg(Render.Render(c, a, al), "", |s|, q, false))
  {
    var r := Render.Render(c, a, al);
    ChildFirst(c, a, al, n);
    ChildScan(s, ',', ';', q, b, c, a, al, n);
    TailEnd(s, b, r);
    SegmentEnd(s, ',', ';', q, r + s[b..]);
    RenderEnds(c, a, al, n);
    TrimPad(r, s[b..]);
  }

  /** An element followed by a comma. */
  lemma {:induction false} ItemSegment(str: string, p: string, c: Chunk, a: nat, al: string, n: nat, rest: string)
    requires Readable(c, n) && n <= U32 && Indent(al) && Pad(p)
    requires str == p + Child(c, a, al) + "," + rest && rest != ""
    ensures FirstRead(str, 0) == |p|
    ensures Segment(str, ',', ';') == Ok(Seg(Render.Render(c, a, al), rest, |p| + |Child(c, a, al)| + 1, |p|, true))
  {
    var v := Child(c, a, al);
    var q := |p|;
    var b := q + |v|;
    HoldsSplit(str, 0, b + 1, p + v + ",", rest);
    HoldsSplit(str, 0, b, p + v, ",");
    HoldsSplit(str, 0, q, p, v);
    ChildFirst(c, a, al, n);
    HoldsAt(str, q, v, 0);
    HoldsAt(str, b, ",", 0);
    PadRead(str, p, q);
    assert str[b + 1..] == rest;
    CommaSegment(str, |p|, b, c, a, al, n, rest, |p| + |Child(c, a, al)| + 1);
  }

  /** The last element, followed by blanks only. */
  lemma {:induction false} LastItemSegment(str: string, p: string, c: Chunk, a: nat, al: string, n: nat, t: string)
    requires Readable(c, n) && n <= U32 && Indent(al) && Pad(p) && Pad(t)
    requires str == p + Child(c, a, al) + "\n" + t
    ensures FirstRead(str, 0) == |p|
    ensures Segment(str, ',', ';') == Ok(Seg(Render.Render(c, a, al), "", |str|, |p|, false))
  {
    var v := Child(c, a, al);
    var q := |p|;
    var b := q + |v|;
    Assoc(p + v, "\n", t);
    HoldsSplit(str, 0, b, p + v, "\n" + t);
    HoldsSplit(str, 0, q, p, v);
    ChildFirst(c, a, al, n);
    HoldsAt(str, q, v, 0);
    HoldsAt(str, b, "\n" + t, 0);
    PadRead(str, p, q);
    assert str[b..] == "\n" + t;
    PadCat("\n", t);
    TailSegment(str, q, b, c, a, al, n);
  }

  lemma {:induction false} ConsSlice(acc: seq<Chunk>, l: seq<Chunk>, j: nat)
    requires j < |l|
    ensures acc + [l[j]] + l[j + 1..] == acc + l[j..]
  {
    assert l[j..] == [l[j]] + l[j + 1..];
  }

  /** The list loop over the last element line, followed by blanks only. */
  lemma {:induction false} LastItem(input: string, l: seq<Chunk>, j: nat, a: nat, al: string, n: nat, t: string, i: int, acc: seq<Chunk>)
    requires j + 1 == |l| && Readable(l[j], n) && SetOutcome(Render.Render(l[j], a, al)) == Done(l[j])
    requires n <= U32 && Indent(al) && Pad(t)
    requires |"\n" + ItemsFrom(l, j, a, al) + t| < |input|
    ensures !Blank("\n" + ItemsFrom(l, j, a, al) + t)
    ensures Items(input, "\n" + ItemsFrom(l, j, a, al) + t, i, acc) == Done(List(acc + l[j..]))
  {
    var c := l[j];
    var v := Child(c, a, al);
    var indent := Repeat(al, a);
    var p := "\n" + indent;
    var str := "\n" + ItemsFrom(l, j, a, al) + t;
    IndentQuiet(al, a, '{');
    PadCat("\n", indent);
    assert ItemsFrom(l, j, a, al) == indent + v + "\n";
    LastItemText(indent, v, t);
    LastItemSegment(str, p, c, a, al, n, t);
    ItemStep(input, str, i, i + |str|, acc, Seg(Render.Render(c, a, al), "", |str|, |p|, false), c);
    assert l[j..] == [c];
  }

  /** One round of the list loop over an element line followed by a comma. */
  lemma {:induction false} NextItem(input: string, l: seq<Chunk>, j: nat, a: nat, al: string, n: nat, t: string, i: int, i': int, acc: seq<Chunk>)
    requires j + 1 < |l| && Readable(l[j], n) && SetOutcome(Render.Render(l[j], a, al)) == Done(l[j])
    requires n <= U32 && Indent(al)
    requires |"\n" + ItemsFrom(l, j, a, al) + t| < |input|
    requires i' == i + |"\n" + Repeat(al, a)| + |Child(l[j], a, al)| + 1
    ensures !Blank("\n" + ItemsFrom(l, j, a, al) + t)
    ensures |"\n" + ItemsFrom(l, j + 1, a, al) + t| < |"\n" + ItemsFrom(l, j, a, al) + t|
    ensures Items(input, "\n" + ItemsFrom(l, j, a, al) + t, i, acc) ==
      Items(input, "\n" + ItemsFrom(l, j + 1, a, al) + t, i', acc + [l[j]])
  {
    var c := l[j];
    var v := Child(c, a, al);
    var indent := Repeat(al, a);
    var p := "\n" + indent;
    var str := "\n" + ItemsFrom(l, j, a, al) + t;
    var rest := ItemsFrom(l, j + 1, a, al);
    var more := "\n" + rest + t;
    IndentQuiet(al, a, '{');
    PadCat("\n", indent);
    assert ItemsFrom(l, j, a, al) == indent + v + (",\n" + rest);
    NextItemText(indent, v, rest, t);
    ItemSegment(str, p, c, a, al, n, more);
    ItemStep(input, str, i, i', acc, Seg(Render.Render(c, a, al), more, |p| + |v| + 1, |p|, true), c);
  }

  /** The list loop over the element lines of `l[j..]` appends those
      elements to the ones already read. */
  lemma {:induction false} ItemsFromParse(input: string, l: seq<Chunk>, j: nat, a: nat, al: string, n: nat, t: string, i: int, acc: seq<Chunk>)
    requires j < |l|
    requires forall y :: 0 <= y < |l| ==> Readable(l[y], n)
    requires forall y :: 0 <= y < |l| ==> ItemBack(l, y, a, al)
    requires n <= U32 && Indent(al) && Pad(t)
    requires |"\n" + ItemsFrom(l, j, a, al) + t| < |input|
    ensures !Blank("\n" + ItemsFrom(l, j, a, al) + t)
    ensures Items(input, "\n" + ItemsFrom(l, j, a, al) + t, i, acc) == Done(List(acc + l[j..]))
    decreases |l| - j
  {
    assert ItemBack(l, j, a, al);
    if j + 1 == |l| {
      LastItem(input, l, j, a, al, n, t, i, acc);
    } else {
      var i' := i + |"\n" + Repeat(al, a)| + |Child(l[j], a, al)| + 1;
      NextItem(input, l, j, a, al, n, t, i, i', acc);
      ItemsFromParse(input, l, j + 1, a, al, n, t, i', acc + [l[j]]);
      ConsSlice(acc, l, j);
    }
  }

  /** _getstrval reads a rendered group as one value. */
  lemma {:induction false} GroupSegment(c: Chunk, a: nat, al: string, n: nat)
    requires (c.Map? || c.List?) && Readable(c, n) && n <= U32 && Indent(al)
    ensures var r := Render.Render(c, a, al); Segment(r, '\0', '\0') == Ok(Seg(r, "", |r|, 0, false))
  {
    var r := Render.Render(c, a, al);
    RenderEnds(c, a, al, n);
    assert Holds(r, 0, r);
    FirstReadAt(r, 0, 0);
    GroupScan(r, '\0', '\0', 0, |r|, c, a, al, n);
    assert r[0..|r|] == r;
    assert ScanValue(r, '\0', '\0', |r|, r) == Ok((r, |r|));
    TrimRead(r);
  }

  /** set reads a rendered group as one value and parses its inner text. */
  lemma {:induction false} GroupRead(c: Chunk, a: nat, al: string, n: nat)
    requires (c.Map? || c.List?) && Readable(c, n) && n <= U32 && Indent(al)
    ensures |Inner(c, a, al)| + 2 == |Render.Render(c, a, al)|
    ensures SetOutcome(Render.Render(c, a, al)) == Body(Render.Render(c, a, al), Inner(c, a, al), 1, c.Map?)
  {
    var r := Render.Render(c, a, al);
    RenderInner(c, a, al);
    RenderEnds(c, a, al, n);
    GroupSegment(c, a, al, n);
    assert r[1..|r| - 1] == Inner(c, a, al);
    assert Group(r, Seg(r, "", |r|, 0, false)) == Body(r, Inner(c, a, al), 1, c.Map?);
  }

  // ---------------------------------------------------------------------
  // The law

  /** A word parses to itself. */
  lemma {:induction false} WordValue(v: string)
    requires Word(v)
    ensures SetOutcome(v) == Done(Str(v))
  {
    assert Holds(v, 0, v);
    FirstReadAt(v, 0, 0);
    WordScan(v, '\0', '\0', 0, v, "");
    assert "" + v == v;
    TrimRead(v);
  }

  /** The body of a group that is not blank is read by the loop of its kind. */
  lemma {:induction false} BodyOf(input: string, body: string, isMap: bool, o: Outcome)
    requires |body| < |input| && !Blank(body)
    requires if isMap then Entries(input, body, 1, map[]) == o else Items(input, body, 1, []) == o
    ensures Body(input, body, 1, isMap) == o
  {
  }

  /** A rendered map whose values read back as themselves reads back as
      itself. */
  lemma {:induction false} MapParse(c: Chunk, a: nat, al: string, n: nat)
    requires c.Map? && Readable(c, n) && n <= U32 && Indent(al)
    requires forall k {:trigger ValueBack(c.values, k, a + 1, al)} :: k in c.values ==> ValueBack(c.values, k, a + 1, al)
    ensures SetOutcome(Render.Render(c, a, al)) == Done(c)
  {
    GroupRead(c, a, al, n);
    if |c.values| == 0 {
      assert c.values == map[];
    } else {
      MapBody(c, a, al, n);
    }
  }

  /** The body of a rendered non-empty map is read back as that map. */
  lemma {:induction false} MapBody(c: Chunk, a: nat, al: string, n: nat)
    requires c.Map? && |c.values| > 0 && Readable(c, n) && n <= U32 && Indent(al)
    requires forall k {:trigger ValueBack(c.values, k, a + 1, al)} :: k in c.values ==> ValueBack(c.values, k, a + 1, al)
    requires |Inner(c, a, al)| + 2 == |Render.Render(c, a, al)|
    ensures Body(Render.Render(c, a, al), Inner(c, a, al), 1, true) == Done(c)
  {
    var m := c.values;
    var ks := SortedKeys(m.Keys);
    SortedKeysSorted(m.Keys);
    SortedDistinct(ks);
    var inner := Inner(c, a, al);
    assert inner == "\n" + LinesFrom(m, ks, 0, a + 1, al) + Repeat(al, a);
    IndentQuiet(al, a, '{');
    EntriesFrom(Render.Render(c, a, al), m, ks, 0, a + 1, al, n - 1, "\n", Repeat(al, a), 1, map[]);
    BodyOf(Render.Render(c, a, al), inner, true, Done(c));
  }

  lemma {:induction false} WholeSlice(l: seq<Chunk>)
    ensures [] + l[0..] == l
  {
  }

  /** A rendered list whose elements read back as themselves reads back as
      itself. */
  lemma {:induction false} ListParse(c: Chunk, a: nat, al: string, n: nat)
    requires c.List? && Readable(c, n) && n <= U32 && Indent(al)
    requires forall y {:trigger ItemBack(c.items, y, a + 1, al)} :: 0 <= y < |c.items| ==> ItemBack(c.items, y, a + 1, al)
    ensures SetOutcome(Render.Render(c, a, al)) == Done(c)
  {
    GroupRead(c, a, al, n);
    if |c.items| == 0 {
      assert c.items == [];
    } else {
      ListBody(c, a, al, n);
    }
  }

  /** The body of a rendered non-empty list is read back as that list. */
  lemma {:induction false} ListBody(c: Chunk, a: nat, al: string, n: nat)
    requires c.List? && |c.items| > 0 && Readable(c, n) && n <= U32 && Indent(al)
    requires forall y {:trigger ItemBack(c.items, y, a + 1, al)} :: 0 <= y < |c.items| ==> ItemBack(c.items, y, a + 1, al)
    requires |Inner(c, a, al)| + 2 == |Render.Render(c, a, al)|
    ensures Body(Render.Render(c, a, al), Inner(c, a, al), 1, false) == Done(c)
  {
    var l := c.items;
    var inner := Inner(c, a, al);
    assert inner == "\n" + ItemsFrom(l, 0, a + 1, al) + Repeat(al, a);
    IndentQuiet(al, a, '{');
    ItemsFromParse(Render.Render(c, a, al), l, 0, a + 1, al, n - 1, Repeat(al, a), 1, []);
    WholeSlice(l);
    BodyOf(Render.Render(c, a, al), inner, false, Done(c));
  }

  /** chunkdat::set reads back what chunkdat::strval(alignment, aligner)
      writes, for every readable tree, alignment and aligner of spaces and
      tabs: keys and leaves come back unquoted, entries in any order make
      the same map, and elements come back in order. */
  lemma {:induction false} RenderParse(c: Chunk, a: nat, al: string, n: nat)
    requires Readable(c, n) && n <= U32 && Indent(al)
    ensures SetOutcome(Render.Render(c, a, al)) == Done(c)
    decreases c
  {
    match c
    case Str(v) =>
      WordValue(v);
    case Map(m) =>
      forall k | k in m
        ensures ValueBack(m, k, a + 1, al)
      {
        RenderParse(m[k], a + 1, al, n - 1);
      }
      MapParse(c, a, al, n);
    case List(l) =>
      forall y {:trigger ItemBack(l, y, a + 1, al)} | 0 <= y < |l|
        ensures ItemBack(l, y, a + 1, al)
      {
        RenderParse(l[y], a + 1, al, n - 1);
      }
      ListParse(c, a, al, n);
  }

  /** The tree of the worked example `{name = "bob", age = 30, tags = [1,
      2, 3]}` survives rendering with tabs and parsing back. */
  lemma {:induction false} WorkedExample()
    ensures var t := Map(map["name" := Str("bob"), "age" := Str("30"), "tags" := List([Str("1"), Str("2"), Str("3")])]);
      SetOutcome(Render.Render(t, 0, "\t")) == Done(t)
  {
    var l := [Str("1"), Str("2"), Str("3")];
    var t := Map(map["name" := Str("bob"), "age" := Str("30"), "tags" := List(l)]);
    assert Word("bob") && Word("30") && Word("1") && Word("2") && Word("3");
    assert Word("name") && Word("age") && Word("tags");
    assert Readable(List(l), 1);
    assert Readable(t, 2);
    RenderParse(t, 0, "\t", 2);
  }
}
