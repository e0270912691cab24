/** The document model of the chunk data format: the four chunk kinds, the
    tree of chunks, the format_error exception, and the ordering std::map
    uses for keys (which decides the order in which entries are rendered
    and iterated). */
module Chunks {

  /** chunk_abstract::typeEnum: exactly four kinds. */
  datatype Kind = NoneKind | StringKind | MapKind | ListKind

  /** A chunk. `None` is a chunkdat whose payload pointer is null; a map keeps
      unique keys (std::map), a list keeps its elements in order (std::vector).
      Children are owned values, so two trees never share a node. */
  datatype Chunk =
    | None
    | Str(val: string)
    | Map(values: map<string, Chunk>)
    | List(items: seq<Chunk>)

  /** chunkdat::type() */
  function KindOf(c: Chunk): (k: Kind)
    ensures k == NoneKind <==> c.None?
    ensures k == StringKind <==> c.Str?
    ensures k == MapKind <==> c.Map?
    ensures k == ListKind <==> c.List?
  {
    match c
    case None => NoneKind
    case Str(_) => StringKind
    case Map(_) => MapKind
    case List(_) => ListKind
  }

  /** format_error(what, origin, data, where); its getters what(), origin(),
      data() and where() are the fields. */
  datatype FormatError = FormatError(message: string, origin: string, data: string, where: int)

  /** A computation that either yields a value or throws a format_error. */
  datatype Result<+T> = Ok(value: T) | Err(error: FormatError) {
    predicate IsFailure() { Err? }
    function PropagateFailure<U>(): Result<U>
      requires Err?
    {
      Err(error)
    }
    function Extract(): T
      requires Ok?
    {
      value
    }
  }

  /** A pointer that may be null. */
  datatype Option<T> = Nothing | Some(value: T)

  /** What an operation that may throw leaves behind: the chunk it built
      or updated, and the error, if it threw part way. */
  datatype Outcome = Done(state: Chunk) | Failed(error: FormatError, state: Chunk)

  /** filedat::isRead: a printable, non-blank byte. */
  predicate IsRead(c: char)
  {
    33 <= c as int <= 126
  }

  /** Bytes that separate values are never printable, the structural
      characters always are. */
  lemma {:induction false} ReadCharacters()
    ensures !IsRead(' ') && !IsRead('\t') && !IsRead('\n') && !IsRead('\r') && !IsRead('\0')
    ensures !IsRead(127 as char)
    ensures IsRead('!') && IsRead('~')
    ensures forall c: char :: IsRead(c) ==> c != ' ' && 33 <= c as int < 127
  {
  }

  /** `str[i]` of a std::string: index size() yields the terminating NUL. */
  function At(s: string, i: int): (c: char)
    ensures 0 <= i < |s| ==> c == s[i]
  {
    if 0 <= i < |s| then s[i] else '\0'
  }

  // ---------------------------------------------------------------------
  // Key order of std::map<std::string, ...>: lexicographic by character
  // code, a proper prefix first.

  predicate StrLt(a: string, b: string)
    decreases |a|
  {
    if |a| == 0 then |b| > 0
    else if |b| == 0 then false
    else if a[0] != b[0] then a[0] < b[0]
    else StrLt(a[1..], b[1..])
  }

  lemma {:induction false} StrLtIrreflexive(a: string)
    ensures !StrLt(a, a)
    decreases |a|
  {
    if |a| > 0 {
      StrLtIrreflexive(a[1..]);
    }
  }

  lemma {:induction false} StrLtTransitive(a: string, b: string, c: string)
    requires StrLt(a, b) && StrLt(b, c)
    ensures StrLt(a, c)
    decreases |a|
  {
    if |a| > 0 && |b| > 0 && |c| > 0 && a[0] == b[0] && b[0] == c[0] {
      StrLtTransitive(a[1..], b[1..], c[1..]);
    }
  }

  lemma {:induction false} StrLtTotal(a: string, b: string)
    requires a != b
    ensures StrLt(a, b) || StrLt(b, a)
    decreases |a|
  {
    if |a| > 0 && |b| > 0 && a[0] == b[0] {
      StrLtTotal(a[1..], b[1..]);
    }
  }

  lemma {:induction false} StrLtAsymmetric(a: string, b: string)
    requires StrLt(a, b)
    ensures !StrLt(b, a)
  {
    if StrLt(b, a) {
      StrLtTransitive(a, b, a);
      StrLtIrreflexive(a);
    }
  }

  /** The first key of a non-empty key set in std::map order. */
  ghost function Least(s: set<string>): (k: string)
    requires s != {}
    ensures k in s
    ensures forall j :: j in s && j != k ==> StrLt(k, j)
    decreases s
  {
    var x :| x in s;
    if s == {x} then x
    else
      var m := Least(s - {x});
      StrLtTotal(x, m);
      if StrLt(x, m) then
        assert forall j :: j in s - {x} && j != m ==> StrLt(x, j) by {
          forall j | j in s - {x} && j != m
            ensures StrLt(x, j)
          {
            StrLtTransitive(x, m, j);
          }
        }
        x
      else m
  }

  predicate SortedStrict(ks: seq<string>)
  {
    forall i, j :: 0 <= i < j < |ks| ==> StrLt(ks[i], ks[j])
  }

  /** The keys of a map in the order std::map iterates them: the least
      key first. */
  ghost function SortedKeys(s: set<string>): (ks: seq<string>)
    ensures forall k :: k in ks <==> k in s
    decreases s
  {
    if s == {} then []
    else
      var k := Least(s);
      [k] + SortedKeys(s - {k})
  }

  /** Every key once, in strictly ascending order. */
  lemma {:induction false} SortedKeysSorted(s: set<string>)
    ensures |SortedKeys(s)| == |s|
    ensures SortedStrict(SortedKeys(s))
    decreases s
  {
    if s != {} {
      var k := Least(s);
      SortedKeysSorted(s - {k});
      var rest := SortedKeys(s - {k});
      assert |s - {k}| == |s| - 1;
      var ks := [k] + rest;
      assert SortedKeys(s) == ks;
      forall i, j | 0 <= i < j < |ks|
        ensures StrLt(ks[i], ks[j])
      {
        assert ks[j] == rest[j - 1];
        if i > 0 {
          assert ks[i] == rest[i - 1];
        } else {
          assert ks[j] in s - {k};
        }
      }
    }
  }

  /** A strictly sorted sequence has no repeated key. */
  lemma {:induction false} SortedDistinct(ks: seq<string>)
    requires SortedStrict(ks)
    ensures forall i, j :: 0 <= i < |ks| && 0 <= j < |ks| && i != j ==> ks[i] != ks[j]
  {
    forall i, j | 0 <= i < |ks| && 0 <= j < |ks| && i != j
      ensures ks[i] != ks[j]
    {
      if i < j {
        StrLtIrreflexive(ks[i]);
      } else {
        StrLtIrreflexive(ks[j]);
      }
    }
  }
}
