/** Text helpers of src/filedat.cpp: repeatString, escape, the std::string
    searches they rely on, decimal rendering of sizes for error messages, and
    the line/column computation of printErrorIndex. */
module Text {

  // ---------------------------------------------------------------------
  // std::string::find(char, pos)

  /** std::string::find(c, from); -1 stands for npos. */
  function Find(s: string, c: char, from: nat): (r: int)
    ensures r == -1 || (from <= r < |s| && s[r] == c)
    ensures r == -1 ==> forall i :: from <= i < |s| ==> s[i] != c
    ensures r != -1 ==> forall i :: from <= i < r ==> s[i] != c
    decreases |s| - from
  {
    if from >= |s| then -1
    else if s[from] == c then from
    else Find(s, c, from + 1)
  }

  // ---------------------------------------------------------------------
  // repeatString (src/filedat.cpp:11-17)

  /** `n` copies of `s`, one after the other. */
  function Repeat(s: string, n: nat): string
  {
    if n == 0 then [] else Repeat(s, n - 1) + s
  }

  method RepeatString(s: string, n: nat) returns (ret: string)
    ensures ret == Repeat(s, n)
  {
    ret := "";
    for i := 0 to n
      invariant ret == Repeat(s, i)
    {
      ret := ret + s;
    }
  }

  /** Concatenation of strings is associative. */
  lemma {:induction false} Assoc(x: string, y: string, z: string)
    ensures x + (y + z) == (x + y) + z
  {
  }

  lemma {:induction false} RepeatAdd(s: string, a: nat, b: nat)
    ensures Repeat(s, a + b) == Repeat(s, a) + Repeat(s, b)
    decreases b
  {
    if b > 0 {
      RepeatAdd(s, a, b - 1);
      assert Repeat(s, a + b) == Repeat(s, a + (b - 1)) + s;
    }
  }

  lemma {:induction false} RepeatLength(s: string, n: nat)
    ensures |Repeat(s, n)| == n * |s|
    decreases n
  {
    if n > 0 {
      RepeatLength(s, n - 1);
      assert n * |s| == (n - 1) * |s| + |s|;
    }
  }

  /** Every character of a repetition is a character of the repeated text. */
  lemma {:induction false} RepeatChars(s: string, n: nat)
    ensures forall k :: 0 <= k < |Repeat(s, n)| ==> Repeat(s, n)[k] in s
    decreases n
  {
    if n > 0 {
      RepeatChars(s, n - 1);
      var r := Repeat(s, n);
      assert r == Repeat(s, n - 1) + s;
      forall k | 0 <= k < |r|
        ensures r[k] in s
      {
        if k >= |Repeat(s, n - 1)| {
          assert r[k] == s[k - |Repeat(s, n - 1)|];
        }
      }
    }
  }

  // ---------------------------------------------------------------------
  // escape (src/filedat.cpp:19-29)

  /** `s` with a backslash inserted before every occurrence of `c`. */
  function Escaped(s: string, c: char): string
  {
    if s == [] then []
    else (if s[0] == c then ['\\', c] else [s[0]]) + Escaped(s[1..], c)
  }

  /** Inverse of Escaped: a backslash followed by `c` becomes `c`. */
  function Unescaped(s: string, c: char): string
  {
    if |s| >= 2 && s[0] == '\\' && s[1] == c then [c] + Unescaped(s[2..], c)
    else if s == [] then []
    else [s[0]] + Unescaped(s[1..], c)
  }

  function Count(s: string, c: char): nat
  {
    if s == [] then 0 else (if s[0] == c then 1 else 0) + Count(s[1..], c)
  }

  lemma {:induction false} EscapedAppend(a: string, b: string, c: char)
    ensures Escaped(a + b, c) == Escaped(a, c) + Escaped(b, c)
    decreases |a|
  {
    if a != [] {
      var h := if a[0] == c then ['\\', c] else [a[0]];
      assert (a + b)[0] == a[0];
      assert (a + b)[1..] == a[1..] + b;
      EscapedAppend(a[1..], b, c);
      calc {
        Escaped(a + b, c);
        h + Escaped(a[1..] + b, c);
        h + (Escaped(a[1..], c) + Escaped(b, c));
        (h + Escaped(a[1..], c)) + Escaped(b, c);
      }
    } else {
      assert a + b == b;
    }
  }

  /** Text without `c` is left unchanged. */
  lemma {:induction false} EscapedWithout(s: string, c: char)
    requires forall i :: 0 <= i < |s| ==> s[i] != c
    ensures Escaped(s, c) == s
    decreases |s|
  {
    if s != [] {
      EscapedWithout(s[1..], c);
    }
  }

  /** One backslash per occurrence of `c`, nothing else added. */
  lemma {:induction false} EscapedLength(s: string, c: char)
    ensures |Escaped(s, c)| == |s| + Count(s, c)
    decreases |s|
  {
    if s != [] {
      EscapedLength(s[1..], c);
    }
  }

  /** Unescaping an escaped text gives the text back. */
  lemma {:induction false} EscapeRoundTrip(s: string, c: char)
    ensures Unescaped(Escaped(s, c), c) == s
    decreases |s|
  {
    if s != [] {
      var rest := Escaped(s[1..], c);
      EscapeRoundTrip(s[1..], c);
      if s[0] == c {
        assert Escaped(s, c) == ['\\', c] + rest;
        assert (['\\', c] + rest)[2..] == rest;
      } else {
        assert Escaped(s, c) == [s[0]] + rest;
        assert ([s[0]] + rest)[1..] == rest;
        if s[0] == '\\' && |rest| > 0 {
          assert rest[0] != c by {
            if s[1..][0] == c {
              assert rest[0] == '\\';
            } else {
              assert rest[0] == s[1..][0];
            }
          }
        }
      }
    }
  }

  /** A search that starts inside the second part of a text finds what a
      search of that part alone finds, shifted. */
  lemma {:induction false} FindAfter(p: string, q: string, c: char, k: nat)
    ensures Find(p + q, c, |p| + k) == (var f := Find(q, c, k); if f == -1 then -1 else |p| + f)
    decreases |q| - k
  {
    if k < |q| {
      assert (p + q)[|p| + k] == q[k];
      if q[k] != c {
        FindAfter(p, q, c, k + 1);
      }
    }
  }

  /** Escaping up to and including the next `c` of the unprocessed rest:
      the stretch before it is copied and the `c` gets its backslash. */
  lemma {:induction false} EscapeUpTo(s: string, c: char, done: nat, t: nat)
    requires done + t < |s| && s[done + t] == c
    requires forall i :: done <= i < done + t ==> s[i] != c
    ensures Escaped(s[..done + t + 1], c) == Escaped(s[..done], c) + s[done..done + t] + ['\\', c]
  {
    var mid := s[done..done + t];
    assert forall i :: 0 <= i < |mid| ==> mid[i] != c by {
      forall i | 0 <= i < |mid|
        ensures mid[i] != c
      {
        assert mid[i] == s[done + i];
      }
    }
    EscapedWithout(mid, c);
    assert s[..done + t + 1] == s[..done] + mid + [c];
    EscapedAppend(s[..done] + mid, [c], c);
    EscapedAppend(s[..done], mid, c);
    assert Escaped([c], c) == ['\\', c];
  }

  lemma {:induction false} SplitConcat(e: string, rest: string, t: nat)
    requires t <= |rest|
    ensures (e + rest)[..|e| + t] == e + rest[..t]
    ensures (e + rest)[|e| + t..] == rest[t..]
  {
  }

  /** The next `c` of the unprocessed rest, seen in `s` itself. */
  lemma {:induction false} NextOccurrence(s: string, c: char, done: nat, t: nat)
    requires done <= |s|
    requires t < |s[done..]| && s[done..][t] == c
    requires forall i :: 0 <= i < t ==> s[done..][i] != c
    ensures done + t < |s| && s[done + t] == c
    ensures forall i :: done <= i < done + t ==> s[i] != c
  {
    forall i | done <= i < done + t
      ensures s[i] != c
    {
      assert s[i] == s[done..][i - done];
    }
  }

  /** One round of escape's loop: the occurrence of `c` found at `pos`
      lies `t` characters into the unprocessed rest; inserting a backslash
      there extends the escaped prefix over that stretch and the `c`. */
  lemma {:induction false} EscapeStep(s: string, c: char, done: nat, str: string, pos: int) returns (done': nat)
    requires done <= |s|
    requires str == Escaped(s[..done], c) + s[done..]
    requires pos == Find(str, c, |Escaped(s[..done], c)|) && pos != -1
    ensures done < done' <= |s|
    ensures str[..pos] + "\\" + str[pos..] == Escaped(s[..done'], c) + s[done'..]
    ensures pos + 2 == |Escaped(s[..done'], c)|
  {
    var e := Escaped(s[..done], c);
    var rest := s[done..];
    FindAfter(e, rest, c, 0);
    var t := pos - |e|;
    NextOccurrence(s, c, done, t);
    done' := done + t + 1;
    EscapeUpTo(s, c, done, t);
    SplitConcat(e, rest, t);
    SuffixSplit(s, done, t);
    var mid, tail := s[done..done + t], s[done'..];
    assert str[..pos] == e + mid;
    assert str[pos..] == [c] + tail;
    Insertion(e + mid, c, tail);
  }

  lemma {:induction false} Insertion(a: string, c: char, tail: string)
    ensures a + "\\" + ([c] + tail) == (a + ['\\', c]) + tail
  {
  }

  lemma {:induction false} SuffixSplit(s: string, done: nat, t: nat)
    requires done + t < |s|
    ensures s[done..][..t] == s[done..done + t]
    ensures s[done..][t..] == [s[done + t]] + s[done + t + 1..]
  {
    assert s[done..][t..] == s[done + t..];
  }

  /** Once no `c` is left, the escaped prefix and the untouched rest make
      the whole escaped text. */
  lemma {:induction false} EscapeFinish(s: string, c: char, done: nat)
    requires done <= |s|
    requires Find(s[done..], c, 0) == -1
    ensures Escaped(s[..done], c) + s[done..] == Escaped(s, c)
  {
    EscapedWithout(s[done..], c);
    EscapedAppend(s[..done], s[done..], c);
    assert s[..done] + s[done..] == s;
  }

  /** Implementation of escape: search for `c`, insert a backslash before
      it, and resume the search two characters further on. */
  method Escape(s: string, c: char) returns (r: string)
    ensures r == Escaped(s, c)
  {
    var str := s;
    ghost var done: nat := 0;
    var pos := Find(str, c, 0);
    while pos != -1
      invariant done <= |s|
      invariant str == Escaped(s[..done], c) + s[done..]
      invariant pos == Find(str, c, |Escaped(s[..done], c)|)
      decreases |s| - done
    {
      ghost var done' := EscapeStep(s, c, done, str, pos);
      str := str[..pos] + "\\" + str[pos..];
      pos := pos + 2;
      pos := Find(str, c, pos);
      done := done';
    }
    FindAfter(Escaped(s[..done], c), s[done..], c, 0);
    EscapeFinish(s, c, done);
    r := str;
  }

  // ---------------------------------------------------------------------
  // std::to_string for the sizes quoted in error messages

  function DigitChar(d: nat): char
    requires d < 10
  {
    "0123456789"[d]
  }

  function NatToString(n: nat): (s: string)
    ensures |s| > 0
    ensures forall i :: 0 <= i < |s| ==> '0' <= s[i] <= '9'
  {
    if n < 10 then [DigitChar(n)] else NatToString(n / 10) + [DigitChar(n % 10)]
  }

  /** The number a decimal digit stands for. */
  function DigitValue(c: char): nat
  {
    if '0' <= c <= '9' then c as int - '0' as int else 0
  }

  /** The number a string of decimal digits stands for, most significant
      digit first. */
  function DecimalValue(s: string): nat
  {
    if s == [] then 0 else DecimalValue(s[..|s| - 1]) * 10 + DigitValue(s[|s| - 1])
  }

  lemma {:induction false} DigitCharValue(d: nat)
    requires d < 10
    ensures DigitValue(DigitChar(d)) == d
  {
    assert "0123456789"[d] as int == '0' as int + d by {
      if d < 5 {
        assert d == 0 || d == 1 || d == 2 || d == 3 || d == 4;
      } else {
        assert d == 5 || d == 6 || d == 7 || d == 8 || d == 9;
      }
    }
  }

  /** std::to_string writes the decimal numeral of `n`: its digits stand
      for `n`, and it has no leading zero. */
  lemma {:induction false} NatToStringValue(n: nat)
    ensures DecimalValue(NatToString(n)) == n
    ensures NatToString(n)[0] != '0' || n == 0
  {
    var s := NatToString(n);
    if n < 10 {
      DigitCharValue(n);
      assert s[..|s| - 1] == [];
    } else {
      NatToStringValue(n / 10);
      DigitCharValue(n % 10);
      assert s[..|s| - 1] == NatToString(n / 10);
    }
  }

  // ---------------------------------------------------------------------
  // The line and column part of printErrorIndex (src/filedat.cpp:31-51)

  /** strlen: the text up to its first NUL. */
  function CStrLen(s: string): (n: nat)
    ensures n <= |s|
    ensures forall i :: 0 <= i < n ==> s[i] != '\0'
    ensures n < |s| ==> s[n] == '\0'
  {
    var f := Find(s, '\0', 0);
    if f == -1 then |s| else f
  }

  function CountNewlines(s: string): nat
  {
    Count(s, '\n')
  }

  lemma {:induction false} CountSnoc(s: string, x: char, c: char)
    ensures Count(s + [x], c) == Count(s, c) + (if x == c then 1 else 0)
    decreases |s|
  {
    if s != [] {
      assert (s + [x])[1..] == s[1..] + [x];
      CountSnoc(s[1..], x, c);
    }
  }

  /** Locates `index` in `text` as printErrorIndex does: `line` is the
      1-based line number, `lineStart` the offset where that line begins
      (so the column is index - lineStart + 1) and `lineEnd` the offset of
      the newline, or end of text, that ends it. A negative index locates
      nothing. */
  method ErrorPosition(text: string, index: int) returns (line: int, lineStart: int, lineEnd: int)
    ensures index < 0 ==> line == 1 && lineStart == 0 && lineEnd == 0
    ensures index >= 0 ==>
      var len := CStrLen(text);
      var p := if index < len then index else len;
      && 0 <= lineStart <= p <= lineEnd <= len
      && (lineStart > 0 ==> text[lineStart - 1] == '\n')
      && (forall k :: lineStart <= k < lineEnd ==> text[k] != '\n')
      && (lineEnd < len ==> text[lineEnd] == '\n')
      && line == 1 + CountNewlines(text[..lineStart])
  {
    var i, j := 0, 0;
    line := 1;
    var inSize := CStrLen(text);
    if index >= 0 {
      ghost var p := if index < inSize then index else inSize;
      while i < inSize && i < index
        invariant 0 <= j <= i <= p
        invariant j > 0 ==> text[j - 1] == '\n'
        invariant forall k :: j <= k < i ==> text[k] != '\n'
        invariant line == 1 + CountNewlines(text[..j])
      {
        if text[i] == '\n' {
          NoNewlines(text, j, i);
          assert text[..i + 1] == text[..i] + [text[i]];
          CountSnoc(text[..i], '\n', '\n');
          line := line + 1;
          j := i + 1;
        }
        i := i + 1;
      }
      while i < inSize && text[i] != '\n'
        invariant 0 <= j <= p <= i <= inSize
        invariant forall k :: j <= k < i ==> text[k] != '\n'
      {
        i := i + 1;
      }
    }
    lineStart, lineEnd := j, i;
  }

  /** A stretch without newlines adds nothing to the count. */
  lemma {:induction false} NoNewlines(text: string, j: nat, i: nat)
    requires j <= i <= |text|
    requires forall k :: j <= k < i ==> text[k] != '\n'
    ensures CountNewlines(text[..i]) == CountNewlines(text[..j])
    decreases i - j
  {
    if i > j {
      NoNewlines(text, j, i - 1);
      assert text[..i] == text[..i - 1] + [text[i - 1]];
      CountSnoc(text[..i - 1], text[i - 1], '\n');
    }
  }
}
