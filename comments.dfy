/** filedat::removeComments (src/filedat.cpp:71-121): strips `#` and `//`
    comments from a text before it is parsed, leaving quoted text alone. A
    backslash makes the character after it unexamined; an unclosed quote
    throws a format_error that points at the opening quote. */
module Comments {
  import opened Chunks
  import opened Text

  /** Where a quote opened before `i` ends: the first `q` at or after `i`,
      stepping over a backslash that escapes `q`; |s| if it never ends. */
  function QuoteEnd(s: string, i: nat, q: char): (e: nat)
    requires i <= |s|
    ensures i <= e <= |s|
    ensures e < |s| ==> s[e] == q
    decreases |s| - i
  {
    if i >= |s| || s[i] == q then i
    else if i + 1 < |s| && s[i] == '\\' && s[i + 1] == q then QuoteEnd(s, i + 2, q)
    else QuoteEnd(s, i + 1, q)
  }

  /** A comment starts at `i`: a `#`, or `//`. */
  predicate CommentAt(s: string, i: nat)
    requires i < |s|
  {
    s[i] == '#' || (i + 1 < |s| && s[i] == '/' && s[i + 1] == '/')
  }

  /** The unclosed-quote message for each quote character. */
  function UnclosedQuote(q: char): string
  {
    if q == '"' then "Double quote doesn't close" else "Single quote doesn't close"
  }

  /** The scan of removeComments from position `i` of the partly stripped
      text `s`: what the function returns, or the error it throws. */
  function Scan(s: string, i: nat): Result<string>
    requires i <= |s| + 1
    decreases |s| + 1 - i
  {
    if i >= |s| then Ok(s)
    else if s[i] == '\\' then Scan(s, i + 2)
    else if s[i] == '"' || s[i] == '\'' then
      var e := QuoteEnd(s, i + 1, s[i]);
      if e >= |s| then Err(FormatError(UnclosedQuote(s[i]), "", s, i))
      else Scan(s, e + 2)
    else if CommentAt(s, i) then
      var k := Find(s, '\n', i);
      if k == -1 then Ok(s[..i])
      else Scan(s[..i] + s[k..], i + 1)
    else Scan(s, i + 1)
  }

  /** removeComments(s) */
  function Strip(s: string): Result<string>
  {
    Scan(s, 0)
  }

  /** The inner loop over a quoted stretch, shared by both quote kinds. */
  method SkipQuote(str: string, start: nat, q: char) returns (i: nat)
    requires start <= |str|
    ensures i == QuoteEnd(str, start, q)
  {
    i := start;
    while i < |str| && str[i] != q
      invariant start <= i <= |str|
      invariant QuoteEnd(str, i, q) == QuoteEnd(str, start, q)
      decreases |str| - i
    {
      if i + 1 < |str| && str[i] == '\\' && str[i + 1] == q {
        i := i + 1;
      }
      i := i + 1;
    }
  }

  /** The loop of removeComments, erasing each comment in place. */
  method RemoveComments(s: string) returns (r: Result<string>)
    ensures r == Strip(s)
  {
    var str := s;
    var i: nat := 0;
    while i < |str|
      invariant i <= |str| + 1
      invariant Scan(str, i) == Strip(s)
      decreases |str| + 1 - i
    {
      if str[i] == '\\' {
        i := i + 1;
      } else if str[i] == '"' || str[i] == '\'' {
        var j := i;
        i := SkipQuote(str, i + 1, str[j]);
        if i >= |str| {
          return Err(FormatError(UnclosedQuote(str[j]), "", str, j));
        }
        i := i + 1;
      } else if str[i] == '#' || (i + 1 < |str| && str[i] == '/' && str[i + 1] == '/') {
        var j := i;
        var k := Find(str, '\n', i);
        if k == -1 {
          str := str[..j];
        } else {
          str := str[..j] + str[k..];
        }
        i := j;
      }
      i := i + 1;
    }
    r := Ok(str);
  }

  // ---------------------------------------------------------------------
  // What the scan does

  /** Puts an already scanned prefix in front of a result: in front of the
      text returned, or of the text an error quotes, moving its offset. */
  function Shift(p: string, r: Result<string>): Result<string>
  {
    match r
    case Ok(t) => Ok(p + t)
    case Err(e) => Err(FormatError(e.message, e.origin, p + e.data, |p| + e.where))
  }

  lemma {:induction false} QuoteEndShift(p: string, q: string, i: nat, c: char)
    requires i <= |q|
    ensures QuoteEnd(p + q, |p| + i, c) == |p| + QuoteEnd(q, i, c)
    decreases |q| - i
  {
    var s := p + q;
    if i < |q| {
      assert s[|p| + i] == q[i];
      if i + 1 < |q| {
        assert s[|p| + i + 1] == q[i + 1];
      }
      if q[i] != c {
        if i + 1 < |q| && q[i] == '\\' && q[i + 1] == c {
          QuoteEndShift(p, q, i + 2, c);
        } else {
          QuoteEndShift(p, q, i + 1, c);
        }
      }
    }
  }

  /** The comment branch of the scan, seen behind a prefix. */
  lemma {:induction false} CommentShift(p: string, q: string, i: nat)
    requires i < |q| && CommentAt(q, i)
    ensures var s := p + q; var k := Find(q, '\n', i);
      && CommentAt(s, |p| + i)
      && Find(s, '\n', |p| + i) == (if k == -1 then -1 else |p| + k)
      && (k == -1 ==> s[..|p| + i] == p + q[..i])
      && (k != -1 ==> s[..|p| + i] + s[|p| + k..] == p + (q[..i] + q[k..]))
  {
    var s := p + q;
    assert s[|p| + i] == q[i];
    if i + 1 < |q| {
      assert s[|p| + i + 1] == q[i + 1];
    }
    FindAfter(p, q, '\n', i);
    var k := Find(q, '\n', i);
    assert s[..|p| + i] == p + q[..i];
    if k != -1 {
      assert s[|p| + k..] == q[k..];
    }
  }

  /** The characters the scan looks at, seen behind a prefix. */
  lemma {:induction false} ScanLooks(p: string, q: string, i: nat)
    requires i < |q|
    ensures (p + q)[|p| + i] == q[i]
    ensures CommentAt(p + q, |p| + i) <==> CommentAt(q, i)
  {
    var s := p + q;
    assert s[|p| + i] == q[i];
    if i + 1 < |q| {
      assert s[|p| + i + 1] == q[i + 1];
    }
  }

  /** One step of the scan behind a prefix, given the step after it:
      a backslash skips the next character. */
  lemma {:induction false} EscapeShift(p: string, q: string, i: nat)
    requires i < |q| && q[i] == '\\'
    requires Scan(p + q, |p| + i + 2) == Shift(p, Scan(q, i + 2))
    ensures Scan(p + q, |p| + i) == Shift(p, Scan(q, i))
  {
    ScanLooks(p, q, i);
  }

  /** One step of the scan behind a prefix: a quote is skipped to its end. */
  lemma {:induction false} QuoteShift(p: string, q: string, i: nat)
    requires i < |q| && (q[i] == '"' || q[i] == '\'')
    requires var e := QuoteEnd(q, i + 1, q[i]);
      e < |q| ==> Scan(p + q, |p| + e + 2) == Shift(p, Scan(q, e + 2))
    ensures Scan(p + q, |p| + i) == Shift(p, Scan(q, i))
  {
    ScanLooks(p, q, i);
    QuoteEndShift(p, q, i + 1, q[i]);
  }

  /** One step of the scan behind a prefix: a comment is erased. */
  lemma {:induction false} CommentStepShift(p: string, q: string, i: nat)
    requires i < |q| && CommentAt(q, i)
    requires var k := Find(q, '\n', i);
      k != -1 ==> Scan(p + (q[..i] + q[k..]), |p| + i + 1) == Shift(p, Scan(q[..i] + q[k..], i + 1))
    ensures Scan(p + q, |p| + i) == Shift(p, Scan(q, i))
  {
    ScanLooks(p, q, i);
    CommentShift(p, q, i);
  }

  /** One step of the scan behind a prefix: any other character is kept. */
  lemma {:induction false} OtherShift(p: string, q: string, i: nat)
    requires i < |q| && q[i] != '\\' && q[i] != '"' && q[i] != '\'' && !CommentAt(q, i)
    requires Scan(p + q, |p| + i + 1) == Shift(p, Scan(q, i + 1))
    ensures Scan(p + q, |p| + i) == Shift(p, Scan(q, i))
  {
    ScanLooks(p, q, i);
  }

  /** The scan never looks back: scanning behind a prefix is scanning
      without it, with the prefix put in front of the outcome. */
  lemma {:induction false} ScanShift(p: string, q: string, i: nat)
    requires i <= |q| + 1
    ensures Scan(p + q, |p| + i) == Shift(p, Scan(q, i))
    decreases |q| + 1 - i
  {
    if i < |q| {
      if q[i] == '\\' {
        ScanShift(p, q, i + 2);
        EscapeShift(p, q, i);
      } else if q[i] == '"' || q[i] == '\'' {
        var e := QuoteEnd(q, i + 1, q[i]);
        if e < |q| {
          ScanShift(p, q, e + 2);
        }
        QuoteShift(p, q, i);
      } else if CommentAt(q, i) {
        var k := Find(q, '\n', i);
        if k != -1 {
          ScanShift(p, q[..i] + q[k..], i + 1);
        }
        CommentStepShift(p, q, i);
      } else {
        ScanShift(p, q, i + 1);
        OtherShift(p, q, i);
      }
    }
  }

  /** Text the scan passes over one character at a time: no backslash, no
      quote, no comment start. */
  predicate Plain(s: string)
  {
    forall i :: 0 <= i < |s| ==>
      s[i] !in "\\\"'#" && !(s[i] == '/' && i + 1 < |s| && s[i + 1] == '/')
  }

  lemma {:induction false} ScanPlain(s: string, i: nat, k: nat)
    requires i <= k <= |s|
    requires forall m :: i <= m < k ==> s[m] !in "\\\"'#" && !CommentAt(s, m)
    ensures Scan(s, i) == Scan(s, k)
    decreases k - i
  {
    if i < k {
      assert s[i] !in "\\\"'#";
      ScanPlain(s, i + 1, k);
    }
  }

  /** Text without backslashes, quotes and comments comes back unchanged. */
  lemma {:induction false} PlainUnchanged(s: string)
    requires Plain(s)
    ensures Strip(s) == Ok(s)
  {
    ScanPlain(s, 0, |s|);
  }

  /** The scan passes over a plain prefix unchanged. */
  lemma {:induction false} PlainPrefix(p: string, q: string)
    requires Plain(p) && (|p| > 0 && |q| > 0 && p[|p| - 1] == '/' ==> q[0] != '/')
    ensures Scan(p + q, 0) == Scan(p + q, |p|)
  {
    var s := p + q;
    forall m | 0 <= m < |p|
      ensures s[m] !in "\\\"'#" && !CommentAt(s, m)
    {
      assert s[m] == p[m];
      if m + 1 < |p| {
        assert s[m + 1] == p[m + 1];
      }
    }
    ScanPlain(s, 0, |p|);
  }

  /** A search past a stretch without the character finds what a search
      from the end of that stretch finds. */
  lemma {:induction false} FindPast(a: string, b: string, ch: char, i: nat)
    requires i <= |a| && forall x :: i <= x < |a| ==> a[x] != ch
    ensures Find(a + b, ch, i) == Find(a + b, ch, |a|)
    decreases |a| - i
  {
    if i < |a| {
      assert (a + b)[i] == a[i];
      FindPast(a, b, ch, i + 1);
    }
  }

  /** The scan at a comment. */
  lemma {:induction false} ScanComment(s: string, i: nat)
    requires i < |s| && CommentAt(s, i)
    ensures Scan(s, i) ==
      var k := Find(s, '\n', i);
      if k == -1 then Ok(s[..i]) else Scan(s[..i] + s[k..], i + 1)
  {
    assert s[i] == '#' || s[i] == '/';
  }

  /** Two stretches without a newline make one. */
  lemma {:induction false} NoNewlineJoin(m: string, c: string)
    requires '\n' !in m && '\n' !in c
    ensures forall x :: 0 <= x < |m + c| ==> (m + c)[x] != '\n'
  {
    var a := m + c;
    forall x | 0 <= x < |a|
      ensures a[x] != '\n'
    {
      if x < |m| {
        assert a[x] == m[x];
      } else {
        assert a[x] == c[x - |m|];
      }
    }
  }

  /** The first newline of a stretch without one followed by `t` is the
      one `t` starts with, if any. */
  lemma {:induction false} NewlineAfter(a: string, t: string)
    requires forall x :: 0 <= x < |a| ==> a[x] != '\n'
    requires t == "" || t[0] == '\n'
    ensures Find(a + t, '\n', 0) == if t == "" then -1 else |a|
  {
    FindPast(a, t, '\n', 0);
    FindAfter(a, t, '\n', 0);
    var f := Find(t, '\n', 0);
    assert f == if t == "" then -1 else 0;
  }

  lemma {:induction false} Regroup(p: string, m: string, c: string, t: string)
    ensures p + m + c + t == p + (m + c + t)
  {
  }

  /** The newline that ends a comment `m + c` behind `p`. */
  lemma {:induction false} CommentEnd(p: string, m: string, c: string, t: string)
    requires '\n' !in m && '\n' !in c && (t == "" || t[0] == '\n')
    ensures Find(p + m + c + t, '\n', |p|) == if t == "" then -1 else |p| + |m| + |c|
  {
    var a := m + c;
    NoNewlineJoin(m, c);
    NewlineAfter(a, t);
    FindAfter(p, a + t, '\n', 0);
    assert Find(p + (a + t), '\n', |p|) == if t == "" then -1 else |p| + |a|;
    Regroup(p, m, c, t);
  }

  /** The text around a comment `m + c` behind `p`. */
  lemma {:induction false} CommentLooks(p: string, m: string, c: string, t: string)
    requires m == "#" || m == "//"
    ensures var s := p + (m + c + t);
      && p + m + c + t == s
      && CommentAt(s, |p|) && (m + c + t)[0] == m[0]
      && s[..|p|] == p
      && (t != "" ==> s[..|p|] + s[|p| + |m| + |c|..] == p + t)
  {
    var r := m + c + t;
    var s := p + r;
    Regroup(p, m, c, t);
    assert s[|p|] == m[0];
    if m == "//" {
      assert s[|p| + 1] == '/';
    }
    assert s[..|p|] == p;
    if t != "" {
      assert s[|p| + |m| + |c|..] == t;
    }
  }

  /** A comment behind a plain prefix is erased up to the newline that
      ends it, or to the end of the text; the scan resumes after the
      newline. */
  lemma {:induction false} CommentErased(p: string, m: string, c: string, t: string)
    requires Plain(p) && (m == "#" || (m == "//" && (|p| > 0 ==> p[|p| - 1] != '/')))
    requires '\n' !in c && (t == "" || t[0] == '\n')
    ensures Strip(p + m + c + t) == if t == "" then Ok(p) else Scan(p + t, |p| + 1)
  {
    var s := p + (m + c + t);
    CommentLooks(p, m, c, t);
    PlainPrefix(p, m + c + t);
    ScanComment(s, |p|);
    CommentEnd(p, m, c, t);
  }

  lemma {:induction false} LineRegroup(p: string, m: string, c: string, q: string)
    ensures p + m + c + "\n" + q == p + m + c + ("\n" + q)
    ensures p + ("\n" + q) == (p + "\n") + q
  {
  }

  /** A comment started by `#` or `//` is erased up to the end of its line;
      the newline stays and the rest is stripped in turn. */
  lemma {:induction false} LineComment(p: string, m: string, c: string, q: string)
    requires Plain(p) && (m == "#" || (m == "//" && (|p| > 0 ==> p[|p| - 1] != '/')))
    requires '\n' !in c
    ensures Strip(p + m + c + "\n" + q) == Shift(p + "\n", Strip(q))
  {
    CommentErased(p, m, c, "\n" + q);
    LineRegroup(p, m, c, q);
    ScanShift(p + "\n", q, 0);
  }

  /** A comment on the last line is erased to the end of the text. */
  lemma {:induction false} FinalComment(p: string, m: string, c: string)
    requires Plain(p) && (m == "#" || (m == "//" && (|p| > 0 ==> p[|p| - 1] != '/')))
    requires '\n' !in c
    ensures Strip(p + m + c) == Ok(p)
  {
    CommentErased(p, m, c, "");
    assert p + m + c + "" == p + m + c;
  }

  /** Quoted text is kept whole, comment characters included, and so is
      the one character that follows the closing quote: the scan resumes
      only after it. */
  lemma {:induction false} QuotedKept(p: string, qc: char, b: string, q: string)
    requires Plain(p) && (qc == '"' || qc == '\'')
    requires qc !in b && '\\' !in b
    ensures Strip(p + [qc] + b + [qc] + q) == Shift(p + [qc] + b + [qc], Scan(q, 1))
  {
    var s := p + [qc] + b + [qc] + q;
    var e := |p| + 1 + |b|;
    assert s == p + ([qc] + b + [qc] + q);
    PlainPrefix(p, [qc] + b + [qc] + q);
    assert s[|p|] == qc;
    assert forall x :: |p| + 1 <= x < e ==> s[x] == b[x - |p| - 1];
    QuoteEndPlain(s, |p| + 1, e, qc);
    assert s[e] == qc;
    assert s == (p + [qc] + b + [qc]) + q;
    ScanShift(p + [qc] + b + [qc], q, 1);
  }

  lemma {:induction false} QuoteEndPlain(s: string, i: nat, e: nat, q: char)
    requires i <= e <= |s|
    requires forall x :: i <= x < e ==> s[x] != q && s[x] != '\\'
    ensures QuoteEnd(s, i, q) == QuoteEnd(s, e, q)
    decreases e - i
  {
    if i < e {
      QuoteEndPlain(s, i + 1, e, q);
    }
  }

  /** A quote that never closes is reported at the opening quote, quoting
      the text as stripped so far. */
  lemma {:induction false} UnclosedQuoteReported(p: string, qc: char, b: string)
    requires Plain(p) && (qc == '"' || qc == '\'')
    requires qc !in b && '\\' !in b
    ensures Strip(p + [qc] + b) == Err(FormatError(UnclosedQuote(qc), "", p + [qc] + b, |p|))
  {
    var s := p + [qc] + b;
    assert s == p + ([qc] + b);
    PlainPrefix(p, [qc] + b);
    assert s[|p|] == qc;
    assert forall x :: |p| + 1 <= x < |s| ==> s[x] == b[x - |p| - 1];
    QuoteEndPlain(s, |p| + 1, |s|, qc);
  }

  /** What the scan returns is never longer than what it scans, and an
      error it throws always points at the quote that does not close. */
  lemma {:induction false} ScanOutcome(s: string, i: nat)
    requires i <= |s| + 1
    ensures Scan(s, i).Ok? ==> |Scan(s, i).value| <= |s|
    ensures Scan(s, i).Err? ==>
      var e := Scan(s, i).error;
      && e.origin == ""
      && 0 <= e.where < |e.data|
      && (e.data[e.where] == '"' || e.data[e.where] == '\'')
      && e.message == UnclosedQuote(e.data[e.where])
    decreases |s| + 1 - i
  {
    if i < |s| {
      if s[i] == '\\' {
        ScanOutcome(s, i + 2);
      } else if s[i] == '"' || s[i] == '\'' {
        var e := QuoteEnd(s, i + 1, s[i]);
        if e < |s| {
          ScanOutcome(s, e + 2);
        }
      } else if CommentAt(s, i) {
        var k := Find(s, '\n', i);
        if k != -1 {
          var s' := s[..i] + s[k..];
          ScanOutcome(s', i + 1);
        }
      } else {
        ScanOutcome(s, i + 1);
      }
    }
  }

  /** The text as stripped: never longer than the input, and every error
      is an unclosed quote at a quote character. */
  lemma {:induction false} StripOutcome(s: string)
    ensures Strip(s).Ok? ==> |Strip(s).value| <= |s|
    ensures Strip(s).Err? ==>
      var e := Strip(s).error;
      && e.origin == ""
      && 0 <= e.where < |e.data|
      && (e.data[e.where] == '"' || e.data[e.where] == '\'')
      && e.message == UnclosedQuote(e.data[e.where])
  {
    ScanOutcome(s, 0);
  }
}
