/** The two scanners the parser is built on (src/filedat.cpp:236-436):
    _skip, which finds where a value starts, and _getstrval, which reads one
    value up to a delimiter and returns it with the text that follows. */
module Segments {
  import opened Chunks
  import opened Comments

  // ---------------------------------------------------------------------
  // _skip (src/filedat.cpp:236-257)

  /** The first printable character at or after `i`; |s| if there is none. */
  function FirstRead(s: string, i: nat): (k: nat)
    requires i <= |s|
    ensures i <= k <= |s|
    ensures k < |s| ==> IsRead(s[k])
    decreases |s| - i
  {
    if i >= |s| || IsRead(s[i]) then i else FirstRead(s, i + 1)
  }

  /** What FirstRead passes over is blank. */
  lemma {:induction false} FirstReadSkips(s: string, i: nat)
    requires i <= |s|
    ensures forall m :: i <= m < FirstRead(s, i) ==> !IsRead(s[m])
    decreases |s| - i
  {
    if i < |s| && !IsRead(s[i]) {
      FirstReadSkips(s, i + 1);
    }
  }

  /** _skip: the text from its first printable character on, and where
      that is. */
  method Skip(str: string) returns (ret: string, i: nat)
    ensures i == FirstRead(str, 0)
    ensures ret == str[i..]
  {
    i := 0;
    while i < |str|
      invariant i <= |str|
      invariant FirstRead(str, i) == FirstRead(str, 0)
    {
      if IsRead(str[i]) {
        break;
      }
      i := i + 1;
    }
    if i < |str| {
      ret := str[i..];
    } else {
      i := |str|;
      ret := "";
    }
  }

  /** Nothing but blanks: _skip(s).first == "". */
  predicate Blank(s: string)
  {
    FirstRead(s, 0) == |s|
  }

  // ---------------------------------------------------------------------
  // _getstrval (src/filedat.cpp:259-436)

  /** The counter of a brace or bracket group is a uint32_t. */
  const U32: nat := 0x1_0000_0000

  /** The text of a top-level quote starting at `i`, without the backslashes
      that escape the quote character. */
  function QuoteText(s: string, i: nat, q: char): (t: string)
    requires i <= |s|
    ensures |t| <= QuoteEnd(s, i, q) - i
    decreases |s| - i
  {
    if i >= |s| || s[i] == q then ""
    else if i + 1 < |s| && s[i] == '\\' && s[i + 1] == q then [q] + QuoteText(s, i + 2, q)
    else [s[i]] + QuoteText(s, i + 1, q)
  }

  /** The message for a quote left open inside a brace or bracket group. */
  function GroupQuoteMessage(q: char): string
  {
    if q == '"' then "Double quote does not close" else "Single quote does not close"
  }

  /** Where a brace or bracket group opened at `j` closes: the first
      `close` met while the counter is zero. Quoted text inside is passed
      over. `up` is what an `open` adds to the counter and a `close`
      takes from it, modulo 2^32: 1 for braces, and 2^32 - 1 for brackets,
      whose loop counts the other way round. */
  function GroupEnd(s: string, i: nat, open: char, close: char, up: nat, counter: nat, j: nat): (r: Result<nat>)
    requires i <= |s| && j < |s| && counter < U32 && up < U32
    ensures r.Ok? ==> i <= r.value < |s| && s[r.value] == close
    decreases |s| - i
  {
    if i >= |s| then Err(FormatError("Brace does not close", "", s, j))
    else if counter == 0 && s[i] == close then Ok(i)
    else if s[i] == close then GroupEnd(s, i + 1, open, close, up, (counter + U32 - up) % U32, j)
    else if s[i] == open then GroupEnd(s, i + 1, open, close, up, (counter + up) % U32, j)
    else if s[i] == '"' || s[i] == '\'' then
      var e := QuoteEnd(s, i + 1, s[i]);
      if e >= |s| then Err(FormatError(GroupQuoteMessage(s[i]), "", s, i))
      else GroupEnd(s, e + 1, open, close, up, counter, j)
    else GroupEnd(s, i + 1, open, close, up, counter, j)
  }

  /** The end of a run of blanks that are not delimiters. */
  function BlankRunEnd(s: string, i: nat, delim: char, alt: char): (k: nat)
    requires i <= |s|
    ensures i <= k <= |s|
    ensures forall m :: i <= m < k ==> !IsRead(s[m]) && s[m] != delim && s[m] != alt
    ensures k < |s| ==> IsRead(s[k]) || s[k] == delim || s[k] == alt
    decreases |s| - i
  {
    if i >= |s| || IsRead(s[i]) || s[i] == delim || s[i] == alt then i
    else BlankRunEnd(s, i + 1, delim, alt)
  }

  /** The main loop of _getstrval from position `i`, with `val` read so far:
      the value and the position where the loop stops, or the error. */
  function ScanValue(s: string, delim: char, alt: char, i: nat, val: string): Result<(string, nat)>
    requires i <= |s|
    decreases |s| + 1 - i, 1
  {
    if i >= |s| then Ok((val, i))
    else if s[i] == '"' || s[i] == '\'' then
      var e := QuoteEnd(s, i + 1, s[i]);
      if e >= |s| then Err(FormatError(UnclosedQuote(s[i]), "", s, i))
      else Dispatch(s, delim, alt, e + 1, val + QuoteText(s, i + 1, s[i]))
    else Dispatch(s, delim, alt, i, val)
  }

  /** The second half of a round: what the character at `i` (NUL at the
      end of the text) makes of the value. */
  function Dispatch(s: string, delim: char, alt: char, i: nat, val: string): Result<(string, nat)>
    requires i <= |s|
    decreases |s| + 1 - i, 0
  {
    var c := At(s, i);
    if c == '{' || c == '[' then
      var close := if c == '{' then '}' else ']';
      var up := if c == '{' then 1 else U32 - 1;
      match GroupEnd(s, i + 1, c, close, up, 0, i)
      case Err(e) => Err(e)
      case Ok(e) => ScanValue(s, delim, alt, e + 1, val + s[i..e + 1])
    else if !IsRead(c) then
      if delim == '\0' then Ok((val, i))
      else
        var k := BlankRunEnd(s, i, delim, alt);
        if At(s, k) == delim || At(s, k) == alt then Ok((val, k + 1))
        else if k >= |s| then Ok((val + s[i..k], k))
        else ScanValue(s, delim, alt, k, val + s[i..k])
    else if c == delim || c == alt then Ok((val, i + 1))
    else ScanValue(s, delim, alt, i + 1, val + [c])
  }

  /** The trailing blanks of a value removed. */
  function TrimEnd(v: string): (t: string)
    ensures |t| <= |v| && t == v[..|t|]
    ensures t == [] || IsRead(t[|t| - 1])
    ensures forall m :: |t| <= m < |v| ==> !IsRead(v[m])
  {
    if |v| > 0 && !IsRead(v[|v| - 1]) then TrimEnd(v[..|v| - 1]) else v
  }

  /** What _getstrval returns: the value, the rest of the text after the
      delimiter, where that rest starts, where the value starts, and
      whether a delimiter was found before the end of the text. */
  datatype Seg = Seg(val: string, rest: string, restAt: nat, start: nat, found: bool)

  /** _getstrval(s, delim, alt) */
  function Segment(s: string, delim: char, alt: char): Result<Seg>
  {
    var st := FirstRead(s, 0);
    if st >= |s| then Ok(Seg("", "", 0, 0, false))
    else
      var (val, i) :- ScanValue(s, delim, alt, st, "");
      if i < |s| then Ok(Seg(val, s[i..], i, st, true))
      else Ok(Seg(TrimEnd(val), "", |s|, st, false))
  }

  /** The quote loop of _getstrval: copies a quoted stretch, dropping the
      backslashes that escape the quote. */
  method ReadQuote(s: string, start: nat, q: char) returns (i: nat, text: string)
    requires start <= |s|
    ensures i == QuoteEnd(s, start, q)
    ensures text == QuoteText(s, start, q)
  {
    i := start;
    text := "";
    while i < |s| && s[i] != q
      invariant start <= i <= |s|
      invariant QuoteEnd(s, i, q) == QuoteEnd(s, start, q)
      invariant text + QuoteText(s, i, q) == QuoteText(s, start, q)
      decreases |s| - i
    {
      if i + 1 < |s| && s[i] == '\\' && s[i + 1] == q {
        i := i + 1;
      }
      text := text + [s[i]];
      i := i + 1;
    }
  }

  /** The quote loop inside a group: copies the quote at `k` verbatim,
      escaping backslashes included, up to its closing quote. */
  method CopyQuote(s: string, k: nat) returns (i: nat, quoted: string)
    requires k < |s|
    ensures i == QuoteEnd(s, k + 1, s[k])
    ensures quoted == s[k..i]
  {
    var q := s[k];
    quoted := [s[k]];
    i := k + 1;
    while i < |s| && s[i] != q
      invariant k < i <= |s|
      invariant quoted == s[k..i]
      invariant QuoteEnd(s, i, q) == QuoteEnd(s, k + 1, q)
      decreases |s| - i
    {
      if i + 1 < |s| && s[i] == '\\' && s[i + 1] == q {
        quoted := quoted + [s[i]];
        i := i + 1;
      }
      quoted := quoted + [s[i]];
      i := i + 1;
    }
  }

  /** One character of a brace or bracket loop of _getstrval, or a whole
      quoted run inside the group: the text it copies, the new counter, and
      whether the group ends in a quote that does not close. */
  method GroupStep(s: string, j: nat, open: char, close: char, up: nat, i: nat, counter: nat)
    returns (err: bool, i': nat, counter': nat, copied: string)
    requires j < i < |s| && counter < U32 && up < U32
    requires !(counter == 0 && s[i] == close)
    ensures err ==> GroupEnd(s, i, open, close, up, counter, j) == Err(FormatError(GroupQuoteMessage(s[i]), "", s, i))
    ensures !err ==> i < i' <= |s| && counter' < U32 && copied == s[i..i']
    ensures !err ==> GroupEnd(s, i', open, close, up, counter', j) == GroupEnd(s, i, open, close, up, counter, j)
  {
    err, i', counter', copied := false, i + 1, counter, [s[i]];
    if s[i] == close {
      counter' := (counter + U32 - up) % U32;
    } else if s[i] == open {
      counter' := (counter + up) % U32;
    } else if s[i] == '"' || s[i] == '\'' {
      var k, quoted := CopyQuote(s, i);
      if k >= |s| {
        err := true;
        return;
      }
      assert s[i..k] + [s[k]] == s[i..k + 1];
      i', copied := k + 1, quoted + [s[k]];
    }
  }

  /** The brace and bracket loops of _getstrval: copies a group verbatim,
      from its opening character at `j` to the one that closes it. */
  method CopyGroup(s: string, j: nat, open: char, close: char, up: nat) returns (r: Result<nat>, group: string)
    requires j < |s| && up < U32
    ensures r == GroupEnd(s, j + 1, open, close, up, 0, j)
    ensures r.Ok? ==> group == s[j..r.value + 1]
  {
    var counter: nat := 0;
    var i := j + 1;
    group := [s[j]];
    while i < |s| && !(counter == 0 && s[i] == close)
      invariant j < i <= |s| && counter < U32
      invariant group == s[j..i]
      invariant GroupEnd(s, i, open, close, up, counter, j) == GroupEnd(s, j + 1, open, close, up, 0, j)
      decreases |s| - i
    {
      var err, i', counter', copied := GroupStep(s, j, open, close, up, i, counter);
      if err {
        return Err(FormatError(GroupQuoteMessage(s[i]), "", s, i)), group;
      }
      assert s[j..i] + s[i..i'] == s[j..i'];
      group := group + copied;
      i, counter := i', counter';
    }
    if i >= |s| {
      return Err(FormatError("Brace does not close", "", s, j)), group;
    }
    assert s[j..i] + [s[i]] == s[j..i + 1];
    group := group + [s[i]];
    r := Ok(i);
  }

  /** The run of blanks that the non-printable branch of _getstrval
      collects, stopping at a printable character or a delimiter. The source
      does not stop at the end of the text when neither delimiter is NUL;
      this loop does. */
  method ReadBlanks(str: string, i: nat, delim: char, alt: char) returns (k: nat, tval: string)
    requires i <= |str|
    ensures k == BlankRunEnd(str, i, delim, alt)
    ensures tval == str[i..k]
  {
    tval := "";
    k := i;
    while k < |str| && !IsRead(str[k]) && !(str[k] == delim || str[k] == alt)
      invariant i <= k <= |str|
      invariant tval == str[i..k]
      invariant BlankRunEnd(str, k, delim, alt) == BlankRunEnd(str, i, delim, alt)
      decreases |str| - k
    {
      tval := tval + [str[k]];
      k := k + 1;
    }
  }

  /** The second half of a round of _getstrval's loop: a brace or bracket
      group, a run of blanks, or one printable character. `done` says the
      loop ends here, with `r`; otherwise it goes on at `i'` with `val'`. */
  method Round(str: string, delim: char, alt: char, i: nat, val: string)
    returns (done: bool, r: Result<(string, nat)>, i': nat, val': string)
    requires i <= |str|
    ensures done ==> r == Dispatch(str, delim, alt, i, val)
    ensures !done ==> i < i' <= |str| && ScanValue(str, delim, alt, i', val') == Dispatch(str, delim, alt, i, val)
  {
    done, r, i', val' := false, Ok((val, i)), i, val;
    var c := At(str, i);
    if c == '{' || c == '[' {
      var close := if c == '{' then '}' else ']';
      var up := if c == '{' then 1 else U32 - 1;
      var g, group := CopyGroup(str, i, c, close, up);
      if g.Err? {
        return true, Err(g.error), i', val';
      }
      val' := val + group;
      i' := g.value + 1;
    } else if !IsRead(c) {
      if delim == '\0' {
        return true, Ok((val, i)), i', val';
      }
      var k, tval := ReadBlanks(str, i, delim, alt);
      if At(str, k) == delim || At(str, k) == alt {
        return true, Ok((val, k + 1)), i', val';
      }
      if k >= |str| {
        return true, Ok((val + tval, k)), i', val';
      }
      val' := val + tval;
      i' := k;
    } else {
      if c == delim || c == alt {
        return true, Ok((val, i + 1)), i', val';
      }
      val' := val + [c];
      i' := i + 1;
    }
  }

  /** The main loop of _getstrval from the first printable character. */
  method ScanLoop(str: string, delim: char, alt: char, st: nat) returns (r: Result<(string, nat)>)
    requires st <= |str|
    ensures r == ScanValue(str, delim, alt, st, "")
  {
    ghost var target := ScanValue(str, delim, alt, st, "");
    var i := st;
    var val := "";
    while i < |str|
      invariant st <= i <= |str|
      invariant ScanValue(str, delim, alt, i, val) == target
      decreases |str| - i
    {
      if str[i] == '"' || str[i] == '\'' {
        var j := i;
        var text;
        i, text := ReadQuote(str, i + 1, str[j]);
        if i >= |str| {
          return Err(FormatError(UnclosedQuote(str[j]), "", str, j));
        }
        val := val + text;
        i := i + 1;
      }
      var done;
      done, r, i, val := Round(str, delim, alt, i, val);
      if done {
        return;
      }
    }
    r := Ok((val, i));
  }

  /** _getstrval: reads one value of `str`, stopping after `delim` or
      `alt`, or (when `delim` is NUL) at the first blank. */
  method GetStrVal(str: string, delim: char, alt: char) returns (r: Result<Seg>)
    ensures r == Segment(str, delim, alt)
  {
    var _, st := Skip(str);
    if st >= |str| {
      return Ok(Seg("", "", 0, 0, false));
    }
    var scanned := ScanLoop(str, delim, alt, st);
    if scanned.Err? {
      return Err(scanned.error);
    }
    var (val, i) := scanned.value;
    if i < |str| {
      r := Ok(Seg(val, str[i..], i, st, true));
    } else {
      ghost var v0 := val;
      while |val| > 0 && !IsRead(val[|val| - 1])
        invariant TrimEnd(val) == TrimEnd(v0)
      {
        val := val[..|val| - 1];
      }
      r := Ok(Seg(val, "", |str|, st, false));
    }
  }
}

module SegmentFacts {
  import opened Chunks
  import opened Comments
  import opened Segments

  /** An error of _getstrval quotes the text it scanned and points at the
      quote, brace or bracket that does not close. */
  predicate ValueError(s: string, e: FormatError)
  {
    && e.origin == "" && e.data == s && 0 <= e.where < |s|
    && (if s[e.where] == '"' || s[e.where] == '\'' then
          e.message == UnclosedQuote(s[e.where]) || e.message == GroupQuoteMessage(s[e.where])
        else (s[e.where] == '{' || s[e.where] == '[') && e.message == "Brace does not close")
  }

  lemma {:induction false} GroupEndError(s: string, i: nat, open: char, close: char, up: nat, counter: nat, j: nat)
    requires i <= |s| && j < |s| && counter < U32 && up < U32
    requires s[j] == '{' || s[j] == '['
    ensures GroupEnd(s, i, open, close, up, counter, j).Err? ==>
      var e := GroupEnd(s, i, open, close, up, counter, j).error;
      ValueError(s, e) && (e.where == j || (i <= e.where && e.message == GroupQuoteMessage(s[e.where])))
    decreases |s| - i
  {
    if i < |s| && !(counter == 0 && s[i] == close) {
      if s[i] == close {
        GroupEndError(s, i + 1, open, close, up, (counter + U32 - up) % U32, j);
      } else if s[i] == open {
        GroupEndError(s, i + 1, open, close, up, (counter + up) % U32, j);
      } else if s[i] == '"' || s[i] == '\'' {
        var e := QuoteEnd(s, i + 1, s[i]);
        if e < |s| {
          GroupEndError(s, e + 1, open, close, up, counter, j);
        }
      } else {
        GroupEndError(s, i + 1, open, close, up, counter, j);
      }
    }
  }

  /** Where the loop of _getstrval stops, how much it can have read, and
      which errors it throws. It stops at the end of the text, just after a
      delimiter, or (when the delimiter is NUL) on a blank. */
  predicate Stopped(s: string, delim: char, alt: char, i: nat, val: string, r: Result<(string, nat)>)
    requires i <= |s|
  {
    match r
    case Err(e) => ValueError(s, e)
    case Ok((v, j)) =>
      && i <= j <= |s| + 1
      && (i < |s| && IsRead(s[i]) ==> i < j)
      && |v| <= |val| + (if j <= |s| then j else |s|) - i
      && (j < |s| && delim != '\0' ==> 0 < j && (s[j - 1] == delim || s[j - 1] == alt))
      && (j < |s| && delim == '\0' && alt == '\0' ==> !IsRead(s[j]))
  }

  lemma {:induction false} ScanValueStops(s: string, delim: char, alt: char, i: nat, val: string)
    requires i <= |s|
    ensures Stopped(s, delim, alt, i, val, ScanValue(s, delim, alt, i, val))
    decreases |s| + 1 - i, 1
  {
    if i < |s| {
      if s[i] == '"' || s[i] == '\'' {
        var e := QuoteEnd(s, i + 1, s[i]);
        if e < |s| {
          DispatchStops(s, delim, alt, e + 1, val + QuoteText(s, i + 1, s[i]));
        }
      } else {
        DispatchStops(s, delim, alt, i, val);
      }
    }
  }

  lemma {:induction false} DispatchStops(s: string, delim: char, alt: char, i: nat, val: string)
    requires i <= |s|
    ensures Stopped(s, delim, alt, i, val, Dispatch(s, delim, alt, i, val))
    decreases |s| + 1 - i, 0
  {
    var c := At(s, i);
    if c == '{' || c == '[' {
      var close := if c == '{' then '}' else ']';
      var up := if c == '{' then 1 else U32 - 1;
      GroupEndError(s, i + 1, c, close, up, 0, i);
      var g := GroupEnd(s, i + 1, c, close, up, 0, i);
      if g.Ok? {
        ScanValueStops(s, delim, alt, g.value + 1, val + s[i..g.value + 1]);
      }
    } else if !IsRead(c) {
      if delim != '\0' {
        var k := BlankRunEnd(s, i, delim, alt);
        if !(At(s, k) == delim || At(s, k) == alt) && k < |s| {
          ScanValueStops(s, delim, alt, k, val + s[i..k]);
        }
      }
    } else if !(c == delim || c == alt) {
      ScanValueStops(s, delim, alt, i + 1, val + [c]);
    }
  }

  /** The value and the rest are never longer than the input, and the
      rest is shorter when a delimiter was found. */
  lemma {:induction false} SegmentSize(s: string, delim: char, alt: char)
    ensures Segment(s, delim, alt).Ok? ==>
      var g := Segment(s, delim, alt).value;
      |g.val| + |g.rest| <= |s| && (g.rest != "" ==> g.found && 0 < g.restAt)
  {
    SegmentShape(s, delim, alt);
  }

  /** What _getstrval returns. A blank text has no value. Otherwise the
      value starts at the first printable character; a delimiter was found
      exactly when some text is left after it, and that text is the rest of
      the input after the delimiter; when none was found, the value has no
      trailing blanks. The value and the rest together are never longer
      than the input, and every error points at an unclosed quote, brace or
      bracket. */
  lemma {:induction false} SegmentShape(s: string, delim: char, alt: char)
    ensures Blank(s) ==> Segment(s, delim, alt) == Ok(Seg("", "", 0, 0, false))
    ensures Segment(s, delim, alt).Err? ==> ValueError(s, Segment(s, delim, alt).error)
    ensures Segment(s, delim, alt).Ok? ==>
      var g := Segment(s, delim, alt).value;
      && (g.found <==> g.rest != "")
      && (!Blank(s) ==> g.start == FirstRead(s, 0))
      && (g.found ==> g.start < g.restAt < |s| && g.rest == s[g.restAt..])
      && (g.found && delim != '\0' ==> s[g.restAt - 1] == delim || s[g.restAt - 1] == alt)
      && (g.found && delim == '\0' && alt == '\0' ==> !IsRead(s[g.restAt]))
      && (!g.found ==> g.val == [] || IsRead(g.val[|g.val| - 1]))
      && |g.val| + |g.rest| <= |s|
  {
    var st := FirstRead(s, 0);
    if st < |s| {
      ScanValueStops(s, delim, alt, st, "");
    }
  }
}
