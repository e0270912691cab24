/** What option_set::process promises, proved about the model of
    src/options.cpp. */
module OptionFacts {
  import opened Chunks
  import opened Text
  import opened Options

  /** An option as it was defined: without what process writes into it. */
  function Def(o: Opt): Opt
  {
    o.(activated := false, argument := "")
  }

  function Defs(options: seq<Opt>): (d: seq<Opt>)
    ensures |d| == |options|
  {
    seq(|options|, i requires 0 <= i < |options| => Def(options[i]))
  }

  /** The state process keeps: the definitions are those it started with,
      and every option recorded in option_sequence is activated and is one
      of the defined options. */
  ghost predicate Sane(defs: seq<Opt>, st: State)
  {
    && Defs(st.options) == defs
    && forall o :: o in st.sequence ==> o.activated && Def(o) in defs
  }

  // ---------------------------------------------------------------------
  // Lookups and activation

  /** The lookups see only the definitions. */
  lemma {:induction false} SameLookups(a: seq<Opt>, b: seq<Opt>, c: char, s: string, from: nat)
    requires Defs(a) == Defs(b)
    ensures FindShort(a, c, from) == FindShort(b, c, from)
    ensures FindLong(a, s, from) == FindLong(b, s, from)
    decreases |a| - from
  {
    if from < |a| {
      assert Def(a[from]) == Defs(a)[from] == Defs(b)[from] == Def(b[from]);
      SameLookups(a, b, c, s, from + 1);
    }
  }

  /** Activating an option keeps the definitions, records the option
      activated, and appends exactly one entry to option_sequence. */
  lemma {:induction false} ActivateKeeps(defs: seq<Opt>, st: State, k: nat, arg: Option<string>)
    requires k < |st.options| && Sane(defs, st)
    ensures var s := Activate(st, k, arg);
      && Sane(defs, s) && s.out == st.out
      && s.sequence == st.sequence + [s.options[k]]
      && s.options[k].activated && Def(s.options[k]) == Def(st.options[k])
      && (arg.Some? ==> s.options[k].argument == arg.value)
  {
    var s := Activate(st, k, arg);
    assert Def(s.options[k]) == Def(st.options[k]);
    assert Defs(s.options) == Defs(st.options) by {
      forall i | 0 <= i < |st.options|
        ensures Defs(s.options)[i] == Defs(st.options)[i]
      {
      }
    }
    assert Defs(st.options)[k] == Def(st.options[k]);
  }

  // ---------------------------------------------------------------------
  // What every run keeps

  lemma {:induction false} ClusterKeeps(defs: seq<Opt>, args: seq<string>, t: nat, i: nat, f: Flags, st: State, ropt: string)
    requires t < |args| && Sane(defs, st)
    ensures match Cluster(args, t, i, f, st, ropt)
      case Ended(s, _, _) => Sane(defs, s) && st.sequence <= s.sequence && s.out == st.out
      case Raised(_, s) => Sane(defs, s) && st.sequence <= s.sequence
    decreases |args[t]| - i
  {
    var tok := args[t];
    if i < |tok| {
      var c := tok[i];
      match FindShort(st.options, c, 0)
      case Nothing =>
        if f.ignoreUnknown {
          ClusterKeeps(defs, args, t, i + 1, f, st, ropt + [c]);
        }
      case Some(k) =>
        if !st.options[k].takesArgument {
          ActivateKeeps(defs, st, k, Nothing);
          ClusterKeeps(defs, args, t, i + 1, f, Activate(st, k, Nothing), ropt);
        } else if i + 1 >= |tok| {
          if t + 1 < |args| {
            ActivateKeeps(defs, st, k, Some(args[t + 1]));
          }
        } else {
          var j := if tok[i + 1] == '=' then i + 2 else i + 1;
          ActivateKeeps(defs, st, k, Some(tok[j..]));
        }
    }
  }

  lemma {:induction false} TokenKeeps(defs: seq<Opt>, args: seq<string>, t: nat, f: Flags, st: State)
    requires t < |args| && Sane(defs, st)
    ensures match Token(args, t, f, st)
      case Next(s, _) => Sane(defs, s) && st.sequence <= s.sequence
      case Finish(r) => Sane(defs, State(r.options, r.sequence, [])) && st.sequence <= r.sequence
  {
    var tok := args[t];
    if IsLong(tok) {
      var eqn := Find(tok, '=', 0);
      var name := if eqn < 0 then tok[2..] else tok[2..eqn];
      match FindLong(st.options, name, 0)
      case Nothing =>
      case Some(k) =>
        if eqn < 0 && !st.options[k].takesArgument {
          ActivateKeeps(defs, st, k, Nothing);
        } else if eqn < 0 && t + 1 < |args| {
          ActivateKeeps(defs, st, k, Some(args[t + 1]));
        } else if eqn >= 0 && st.options[k].takesArgument {
          ActivateKeeps(defs, st, k, Some(tok[eqn + 1..]));
        }
    } else if IsShort(tok) && !(f.ignoreNumbers && '0' <= tok[1] <= '9') {
      ClusterKeeps(defs, args, t, 1, f, st, "");
    }
  }

  lemma {:induction false} StepsKeeps(defs: seq<Opt>, args: seq<string>, t: nat, f: Flags, st: State)
    requires Sane(defs, st)
    ensures var r := Steps(args, t, f, st);
      Sane(defs, State(r.options, r.sequence, [])) && st.sequence <= r.sequence
    decreases |args| - t
  {
    if t < |args| {
      TokenKeeps(defs, args, t, f, st);
      match Token(args, t, f, st)
      case Next(s, t') => StepsKeeps(defs, args, t', f, s);
      case Finish(_) =>
    }
  }

  /** process leaves the option definitions as they were, and everything
      it recorded in option_sequence is an activated copy of a defined
      option; this holds also when it throws. */
  lemma {:induction false} ProcessRecords(options: seq<Opt>, args: seq<string>, f: Flags)
    ensures var r := Process(options, args, f);
      && Defs(r.options) == Defs(options)
      && forall o :: o in r.sequence ==> o.activated && Def(o) in Defs(options)
  {
    StepsKeeps(Defs(options), args, 0, f, State(options, [], []));
  }

  // ---------------------------------------------------------------------
  // Operands and the terminator

  /** A token process never reads as an option: neither `--name`, nor
      `-x`, nor `--`. */
  predicate Plain(tok: string)
  {
    !IsLong(tok) && !IsShort(tok) && tok != "--"
  }

  lemma {:induction false} PlainSteps(options: seq<Opt>, sequence: seq<Opt>, args: seq<string>, t: nat, f: Flags)
    requires !f.stopOnArgument && t <= |args|
    requires forall j :: t <= j < |args| ==> Plain(args[j])
    ensures Steps(args, t, f, State(options, sequence, args[..t])) == Run(options, sequence, Returned(args))
    decreases |args| - t
  {
    if t < |args| {
      assert args[..t] + [args[t]] == args[..t + 1];
      PlainSteps(options, sequence, args, t + 1, f);
    } else {
      assert args[..t] == args;
    }
  }

  /** Arguments none of which looks like an option are returned as they
      are, whatever the flags, and no option is activated. */
  lemma {:induction false} PlainArguments(options: seq<Opt>, args: seq<string>, f: Flags)
    requires forall j :: 0 <= j < |args| ==> Plain(args[j])
    ensures Process(options, args, f) == Run(options, [], Returned(args))
  {
    if f.stopOnArgument {
      if |args| > 0 {
        assert args[0..] == args;
      }
    } else {
      PlainSteps(options, [], args, 0, f);
    }
  }

  lemma {:induction false} TerminatorSteps(options: seq<Opt>, sequence: seq<Opt>, pre: seq<string>, post: seq<string>, t: nat, f: Flags)
    requires !f.stopOnArgument && t <= |pre|
    requires forall j :: t <= j < |pre| ==> Plain(pre[j])
    ensures Steps(pre + ["--"] + post, t, f, State(options, sequence, pre[..t])) == Run(options, sequence, Returned(pre + post))
    decreases |pre| - t
  {
    var args := pre + ["--"] + post;
    if t < |pre| {
      assert args[t] == pre[t];
      assert pre[..t] + [pre[t]] == pre[..t + 1];
      TerminatorSteps(options, sequence, pre, post, t + 1, f);
    } else {
      assert args[t] == "--";
      assert args[t + 1..] == post;
      assert pre[..t] == pre;
    }
  }

  /** A bare `--` ends option processing: the tokens after it are returned
      as they are, behind the operands before it. */
  lemma {:induction false} Terminator(options: seq<Opt>, pre: seq<string>, post: seq<string>, f: Flags)
    requires !f.stopOnArgument
    requires forall j :: 0 <= j < |pre| ==> Plain(pre[j])
    ensures Process(options, pre + ["--"] + post, f) == Run(options, [], Returned(pre + post))
  {
    TerminatorSteps(options, [], pre, post, 0, f);
  }

  /** A token that process keeps as an operand. */
  predicate Operand(tok: string, f: Flags)
  {
    !IsLong(tok) && (!IsShort(tok) || (f.ignoreNumbers && '0' <= tok[1] <= '9'))
  }

  /** With stop_on_argument and without ignore_unknown, nothing is
      collected along the way: a cluster keeps no unknown characters. */
  lemma {:induction false} ClusterKeepsNothing(args: seq<string>, t: nat, i: nat, f: Flags, st: State)
    requires t < |args| && !f.ignoreUnknown
    ensures var r := Cluster(args, t, i, f, st, "");
      r.Ended? ==> r.ropt == "" && r.st.out == st.out
    decreases |args[t]| - i
  {
    var tok := args[t];
    if i < |tok| {
      match FindShort(st.options, tok[i], 0)
      case Nothing =>
      case Some(k) =>
        if !st.options[k].takesArgument {
          ClusterKeepsNothing(args, t, i + 1, f, Activate(st, k, Nothing));
        }
    }
  }

  lemma {:induction false} StopSteps(args: seq<string>, t: nat, f: Flags, st: State)
    requires f.stopOnArgument && !f.ignoreUnknown && st.out == []
    ensures var r := Steps(args, t, f, st).result;
      r.Returned? ==> r.args == [] || exists j :: t <= j < |args| && r.args == args[j..] && Operand(args[j], f)
    decreases |args| - t
  {
    if t < |args| {
      var tok := args[t];
      if !IsLong(tok) && IsShort(tok) && !(f.ignoreNumbers && '0' <= tok[1] <= '9') {
        ClusterKeepsNothing(args, t, 1, f, st);
      }
      match Token(args, t, f, st)
      case Next(s, t') =>
        StopSteps(args, t', f, s);
      case Finish(r) =>
    }
  }

  /** With stop_on_argument (and unknown options rejected), process returns
      nothing, or the arguments from an operand on, untouched. */
  lemma {:induction false} StopOnArgument(options: seq<Opt>, args: seq<string>, f: Flags)
    requires f.stopOnArgument && !f.ignoreUnknown
    ensures var r := Process(options, args, f).result;
      r.Returned? ==> r.args == [] || exists j :: 0 <= j < |args| && r.args == args[j..] && Operand(args[j], f)
  {
    StopSteps(args, 0, f, State(options, [], []));
  }

  /** Where the token loop from token `t` stops: the first token whose
      round finishes the run instead of moving on, or the end of the
      arguments, with the state the loop has there. */
  function Reach(args: seq<string>, t: nat, f: Flags, st: State): (p: (nat, State))
    decreases |args| - t
  {
    if t >= |args| then (t, st)
    else match Token(args, t, f, st)
      case Next(s, t') => Reach(args, t', f, s)
      case Finish(_) => (t, st)
  }

  /** The loop passes with plain rounds from token `t` to where it stops,
      and a token short of the end that it stops at finishes the run. */
  lemma {:induction false} ReachSteps(args: seq<string>, t: nat, f: Flags, st: State)
    requires t <= |args|
    ensures var p := Reach(args, t, f, st);
      && t <= p.0 <= |args|
      && Steps(args, t, f, st) == Steps(args, p.0, f, p.1)
      && (p.0 < |args| ==> Token(args, p.0, f, p.1).Finish?)
    decreases |args| - t
  {
    if t < |args| {
      match Token(args, t, f, st)
      case Next(s, t') => ReachSteps(args, t', f, s);
      case Finish(_) =>
    }
  }

  /** With stop_on_argument, the loop does not pass an operand: it stops at
      the first one it reaches. */
  lemma {:induction false} ReachOperand(args: seq<string>, t: nat, f: Flags, st: State)
    requires f.stopOnArgument && t < |args| && Operand(args[t], f)
    ensures Reach(args, t, f, st) == (t, st)
    ensures Token(args, t, f, st) == Finish(Run(st.options, st.sequence, Returned(args[t..])))
  {
  }

  /** A long option that ends the run ends it with an error. */
  lemma {:induction false} LongFails(args: seq<string>, t: nat, f: Flags, st: State)
    requires t < |args| && IsLong(args[t])
    ensures var r := LongToken(args, t, f, st); r.Finish? ==> r.run.result.Threw?
  {
  }

  /** With stop_on_argument, a token that ends the run and is not an
      operand ends it with an error. */
  lemma {:induction false} OthersFail(args: seq<string>, t: nat, f: Flags, st: State)
    requires f.stopOnArgument && t < |args| && !Operand(args[t], f)
    ensures var r := Token(args, t, f, st); r.Finish? ==> r.run.result.Threw?
  {
    if IsLong(args[t]) {
      LongFails(args, t, f, st);
    }
  }

  /** With stop_on_argument, the run is decided where the loop stops: the
      first operand reached comes back with everything after it, the end
      of the arguments returns what the loop kept, and any other stop is
      an error. */
  lemma {:induction false} StopsWhereReached(args: seq<string>, t: nat, f: Flags, st: State)
    requires f.stopOnArgument && t <= |args|
    ensures var p := Reach(args, t, f, st); var r := Steps(args, t, f, st);
      && (p.0 < |args| && Operand(args[p.0], f) ==> r == Run(p.1.options, p.1.sequence, Returned(args[p.0..])))
      && (p.0 < |args| && !Operand(args[p.0], f) ==> r.result.Threw?)
      && (p.0 == |args| ==> r == Run(p.1.options, p.1.sequence, Returned(p.1.out)))
  {
    ReachSteps(args, t, f, st);
    var p := Reach(args, t, f, st);
    if p.0 < |args| {
      if Operand(args[p.0], f) {
        ReachOperand(args, p.0, f, p.1);
      } else {
        OthersFail(args, p.0, f, p.1);
      }
    }
  }

  /** With unknown options rejected, the loop keeps nothing on its way. */
  lemma {:induction false} ReachKeepsNothing(args: seq<string>, t: nat, f: Flags, st: State)
    requires f.stopOnArgument && !f.ignoreUnknown && st.out == []
    ensures Reach(args, t, f, st).1.out == []
    decreases |args| - t
  {
    if t < |args| {
      var tok := args[t];
      if !IsLong(tok) && IsShort(tok) && !(f.ignoreNumbers && '0' <= tok[1] <= '9') {
        ClusterKeepsNothing(args, t, 1, f, st);
      }
      match Token(args, t, f, st)
      case Next(s, t') =>
        ReachKeepsNothing(args, t', f, s);
      case Finish(r) =>
    }
  }

  /** With stop_on_argument, process returns the arguments from the first
      operand it reaches on, untouched; reaching the end, it returns the
      tokens it kept, which are none when unknown options are rejected;
      stopping anywhere else, it throws. */
  lemma {:induction false} ProcessStops(options: seq<Opt>, args: seq<string>, f: Flags)
    requires f.stopOnArgument
    ensures var p := Reach(args, 0, f, State(options, [], [])); var r := Process(options, args, f);
      && (p.0 < |args| && Operand(args[p.0], f) ==> r == Run(p.1.options, p.1.sequence, Returned(args[p.0..])))
      && (p.0 < |args| && !Operand(args[p.0], f) ==> r.result.Threw?)
      && (p.0 == |args| ==> r == Run(p.1.options, p.1.sequence, Returned(p.1.out)))
      && (p.0 == |args| && !f.ignoreUnknown ==> r.result == Returned([]))
  {
    StopsWhereReached(args, 0, f, State(options, [], []));
    if !f.ignoreUnknown {
      ReachKeepsNothing(args, 0, f, State(options, [], []));
    }
  }

  /** A `-xyz` token made only of known flags, read as a cluster. */
  predicate FlagToken(options: seq<Opt>, tok: string, f: Flags)
  {
    && |tok| > 1 && tok[0] == '-' && tok[1] != '-'
    && !(f.ignoreNumbers && '0' <= tok[1] <= '9')
    && forall j :: 1 <= j < |tok| ==> IsFlag(options, tok[j])
  }

  /** Token `k` of `args` is a flag cluster. */
  predicate FlagAt(options: seq<Opt>, args: seq<string>, k: int, f: Flags)
  {
    0 <= k < |args| && FlagToken(options, args[k], f)
  }

  /** The option characters of a run of cluster tokens, in order. */
  function ClusterChars(toks: seq<string>): string
  {
    if toks == [] then ""
    else (if |toks[0]| > 0 then toks[0][1..] else "") + ClusterChars(toks[1..])
  }

  /** Options with the same definitions have the same flags. */
  lemma {:induction false} SameFlags(a: seq<Opt>, b: seq<Opt>, c: char)
    requires Defs(a) == Defs(b)
    ensures IsFlag(a, c) <==> IsFlag(b, c)
  {
    SameLookups(a, b, c, "", 0);
    var r := FindShort(a, c, 0);
    if r.Some? {
      assert Defs(a)[r.value] == Defs(b)[r.value];
    }
  }

  /** One flag cluster `-xyz` activates its characters in order and moves
      on to the next token. */
  lemma {:induction false} ClusterStep(args: seq<string>, t: nat, f: Flags, st: State, cs: string, s: State)
    requires t < |args| && args[t] == "-" + cs && |cs| > 0 && cs[0] != '-'
    requires !(f.ignoreNumbers && '0' <= cs[0] <= '9')
    requires forall m :: 0 <= m < |cs| ==> IsFlag(st.options, cs[m])
    requires s == ActivateFlags(st, cs)
    ensures Steps(args, t, f, st) == Steps(args, t + 1, f, s)
    ensures Defs(s.options) == Defs(st.options)
    ensures Names(s.sequence) == Names(st.sequence) + cs
  {
    FlagCluster(args, t, f, st, cs);
    FlagsInOrder(st, cs);
  }

  /** The characters of a flag token are flags of any options with the
      same definitions. */
  lemma {:induction false} ClusterFlags(options: seq<Opt>, tok: string, f: Flags, st: State, cs: string)
    requires FlagToken(options, tok, f) && Defs(st.options) == Defs(options) && cs == tok[1..]
    ensures tok == "-" + cs && |cs| > 0 && cs[0] != '-' && !(f.ignoreNumbers && '0' <= cs[0] <= '9')
    ensures forall m :: 0 <= m < |cs| ==> IsFlag(st.options, cs[m])
  {
    assert tok == "-" + cs;
    forall m | 0 <= m < |cs|
      ensures IsFlag(st.options, cs[m])
    {
      assert cs[m] == tok[m + 1];
      SameFlags(st.options, options, cs[m]);
    }
  }

  /** With stop_on_argument, the loop from token `t` over flag clusters
      up to the operand at `j` returns that operand and everything after
      it, and records the clusters' characters after what was recorded. */
  lemma {:induction false} StepsToOperand(options: seq<Opt>, args: seq<string>, t: nat, j: nat, f: Flags, st: State)
    requires f.stopOnArgument && t <= j < |args| && Operand(args[j], f)
    requires forall k :: t <= k < j ==> FlagAt(options, args, k, f)
    requires Defs(st.options) == Defs(options)
    ensures var r := Steps(args, t, f, st);
      && r.result == Returned(args[j..])
      && Defs(r.options) == Defs(options)
      && Names(r.sequence) == Names(st.sequence) + ClusterChars(args[t..j])
    decreases j - t
  {
    if t == j {
      OperandStops(args, j, f, st);
      assert args[t..j] == [];
    } else {
      assert FlagAt(options, args, t, f);
      var tok := args[t];
      var cs := tok[1..];
      ClusterFlags(options, tok, f, st, cs);
      var s := ActivateFlags(st, cs);
      ClusterStep(args, t, f, st, cs, s);
      StepsToOperand(options, args, t + 1, j, f, s);
      ClusterCharsCons(args, t, j);
      assert cs == (if |args[t]| > 0 then args[t][1..] else "");
      Assoc(Names(st.sequence), cs, ClusterChars(args[t + 1..j]));
    }
  }

  /** With stop_on_argument, an operand ends the walk and is returned with
      everything after it. */
  lemma {:induction false} OperandStops(args: seq<string>, j: nat, f: Flags, st: State)
    requires f.stopOnArgument && j < |args| && Operand(args[j], f)
    ensures Steps(args, j, f, st) == Run(st.options, st.sequence, Returned(args[j..]))
  {
  }

  /** The cluster characters of a run split at its first token. */
  lemma {:induction false} ClusterCharsCons(args: seq<string>, t: nat, j: nat)
    requires t < j <= |args|
    ensures ClusterChars(args[t..j]) == (if |args[t]| > 0 then args[t][1..] else "") + ClusterChars(args[t + 1..j])
  {
    assert args[t..j][0] == args[t] && args[t..j][1..] == args[t + 1..j];
  }

  /** With stop_on_argument, after a run of flag clusters the first operand
      and everything after it are returned untouched, whether unknown
      options are ignored or not; the flags are recorded in the order they
      are written and the definitions are kept. */
  lemma {:induction false} StopAtOperand(options: seq<Opt>, args: seq<string>, j: nat, f: Flags)
    requires f.stopOnArgument && j < |args| && Operand(args[j], f)
    requires forall k :: 0 <= k < j ==> FlagToken(options, args[k], f)
    ensures var r := Process(options, args, f);
      && r.result == Returned(args[j..])
      && Defs(r.options) == Defs(options)
      && Names(r.sequence) == ClusterChars(args[..j])
  {
    forall k | 0 <= k < j
      ensures FlagAt(options, args, k, f)
    {
    }
    StepsToOperand(options, args, 0, j, f, State(options, [], []));
    assert args[0..j] == args[..j];
    assert Names([]) == "";
  }

  // ---------------------------------------------------------------------
  // Long options

  /** The first '=' of `--name=value` is the one after the name. */
  lemma {:induction false} EqualsAfterName(name: string, value: string)
    requires '=' !in name
    ensures Find("--" + name + "=" + value, '=', 0) == |name| + 2
  {
    var tok := "--" + name + "=" + value;
    var r := Find(tok, '=', 0);
    assert tok[|name| + 2] == '=';
  }

  /** `--name=value`: an option taking an argument gets everything after
      the first '=' (which may hold more '='), one taking none throws
      takes_no_arg; an unknown name throws or, ignored, is kept. */
  lemma {:induction false} LongWithValue(args: seq<string>, t: nat, f: Flags, st: State, name: string, value: string)
    requires t < |args| && args[t] == "--" + name + "=" + value && '=' !in name
    ensures match FindLong(st.options, name, 0)
      case Nothing =>
        Token(args, t, f, st) ==
          if f.ignoreUnknown then Next(st.(out := st.out + [args[t]]), t + 1)
          else Finish(Run(st.options, st.sequence, Threw(MakeError(UnknownOption, "--" + name))))
      case Some(k) =>
        Token(args, t, f, st) ==
          if st.options[k].takesArgument then Next(Activate(st, k, Some(value)), t + 1)
          else Finish(Run(st.options, st.sequence, Threw(MakeError(TakesNoArg, "--" + name))))
  {
    var tok := args[t];
    assert IsLong(tok) by {
      assert tok[..2] == "--";
    }
    EqualsAfterName(name, value);
    assert tok[2..|name| + 2] == name;
    assert tok[|name| + 3..] == value;
  }

  /** `--name` without '=': an option taking an argument takes the next
      token, and throws missing_arg when there is none. */
  lemma {:induction false} LongWithoutValue(args: seq<string>, t: nat, f: Flags, st: State, name: string, k: nat)
    requires t < |args| && args[t] == "--" + name && |name| > 0 && '=' !in name
    requires FindLong(st.options, name, 0) == Some(k) && st.options[k].takesArgument
    ensures Token(args, t, f, st) ==
      if t + 1 == |args| then Finish(Run(st.options, st.sequence, Threw(MakeError(MissingArg, "--" + name))))
      else Next(Activate(st, k, Some(args[t + 1])), t + 2)
  {
    var tok := args[t];
    assert IsLong(tok) by {
      assert tok[..2] == "--";
    }
    assert forall j :: 2 <= j < |tok| ==> tok[j] == name[j - 2];
    assert tok[2..] == name;
  }

  // ---------------------------------------------------------------------
  // Short-option clusters

  /** An option character known and taking no argument. */
  predicate IsFlag(options: seq<Opt>, c: char)
  {
    var r := FindShort(options, c, 0);
    r.Some? && !options[r.value].takesArgument
  }

  /** Activating the flags `cs`, one after the other. */
  ghost function ActivateFlags(st: State, cs: string): (r: State)
    requires forall j :: 0 <= j < |cs| ==> IsFlag(st.options, cs[j])
    ensures |r.options| == |st.options|
    decreases |cs|
  {
    if cs == [] then st
    else
      assert IsFlag(st.options, cs[0]);
      var s := Activate(st, FindShort(st.options, cs[0], 0).value, Nothing);
      FlagsAfter(st, cs, s);
      ActivateFlags(s, cs[1..])
  }

  lemma {:induction false} FlagsAfter(st: State, cs: string, s: State)
    requires |cs| > 0 && IsFlag(st.options, cs[0]) && forall j :: 0 <= j < |cs| ==> IsFlag(st.options, cs[j])
    requires s == Activate(st, FindShort(st.options, cs[0], 0).value, Nothing)
    ensures Defs(s.options) == Defs(st.options)
    ensures forall j :: 0 <= j < |cs[1..]| ==> IsFlag(s.options, cs[1..][j])
  {
    var k := FindShort(st.options, cs[0], 0).value;
    assert Defs(s.options) == Defs(st.options) by {
      forall i | 0 <= i < |st.options|
        ensures Defs(s.options)[i] == Defs(st.options)[i]
      {
      }
    }
    forall j | 0 <= j < |cs[1..]|
      ensures IsFlag(s.options, cs[1..][j])
    {
      assert IsFlag(st.options, cs[j + 1]);
      SameLookups(s.options, st.options, cs[j + 1], "", 0);
      var q := FindShort(st.options, cs[j + 1], 0).value;
      assert Defs(s.options)[q] == Defs(st.options)[q];
    }
  }

  /** The option characters of a sequence of recorded options. */
  function Names(sq: seq<Opt>): (n: string)
    ensures |n| == |sq| && forall i :: 0 <= i < |sq| ==> n[i] == sq[i].charName
  {
    seq(|sq|, i requires 0 <= i < |sq| => sq[i].charName)
  }

  lemma {:induction false} NamesAppend(a: seq<Opt>, b: seq<Opt>)
    ensures Names(a + b) == Names(a) + Names(b)
  {
  }

  /** The flags of a cluster are activated in the order they are written,
      each recorded once in option_sequence. */
  lemma {:induction false} FlagsInOrder(st: State, cs: string)
    requires forall j :: 0 <= j < |cs| ==> IsFlag(st.options, cs[j])
    ensures var s := ActivateFlags(st, cs);
      && st.sequence <= s.sequence
      && Names(s.sequence) == Names(st.sequence) + cs
      && s.out == st.out && Defs(s.options) == Defs(st.options)
    decreases |cs|
  {
    if cs == [] {
      assert Names(st.sequence) + cs == Names(st.sequence);
    } else {
      assert IsFlag(st.options, cs[0]);
      var k := FindShort(st.options, cs[0], 0).value;
      var s1 := Activate(st, k, Nothing);
      FlagsAfter(st, cs, s1);
      FlagsInOrder(s1, cs[1..]);
      NamesAppend(st.sequence, [s1.options[k]]);
      assert Names([s1.options[k]]) == [cs[0]];
      assert cs == [cs[0]] + cs[1..];
    }
  }

  /** A run of flags in a cluster is the same as activating them all. */
  lemma {:induction false} FlagRun(args: seq<string>, t: nat, i: nat, n: nat, f: Flags, st: State, ropt: string)
    requires t < |args| && i <= n <= |args[t]|
    requires forall j :: 0 <= j < |args[t][i..n]| ==> IsFlag(st.options, args[t][i..n][j])
    ensures Cluster(args, t, i, f, st, ropt) == Cluster(args, t, n, f, ActivateFlags(st, args[t][i..n]), ropt)
    decreases n - i
  {
    var cs := args[t][i..n];
    if i < n {
      var k := FindShort(st.options, cs[0], 0).value;
      var s1 := Activate(st, k, Nothing);
      FlagsAfter(st, cs, s1);
      assert cs[1..] == args[t][i + 1..n];
      FlagRun(args, t, i + 1, n, f, s1, ropt);
    } else {
      assert cs == [];
    }
  }

  /** `-abc` made of flags activates a, b and c in that order and keeps
      nothing as an operand. */
  lemma {:induction false} FlagCluster(args: seq<string>, t: nat, f: Flags, st: State, cs: string)
    requires t < |args| && args[t] == "-" + cs && |cs| > 0 && cs[0] != '-'
    requires !(f.ignoreNumbers && '0' <= cs[0] <= '9')
    requires forall j :: 0 <= j < |cs| ==> IsFlag(st.options, cs[j])
    ensures Token(args, t, f, st) == Next(ActivateFlags(st, cs), t + 1)
  {
    var tok := args[t];
    assert tok[1] == cs[0];
    assert !IsLong(tok) && IsShort(tok);
    assert tok[1..|tok|] == cs;
    FlagRun(args, t, 1, |tok|, f, st, "");
    var s := ActivateFlags(st, cs);
    assert Cluster(args, t, 1, f, st, "") == Ended(s, t, "");
  }

  /** In a cluster, an option taking an argument takes the rest of the
      token, without one leading '=', and ends the cluster; written last,
      it takes the next token, and throws missing_arg when there is none. */
  lemma {:induction false} ClusterArgument(args: seq<string>, t: nat, f: Flags, st: State, cs: string, c: char, rest: string)
    requires t < |args| && args[t] == "-" + cs + [c] + rest
    requires forall j :: 0 <= j < |cs| ==> IsFlag(st.options, cs[j])
    requires var r := FindShort(st.options, c, 0); r.Some? && st.options[r.value].takesArgument
    ensures var s := ActivateFlags(st, cs);
      var k := FindShort(st.options, c, 0).value;
      Cluster(args, t, 1, f, st, "") ==
        if rest != [] then Ended(Activate(s, k, Some(if rest[0] == '=' then rest[1..] else rest)), t, "")
        else if t + 1 == |args| then Raised(MakeError(MissingArg, "-" + [c]), s)
        else Ended(Activate(s, k, Some(args[t + 1])), t + 1, "")
  {
    var tok := args[t];
    var n := |cs| + 1;
    assert tok[1..n] == cs;
    FlagRun(args, t, 1, n, f, st, "");
    var s := ActivateFlags(st, cs);
    FlagsInOrder(st, cs);
    SameLookups(s.options, st.options, c, "", 0);
    var k := FindShort(st.options, c, 0).value;
    assert Defs(s.options)[k] == Defs(st.options)[k];
    assert tok[n] == c;
    if rest != [] {
      assert tok[n + 1] == rest[0];
      assert tok[n + 1..] == rest;
      assert tok[n + 2..] == rest[1..];
    }
  }

  /** Unknown characters of a cluster, when ignored, are kept in order. */
  lemma {:induction false} UnknownKept(args: seq<string>, t: nat, i: nat, f: Flags, st: State, ropt: string)
    requires t < |args| && i <= |args[t]| && f.ignoreUnknown
    requires forall j :: i <= j < |args[t]| ==> FindShort(st.options, args[t][j], 0).Nothing?
    ensures Cluster(args, t, i, f, st, ropt) == Ended(st, t, ropt + args[t][i..])
    decreases |args[t]| - i
  {
    if i < |args[t]| {
      UnknownKept(args, t, i + 1, f, st, ropt + [args[t][i]]);
      assert ropt + [args[t][i]] + args[t][i + 1..] == ropt + args[t][i..];
    }
  }

  /** With ignore_unknown, a cluster none of whose characters is an option
      is kept as the operand it was; without it, its first character
      throws unknown_option. */
  lemma {:induction false} UnknownCluster(args: seq<string>, t: nat, f: Flags, st: State)
    requires t < |args| && IsShort(args[t]) && !IsLong(args[t]) && !(f.ignoreNumbers && '0' <= args[t][1] <= '9')
    requires forall j :: 1 <= j < |args[t]| ==> FindShort(st.options, args[t][j], 0).Nothing?
    ensures Token(args, t, f, st) ==
      if f.ignoreUnknown then Next(st.(out := st.out + [args[t]]), t + 1)
      else Finish(Run(st.options, st.sequence, Threw(MakeError(UnknownOption, "-" + [args[t][1]]))))
  {
    if f.ignoreUnknown {
      UnknownKept(args, t, 1, f, st, "");
      assert "-" + ("" + args[t][1..]) == args[t];
    }
  }
}
