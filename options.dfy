/** The command-line option processor of src/options.cpp: option
    definitions, the option_error messages, the lookups by short and long
    name, and option_set::process, which walks the argument vector, turns
    options on in the set, records them in activation order, and returns
    the arguments that are not options. */
module Options {
  import opened Chunks
  import opened Text

  /** ztd::option. `activated` and `argument` are written by process. */
  datatype Opt = Opt(
    shortDef: bool, charName: char,
    longDef: bool, strName: string,
    takesArgument: bool, helpText: string, argName: string,
    activated: bool, argument: string)

  /** option() */
  function DefaultOpt(): (o: Opt)
    ensures !o.shortDef && !o.longDef && !o.takesArgument && !o.activated
  {
    Opt(false, '\0', false, "", false, "", "", false, "")
  }

  /** option(c, arg, helptext, argname): a short option only. */
  function ShortOpt(c: char, arg: bool, help: string, argName: string): (o: Opt)
    ensures o.shortDef && o.charName == c && !o.longDef && o.takesArgument == arg && !o.activated
  {
    Opt(true, c, false, "", arg, help, argName, false, "")
  }

  /** option(str, arg, helptext, argname): a long option only. */
  function LongOpt(str: string, arg: bool, help: string, argName: string): (o: Opt)
    ensures !o.shortDef && o.longDef && o.strName == str && o.takesArgument == arg && !o.activated
  {
    Opt(false, '\0', true, str, arg, help, argName, false, "")
  }

  /** option(c, str, arg, helptext, argname): both names. */
  function FullOpt(c: char, str: string, arg: bool, help: string, argName: string): (o: Opt)
    ensures o.shortDef && o.charName == c && o.longDef && o.strName == str && o.takesArgument == arg && !o.activated
  {
    Opt(true, c, true, str, arg, help, argName, false, "")
  }

  /** option_error::error_type */
  datatype ErrorType = UnknownOption | TakesNoArg | MissingArg

  /** option_error: its type, the option it is about, and its message. */
  datatype OptionError = OptionError(kind: ErrorType, option: string, message: string)

  /** option_error(type, option) */
  function MakeError(kind: ErrorType, option: string): (e: OptionError)
    ensures e.kind == kind && e.option == option
  {
    OptionError(kind, option,
      match kind
      case UnknownOption => "Unknown option: " + option
      case TakesNoArg => "Option " + option + " doesn't take an argument"
      case MissingArg => "Option " + option + " needs an argument")
  }

  // ---------------------------------------------------------------------
  // Lookups

  predicate ShortMatch(o: Opt, c: char)
  {
    o.shortDef && o.charName == c
  }

  predicate LongMatch(o: Opt, s: string)
  {
    o.longDef && o.strName == s
  }

  /** find(c): the index of the first option defined with that character,
      searching from `from`. */
  function FindShort(vec: seq<Opt>, c: char, from: nat): (r: Option<nat>)
    ensures r.Some? ==> (from <= r.value < |vec| && ShortMatch(vec[r.value], c)
      && forall i :: from <= i < r.value ==> !ShortMatch(vec[i], c))
    ensures r.Nothing? ==> forall i :: from <= i < |vec| ==> !ShortMatch(vec[i], c)
    decreases |vec| - from
  {
    if from >= |vec| then Nothing
    else if ShortMatch(vec[from], c) then Some(from)
    else FindShort(vec, c, from + 1)
  }

  /** find(str): the index of the first option defined with that name. */
  function FindLong(vec: seq<Opt>, s: string, from: nat): (r: Option<nat>)
    ensures r.Some? ==> (from <= r.value < |vec| && LongMatch(vec[r.value], s)
      && forall i :: from <= i < r.value ==> !LongMatch(vec[i], s))
    ensures r.Nothing? ==> forall i :: from <= i < |vec| ==> !LongMatch(vec[i], s)
    decreases |vec| - from
  {
    if from >= |vec| then Nothing
    else if LongMatch(vec[from], s) then Some(from)
    else FindLong(vec, s, from + 1)
  }

  // ---------------------------------------------------------------------
  // process

  datatype Flags = Flags(ignoreNumbers: bool, stopOnArgument: bool, ignoreUnknown: bool)

  /** The state process works on: option_vec, option_sequence, and the
      arguments collected so far. */
  datatype State = State(options: seq<Opt>, sequence: seq<Opt>, out: seq<string>)

  /** What process gives back: the returned arguments, or the exception. */
  datatype Return = Returned(args: seq<string>) | Threw(error: OptionError)

  /** The end of process: option_vec and option_sequence as process left
      them (also when it threw), and what it gave back. */
  datatype Run = Run(options: seq<Opt>, sequence: seq<Opt>, result: Return)

  /** Turning on option `k`, with the argument `arg` if there is one, and
      recording a copy of it in option_sequence. */
  function Activate(st: State, k: nat, arg: Option<string>): (r: State)
    requires k < |st.options|
  {
    var o := st.options[k].(activated := true, argument := if arg.Some? then arg.value else st.options[k].argument);
    State(st.options[k := o], st.sequence + [o], st.out)
  }

  /** The effect of one argument token: go on at token `t`, or stop. */
  datatype Step = Next(st: State, t: nat) | Finish(run: Run)

  /** Where the loop of a short-option cluster ends: the state, the token
      it stopped at (the next one when it took that as an argument), and
      the unknown characters kept aside. */
  datatype ClusterEnd = Ended(st: State, t: nat, ropt: string) | Raised(error: OptionError, st: State)

  /** process */
  function Process(options: seq<Opt>, args: seq<string>, f: Flags): Run
  {
    Steps(args, 0, f, State(options, [], []))
  }

  function Steps(args: seq<string>, t: nat, f: Flags, st: State): Run
    decreases |args| - t
  {
    if t >= |args| then Run(st.options, st.sequence, Returned(st.out))
    else
      match Token(args, t, f, st)
      case Next(st', t') => Steps(args, t', f, st')
      case Finish(r) => r
  }

  /** A token of the form `--name` or `--name=value` (longer than "--"). */
  predicate IsLong(tok: string)
  {
    |tok| > 2 && tok[..2] == "--"
  }

  /** A token of the form `-xyz`. */
  predicate IsShort(tok: string)
  {
    |tok| > 1 && tok[0] == '-' && tok[1] != '-'
  }

  /** One token of the argument vector. */
  function Token(args: seq<string>, t: nat, f: Flags, st: State): (r: Step)
    requires t < |args|
    ensures r.Next? ==> t < r.t <= |args|
  {
    var tok := args[t];
    if IsLong(tok) then LongToken(args, t, f, st)
    else if IsShort(tok) then
      if f.ignoreNumbers && '0' <= tok[1] <= '9' then
        if f.stopOnArgument then Finish(Run(st.options, st.sequence, Returned(args[t..])))
        else Next(st.(out := st.out + [tok]), t + 1)
      else
        match Cluster(args, t, 1, f, st, "")
        case Raised(e, s) => Finish(Run(s.options, s.sequence, Threw(e)))
        case Ended(s, t', ropt) =>
          Next(if |ropt| > 0 then s.(out := s.out + ["-" + ropt]) else s, t' + 1)
    else if f.stopOnArgument then Finish(Run(st.options, st.sequence, Returned(args[t..])))
    else if tok == "--" then Finish(Run(st.options, st.sequence, Returned(st.out + args[t + 1..])))
    else Next(st.(out := st.out + [tok]), t + 1)
  }

  /** A `--` token: the name runs to the first '=', if any. */
  function LongToken(args: seq<string>, t: nat, f: Flags, st: State): (r: Step)
    requires t < |args| && IsLong(args[t])
    ensures r.Next? ==> t < r.t <= |args|
  {
    var tok := args[t];
    var eqn := Find(tok, '=', 0);
    var name := if eqn < 0 then tok[2..] else tok[2..eqn];
    match FindLong(st.options, name, 0)
    case Nothing =>
      if f.ignoreUnknown then Next(st.(out := st.out + [tok]), t + 1)
      else Finish(Run(st.options, st.sequence, Threw(MakeError(UnknownOption, "--" + name))))
    case Some(k) =>
      var o := st.options[k];
      if eqn < 0 then
        if !o.takesArgument then Next(Activate(st, k, Nothing), t + 1)
        else if t + 1 == |args| then Finish(Run(st.options, st.sequence, Threw(MakeError(MissingArg, "--" + o.strName))))
        else Next(Activate(st, k, Some(args[t + 1])), t + 2)
      else if !o.takesArgument then Finish(Run(st.options, st.sequence, Threw(MakeError(TakesNoArg, "--" + o.strName))))
      else Next(Activate(st, k, Some(tok[eqn + 1..])), t + 1)
  }

  /** The loop over the characters of a `-xyz` token, from character `i`. */
  function Cluster(args: seq<string>, t: nat, i: nat, f: Flags, st: State, ropt: string): (r: ClusterEnd)
    requires t < |args|
    ensures r.Ended? ==> t <= r.t < |args|
    decreases |args[t]| - i
  {
    var tok := args[t];
    if i >= |tok| then Ended(st, t, ropt)
    else
      var c := tok[i];
      match FindShort(st.options, c, 0)
      case Nothing =>
        if f.ignoreUnknown then Cluster(args, t, i + 1, f, st, ropt + [c])
        else Raised(MakeError(UnknownOption, "-" + [c]), st)
      case Some(k) =>
        if !st.options[k].takesArgument then Cluster(args, t, i + 1, f, Activate(st, k, Nothing), ropt)
        else if i + 1 >= |tok| then
          if t + 1 == |args| then Raised(MakeError(MissingArg, "-" + [st.options[k].charName]), st)
          else Ended(Activate(st, k, Some(args[t + 1])), t + 1, ropt)
        else
          var j := if tok[i + 1] == '=' then i + 2 else i + 1;
          Ended(Activate(st, k, Some(tok[j..])), t, ropt)
  }

  // ---------------------------------------------------------------------
  // option_set

  /** The Step a token method reports: `done` with what process gives
      back, or the state to go on with at token `t`. */
  function Reported(options: seq<Opt>, sequence: seq<Opt>, out: seq<string>, t: nat, done: bool, ret: Return): Step
  {
    if done then Finish(Run(options, sequence, ret)) else Next(State(options, sequence, out), t)
  }

  /** option_set: the options defined (option_vec) and the options met by
      the last process, in order (option_sequence). */
  class OptionSet {
    var options: seq<Opt>
    var sequence: seq<Opt>

    constructor ()
      ensures options == [] && sequence == []
    {
      options := [];
      sequence := [];
    }

    /** add(opt) */
    method Add(opt: Opt)
      modifies this
      ensures options == old(options) + [opt] && sequence == old(sequence)
    {
      options := options + [opt];
    }

    /** find(c) */
    method FindChar(c: char) returns (r: Option<nat>)
      ensures r == FindShort(options, c, 0)
    {
      var k := 0;
      while k < |options|
        invariant k <= |options|
        invariant FindShort(options, c, k) == FindShort(options, c, 0)
      {
        if options[k].shortDef && options[k].charName == c {
          return Some(k);
        }
        k := k + 1;
      }
      r := Nothing;
    }

    /** find(str) */
    method FindName(s: string) returns (r: Option<nat>)
      ensures r == FindLong(options, s, 0)
    {
      var k := 0;
      while k < |options|
        invariant k <= |options|
        invariant FindLong(options, s, k) == FindLong(options, s, 0)
      {
        if options[k].longDef && options[k].strName == s {
          return Some(k);
        }
        k := k + 1;
      }
      r := Nothing;
    }

    /** `popt->activated = true; popt->argument = ...;
        option_sequence.push_back(*popt);` */
    method Turn(k: nat, arg: Option<string>, ghost out: seq<string>)
      requires k < |options|
      modifies this
      ensures State(options, sequence, out) == Activate(State(old(options), old(sequence), out), k, arg)
    {
      var o := options[k].(activated := true);
      if arg.Some? {
        o := o.(argument := arg.value);
      }
      options := options[k := o];
      sequence := sequence + [o];
    }

    /** The `--` branch of process. */
    method LongArg(args: seq<string>, t: nat, f: Flags, out: seq<string>)
      returns (out': seq<string>, t': nat, done: bool, ret: Return)
      requires t < |args| && IsLong(args[t])
      modifies this
      ensures LongToken(args, t, f, State(old(options), old(sequence), out)) ==
        Reported(options, sequence, out', t', done, ret)
    {
      var tok := args[t];
      var eqn := Find(tok, '=', 0);
      var name := if eqn < 0 then tok[2..] else tok[2..eqn];
      var found := FindName(name);
      out', t', done, ret := out, t + 1, false, Returned([]);
      if found.Nothing? {
        if !f.ignoreUnknown {
          done, ret := true, Threw(MakeError(UnknownOption, "--" + name));
          return;
        }
        out' := out + [tok];
        return;
      }
      var k := found.value;
      var o := options[k];
      if eqn < 0 {
        if !o.takesArgument {
          Turn(k, Nothing, out);
        } else if t + 1 == |args| {
          done, ret := true, Threw(MakeError(MissingArg, "--" + o.strName));
        } else {
          Turn(k, Some(args[t + 1]), out);
          t' := t + 2;
        }
      } else if !o.takesArgument {
        done, ret := true, Threw(MakeError(TakesNoArg, "--" + o.strName));
      } else {
        Turn(k, Some(tok[eqn + 1..]), out);
      }
    }

    /** The loop over the characters of a `-xyz` token. */
    method ShortArgs(args: seq<string>, t: nat, f: Flags, out: seq<string>)
      returns (t': nat, ropt: string, err: Option<OptionError>)
      requires t < |args|
      modifies this
      ensures var r := Cluster(args, t, 1, f, State(old(options), old(sequence), out), "");
        if err.Some? then r == Raised(err.value, State(options, sequence, out))
        else r == Ended(State(options, sequence, out), t', ropt)
    {
      var tok := args[t];
      var i := 1;
      ropt := "";
      t' := t;
      err := Nothing;
      var stop := false;
      ghost var whole := Cluster(args, t, 1, f, State(options, sequence, out), "");
      while !stop && i < |tok|
        invariant !stop ==> t' == t
        invariant !stop ==> whole == Cluster(args, t, i, f, State(options, sequence, out), ropt)
        invariant stop ==> err.Nothing? && whole == Ended(State(options, sequence, out), t', ropt)
        decreases |tok| - i, if stop then 0 else 1
      {
        var c := tok[i];
        var found := FindChar(c);
        if found.Nothing? {
          if !f.ignoreUnknown {
            err := Some(MakeError(UnknownOption, "-" + [c]));
            return;
          }
          ropt := ropt + [c];
        } else {
          var k := found.value;
          if !options[k].takesArgument {
            Turn(k, Nothing, out);
          } else if i + 1 >= |tok| {
            if t + 1 == |args| {
              err := Some(MakeError(MissingArg, "-" + [options[k].charName]));
              return;
            }
            Turn(k, Some(args[t + 1]), out);
            t' := t + 1;
            stop := true;
          } else {
            var j := if tok[i + 1] == '=' then i + 2 else i + 1;
            Turn(k, Some(tok[j..]), out);
            stop := true;
          }
        }
        i := i + 1;
      }
    }

    /** One token of the argument vector. */
    method Round(args: seq<string>, t: nat, f: Flags, out: seq<string>)
      returns (out': seq<string>, t': nat, done: bool, ret: Return)
      requires t < |args|
      modifies this
      ensures Token(args, t, f, State(old(options), old(sequence), out)) ==
        Reported(options, sequence, out', t', done, ret)
    {
      var tok := args[t];
      out', t', done, ret := out, t + 1, false, Returned([]);
      if |tok| > 2 && tok[..2] == "--" {
        out', t', done, ret := LongArg(args, t, f, out);
      } else if |tok| > 1 && tok[0] == '-' && tok[1] != '-' {
        if f.ignoreNumbers && '0' <= tok[1] <= '9' {
          if f.stopOnArgument {
            done, ret := true, Returned(args[t..]);
            return;
          }
          out' := out + [tok];
        } else {
          var tc, ropt, err := ShortArgs(args, t, f, out);
          if err.Some? {
            done, ret := true, Threw(err.value);
            return;
          }
          if |ropt| > 0 {
            out' := out + ["-" + ropt];
          }
          t' := tc + 1;
        }
      } else if f.stopOnArgument {
        done, ret := true, Returned(args[t..]);
      } else if tok == "--" {
        done, ret := true, Returned(out + args[t + 1..]);
      } else {
        out' := out + [tok];
      }
    }

    /** process(arguments, ignore_numbers, stop_on_argument, ignore_unknown):
        the arguments that are not options (or, with stop_on_argument, all
        from the first one that is not an option), or the option_error
        thrown; option_vec and option_sequence are as the run left them. */
    method ProcessArgs(args: seq<string>, ignoreNumbers: bool, stopOnArgument: bool, ignoreUnknown: bool)
      returns (out: seq<string>, err: Option<OptionError>)
      modifies this
      ensures var r := Process(old(options), args, Flags(ignoreNumbers, stopOnArgument, ignoreUnknown));
        && options == r.options && sequence == r.sequence
        && (if err.Some? then r.result == Threw(err.value) else r.result == Returned(out))
    {
      var f := Flags(ignoreNumbers, stopOnArgument, ignoreUnknown);
      ghost var whole := Process(options, args, f);
      sequence := [];
      out := [];
      err := Nothing;
      var t := 0;
      while t < |args|
        invariant t <= |args|
        invariant Steps(args, t, f, State(options, sequence, out)) == whole
        decreases |args| - t
      {
        var out', t', done, ret := Round(args, t, f, out);
        if done {
          if ret.Threw? {
            return [], Some(ret.error);
          }
          return ret.args, Nothing;
        }
        out, t := out', t';
      }
    }
  }
}
