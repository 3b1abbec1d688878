/**
 The argparse-compatible command line.  One level of it is specified in two
 phases: ScanTokens reads the tokens as uses of options and positionals, with
 no cursor and no rewriting, and Store folds the uses into the values.
 */
module Args {
  import opened Wrappers
  import opened Decimal
  import opened Strings

  datatype Kind = KindBool | KindString | KindInt | KindList | KindAppend

  /** names: the long and short forms.  value: what a bool option stores. */
  datatype Opt = Opt(dest: string, names: seq<string>, kind: Kind, value: bool)

  /** One parser level: the global options, which stop at the command name, or a command's. */
  datatype Level = Level(opts: seq<Opt>, stopAtPositional: bool)

  datatype Error =
    | Help
    | Unrecognized(name: string)
    | Ambiguous(name: string, candidates: multiset<string>)
    | IgnoredArgument(display: string, inline: string)
    | ExpectedOne(display: string)
    | ExpectedSome(display: string)
    | InvalidInt(display: string, text: string)
    | NoCommand
    | UnknownCommand(name: string)
    | MissingPositionals(dests: seq<string>)
    | ExtraPositionals(words: seq<string>)

  /** A dest is present only when one of its options was given. */
  datatype Values = Values(bools: map<string, bool>, strings: map<string, string>,
                           ints: map<string, int>, lists: map<string, seq<string>>)

  const NO_VALUES := Values(map[], map[], map[], map[])

  /******* Tokens *******/

  /** ^-\d+$|^-\d*\.\d+$ */
  predicate NegativeNumber(tok: string) {
    && |tok| > 1 && tok[0] == '-'
    && (AllDigits(tok[1..]) ||
        exists k :: 1 <= k < |tok| - 1 && tok[k] == '.' && AllDigits(tok[1..k]) && AllDigits(tok[k+1..]))
  }

  predicate IsOption(tok: string) {
    |tok| > 1 && HasPrefix(tok, "-") && !NegativeNumber(tok)
  }

  predicate IsLong(tok: string) {
    HasPrefix(tok, "--")
  }

  lemma LongIsOption(tok: string)
    requires IsLong(tok)
    ensures IsOption(tok)
  {
    assert tok[1..][0] == '-';
    forall k | 1 <= k < |tok| - 1 && tok[k] == '.' ensures !AllDigits(tok[1..k]) {
      assert tok[1..k][0] == '-';
    }
  }

  /** A token's option name and the value attached to it: --name=value, -nvalue. */
  function SplitToken(tok: string): (r: (string, Option<string>))
    requires IsOption(tok)
  {
    if IsLong(tok) then
      var k := IndexOf(tok, '=');
      if k < |tok| then (tok[..k], Some(tok[k+1..])) else (tok, None)
    else if |tok| > 2 then (tok[..2], Some(tok[2..]))
    else (tok, None)
  }

  /******* lookup *******/

  function FirstNamed(opts: seq<Opt>, name: string): Option<Opt> {
    if opts == [] then None
    else if name in opts[0].names then Some(opts[0])
    else FirstNamed(opts[1..], name)
  }

  /** The first long name that name is a prefix of. */
  function Extension(names: seq<string>, name: string): Option<string> {
    if names == [] then None
    else if IsLong(names[0]) && HasPrefix(names[0], name) then Some(names[0])
    else Extension(names[1..], name)
  }

  /** The options that name abbreviates, each with the name it extends to. */
  function Extending(opts: seq<Opt>, name: string): seq<(Opt, string)> {
    if opts == [] then []
    else
      var e := Extension(opts[0].names, name);
      (if e.Some? then [(opts[0], e.value)] else []) + Extending(opts[1..], name)
  }

  function SecondOf(ps: seq<(Opt, string)>): seq<string> {
    if ps == [] then [] else [ps[0].1] + SecondOf(ps[1..])
  }

  function Lookup(opts: seq<Opt>, name: string): Result<Opt, Error> {
    var exact := FirstNamed(opts, name);
    if exact.Some? then Success(exact.value)
    else if !IsLong(name) then Failure(Unrecognized(name))
    else
      var m := Extending(opts, name);
      if |m| == 0 then Failure(Unrecognized(name))
      else if |m| == 1 then Success(m[0].0)
      else Failure(Ambiguous(name, multiset(SecondOf(m))))
  }

  /** name abbreviates o: it is a prefix of one of o's long names. */
  predicate Extends(o: Opt, name: string) {
    exists n :: n in o.names && IsLong(n) && HasPrefix(n, name)
  }

  lemma ExtensionIff(names: seq<string>, name: string)
    ensures Extension(names, name).Some? <==> exists n :: n in names && IsLong(n) && HasPrefix(n, name)
    ensures Extension(names, name).Some? ==> Extension(names, name).value in names
  {
    if names != [] {
      assert forall n :: n in names <==> n == names[0] || n in names[1..];
    }
  }

  lemma FirstNamedIff(opts: seq<Opt>, name: string)
    ensures FirstNamed(opts, name).Some? <==> exists i :: 0 <= i < |opts| && name in opts[i].names
    ensures FirstNamed(opts, name).Some? ==> FirstNamed(opts, name).value in opts && name in FirstNamed(opts, name).value.names
  {
    if opts != [] {
      assert forall i :: 0 < i < |opts| ==> opts[i] == opts[1..][i-1];
    }
  }

  lemma {:induction false} ExtendingIs(opts: seq<Opt>, name: string)
    ensures |Extending(opts, name)| == 0 <==> forall i :: 0 <= i < |opts| ==> !Extends(opts[i], name)
    ensures |Extending(opts, name)| == 1 <==> exists i :: 0 <= i < |opts| && UniqueAt(opts, name, i)
    ensures forall i :: 0 <= i < |opts| && UniqueAt(opts, name, i) ==> Extending(opts, name)[0].0 == opts[i]
    decreases |opts|
  {
    if opts != [] {
      var rest := opts[1..];
      ExtendingIs(rest, name);
      ExtensionIff(opts[0].names, name);
      assert forall i :: 0 < i < |opts| ==> opts[i] == rest[i-1];
      if Extends(opts[0], name) {
        assert forall i :: 0 < i < |opts| ==> !UniqueAt(opts, name, i);
        assert |Extending(rest, name)| == 0 ==> UniqueAt(opts, name, 0);
      } else {
        assert !UniqueAt(opts, name, 0);
        forall i | 0 < i < |opts| ensures UniqueAt(opts, name, i) <==> UniqueAt(rest, name, i - 1) {
          UniqueTail(opts, name, i);
        }
        if exists i :: 0 <= i < |rest| && UniqueAt(rest, name, i) {
          var i :| 0 <= i < |rest| && UniqueAt(rest, name, i);
          assert UniqueAt(opts, name, i + 1);
        }
      }
    }
  }

  /** Option i is the only one that name abbreviates. */
  predicate UniqueAt(opts: seq<Opt>, name: string, i: nat)
    requires i < |opts|
  {
    Extends(opts[i], name) && forall j :: 0 <= j < |opts| && j != i ==> !Extends(opts[j], name)
  }

  lemma UniqueTail(opts: seq<Opt>, name: string, i: nat)
    requires 0 < i < |opts| && !Extends(opts[0], name)
    ensures UniqueAt(opts, name, i) <==> UniqueAt(opts[1..], name, i - 1)
  {
    var rest := opts[1..];
    if UniqueAt(rest, name, i - 1) {
      forall j | 0 <= j < |opts| && j != i ensures !Extends(opts[j], name) {
        if j > 0 {
          assert opts[j] == rest[j-1];
        }
      }
    }
    if UniqueAt(opts, name, i) {
      forall j | 0 <= j < |rest| && j != i - 1 ensures !Extends(rest[j], name) {
        assert rest[j] == opts[j+1];
      }
    }
  }

  /** lookup succeeds exactly on an exact name, or a long prefix of one option only. */
  lemma {:induction false} LookupIff(opts: seq<Opt>, name: string)
    ensures Lookup(opts, name).Success? <==>
            (exists i :: 0 <= i < |opts| && name in opts[i].names) ||
            (IsLong(name) && exists i :: 0 <= i < |opts| && UniqueAt(opts, name, i))
    ensures FirstNamed(opts, name).None? && IsLong(name) ==>
              forall i :: 0 <= i < |opts| && UniqueAt(opts, name, i) ==> Lookup(opts, name) == Success(opts[i])
  {
    FirstNamedIff(opts, name);
    ExtendingIs(opts, name);
  }

  /** The search of lookup, as two loops. */
  method LookupOption(opts: seq<Opt>, name: string) returns (r: Result<Opt, Error>)
    ensures r == Lookup(opts, name)
  {
    for i := 0 to |opts|
      invariant FirstNamed(opts, name) == FirstNamed(opts[i..], name)
    {
      if name in opts[i].names {
        return Success(opts[i]);
      }
    }
    if !IsLong(name) {
      return Failure(Unrecognized(name));
    }
    var matches: seq<Opt>, names: seq<string> := [], [];
    for i := 0 to |opts|
      invariant |matches| == |names|
      invariant Extending(opts, name) == Paired(matches, names) + Extending(opts[i..], name)
    {
      var e := Extension(opts[i].names, name);
      if e.Some? {
        PairedMore(matches, names, opts[i], e.value);
        matches, names := matches + [opts[i]], names + [e.value];
      }
    }
    PairedParts(matches, names);
    assert Extending(opts, name) == Paired(matches, names);
    if |matches| == 0 {
      return Failure(Unrecognized(name));
    } else if |matches| == 1 {
      return Success(matches[0]);
    } else {
      return Failure(Ambiguous(name, multiset(names)));
    }
  }

  function Paired(os: seq<Opt>, ns: seq<string>): seq<(Opt, string)>
    requires |os| == |ns|
  {
    if os == [] then [] else [(os[0], ns[0])] + Paired(os[1..], ns[1..])
  }

  lemma {:induction false} PairedMore(os: seq<Opt>, ns: seq<string>, o: Opt, n: string)
    requires |os| == |ns|
    ensures Paired(os + [o], ns + [n]) == Paired(os, ns) + [(o, n)]
    decreases |os|
  {
    if os != [] {
      PairedMore(os[1..], ns[1..], o, n);
      assert (os + [o])[1..] == os[1..] + [o] && (ns + [n])[1..] == ns[1..] + [n];
    }
  }

  lemma {:induction false} PairedParts(os: seq<Opt>, ns: seq<string>)
    requires |os| == |ns|
    ensures |Paired(os, ns)| == |os| && SecondOf(Paired(os, ns)) == ns
    ensures os != [] ==> Paired(os, ns)[0].0 == os[0]
    decreases |os|
  {
    if os != [] {
      PairedParts(os[1..], ns[1..]);
    }
  }

  /******* Phase one: the uses of options, and the positionals *******/

  /** One use of an option.  A bool option takes no values. */
  datatype Use = Use(opt: Opt, vals: seq<string>)

  /** How a scan ends: at the end of the tokens, after a "--", at the first
      positional (with it and what follows), or at an error. */
  datatype Ending = Open | Dashed | Stopped(rest: seq<string>) | Bad(error: Error)

  datatype Scan = Scan(uses: seq<Use>, pos: seq<string>, ending: Ending)

  function Append(p: Scan, q: Scan): Scan {
    Scan(p.uses + q.uses, p.pos + q.pos, q.ending)
  }

  function OneUse(o: Opt, vals: seq<string>): Scan {
    Scan([Use(o, vals)], [], Open)
  }

  /** The words at the head of ts that are not options. */
  function Words(ts: seq<string>): (n: nat)
    ensures n <= |ts| && (n < |ts| ==> IsOption(ts[n]))
    ensures forall i :: 0 <= i < n ==> !IsOption(ts[i])
  {
    if ts == [] || IsOption(ts[0]) then 0 else 1 + Words(ts[1..])
  }

  /** How many of the following tokens an option with no attached value takes. */
  function Taken(k: Kind, ts: seq<string>): (n: nat)
    ensures n <= |ts|
  {
    if k == KindList then Words(ts)
    else if ts != [] && !IsOption(ts[0]) then 1
    else 0
  }

  /** The name that messages give an option. */
  function Display(o: Opt): string {
    if o.names == [] then "" else o.names[0]
  }

  function NoValue(o: Opt): Error {
    if o.kind == KindList then ExpectedSome(Display(o)) else ExpectedOne(Display(o))
  }

  predicate IsHelp(tok: string) {
    tok == "-h" || tok == "--help"
  }

  function ScanTokens(l: Level, ts: seq<string>): Scan
    decreases |ts|, if ts == [] then 0 else |ts[0]|
  {
    if ts == [] then Scan([], [], Open)
    else if !IsOption(ts[0]) then
      if l.stopAtPositional then Scan([], [], Stopped(ts))
      else Append(Scan([], [ts[0]], Open), ScanTokens(l, ts[1..]))
    else if ts[0] == "--" then
      if !l.stopAtPositional then Scan([], ts[1..], Dashed)
      else if ts[1..] == [] then Scan([], [], Dashed)
      else Scan([], [], Stopped(ts[1..]))
    else if IsHelp(ts[0]) then Scan([], [], Bad(Help))
    else
      var (name, inline) := SplitToken(ts[0]);
      match Lookup(l.opts, name)
      case Failure(e) => Scan([], [], Bad(e))
      case Success(o) =>
        if o.kind == KindBool then
          if inline.None? then Append(OneUse(o, []), ScanTokens(l, ts[1..]))
          else if IsLong(ts[0]) then Scan([], [], Bad(IgnoredArgument(Display(o), inline.value)))
          else Append(OneUse(o, []), ScanTokens(l, ["-" + inline.value] + ts[1..]))
        else if inline.Some? then Append(OneUse(o, [inline.value]), ScanTokens(l, ts[1..]))
        else
          var n := Taken(o.kind, ts[1..]);
          if n == 0 then Scan([], [], Bad(NoValue(o)))
          else Append(OneUse(o, ts[1..1+n]), ScanTokens(l, ts[1+n..]))
  }

  /******* Phase two: the uses give the values *******/

  /** What one use stores; None: its text is not an integer. */
  function StoreUse(v: Values, u: Use): Option<Values> {
    var d := u.opt.dest;
    match u.opt.kind
    case KindBool => Some(v.(bools := v.bools[d := u.opt.value]))
    case KindString => if u.vals == [] then None else Some(v.(strings := v.strings[d := u.vals[0]]))
    case KindInt =>
      if u.vals == [] || Atoi(u.vals[0]).None? then None
      else Some(v.(ints := v.ints[d := Atoi(u.vals[0]).value]))
    case KindList => Some(v.(lists := v.lists[d := u.vals]))
    case KindAppend =>
      if u.vals == [] then None
      else Some(v.(lists := v.lists[d := (if d in v.lists then v.lists[d] else []) + [u.vals[0]]]))
  }

  /** The values that the uses leave, and the first use that could not be stored. */
  function Store(v: Values, uses: seq<Use>): (Values, Option<Use>)
    decreases |uses|
  {
    if uses == [] then (v, None)
    else
      match StoreUse(v, uses[0])
      case None => (v, Some(uses[0]))
      case Some(v') => Store(v', uses[1..])
  }

  function BadUse(u: Use): Error {
    InvalidInt(Display(u.opt), if u.vals == [] then "" else u.vals[0])
  }

  /** Both phases: the positionals or the first error, and the values left. */
  function Read(l: Level, ts: seq<string>, v: Values): (Result<seq<string>, Error>, Values) {
    var s := ScanTokens(l, ts);
    var (v', bad) := Store(v, s.uses);
    if bad.Some? then (Failure(BadUse(bad.value)), v')
    else
      match s.ending
      case Bad(e) => (Failure(e), v')
      case Stopped(rest) => (Success(rest), v')
      case _ => (Success(s.pos), v')
  }

  lemma {:induction false} StoreConcat(v: Values, us: seq<Use>, ws: seq<Use>)
    ensures Store(v, us + ws) == if Store(v, us).1.Some? then Store(v, us) else Store(Store(v, us).0, ws)
    decreases |us|
  {
    if us == [] {
      assert us + ws == ws;
    } else {
      assert (us + ws)[1..] == us[1..] + ws;
      match StoreUse(v, us[0])
      case None =>
      case Some(v') => StoreConcat(v', us[1..], ws);
    }
  }

  lemma AppendAssociates(p: Scan, q: Scan, r: Scan)
    ensures Append(Append(p, q), r) == Append(p, Append(q, r))
  {
  }

  /******* The cursor loop *******/

  class ValueMaps {
    var bools: map<string, bool>
    var strings: map<string, string>
    var ints: map<string, int>
    var lists: map<string, seq<string>>

    constructor ()
      ensures Value() == NO_VALUES
    {
      bools, strings, ints, lists := map[], map[], map[], map[];
    }

    function Value(): Values
      reads this
    {
      Values(bools, strings, ints, lists)
    }

    /** What follows the reading of an option's values. */
    method Keep(o: Opt, vals: seq<string>) returns (ok: bool)
      requires o.kind != KindBool && vals != []
      modifies this
      ensures Store(old(Value()), [Use(o, vals)]) == (Value(), if ok then None else Some(Use(o, vals)))
    {
      ghost var u := [Use(o, vals)];
      assert u[1..] == [];
      ok := true;
      match o.kind {
        case KindBool =>
        case KindString => strings := strings[o.dest := vals[0]];
        case KindInt =>
          var n := Atoi(vals[0]);
          if n.None? {
            return false;
          }
          ints := ints[o.dest := n.value];
        case KindList => lists := lists[o.dest := vals];
        case KindAppend =>
          var before := if o.dest in lists then lists[o.dest] else [];
          lists := lists[o.dest := before + [vals[0]]];
      }
    }

    /** The part of readOptions that reads the option at the cursor: the new
        cursor, or an error. */
    method ReadOption(l: Level, args: array<string>, i: nat)
      returns (bad: Option<Error>, next: nat, ghost used: seq<Use>)
      requires i < args.Length && IsOption(args[i]) && args[i] != "--" && !IsHelp(args[i])
      modifies this, args
      ensures bad.None? ==> i <= next <= args.Length && (next == i ==> |args[i]| < |old(args[i])|)
      ensures bad.None? ==> Store(old(Value()), used) == (Value(), None)
      ensures bad.None? ==> ScanTokens(l, old(args[i..])) == Append(Scan(used, [], Open), ScanTokens(l, args[next..]))
      ensures bad.Some? ==> Read(l, old(args[i..]), old(Value())) == (Failure(bad.value), Value())
    {
      hide ScanTokens, IsOption, Store;
      var tok := args[i];
      assert args[i..][0] == tok && args[i..][1..] == args[i+1..];
      OptionHead(l, args[i..]);
      StoreNone(Value());
      bad, next, used := None, i, [];
      var (name, inline) := SplitToken(tok);
      var found := LookupOption(l.opts, name);
      if found.Failure? {
        bad := Some(found.error);
        return;
      }
      var o := found.value;
      if o.kind == KindBool {
        if inline.Some? && IsLong(tok) {
          bad := Some(IgnoredArgument(Display(o), inline.value));
          return;
        }
        used := [Use(o, [])];
        StoreFlag(Value(), o);
        bools := bools[o.dest := o.value];
        if inline.Some? {
          args[i] := "-" + inline.value;
          assert args[i..] == ["-" + inline.value] + args[i+1..];
        } else {
          next := i + 1;
        }
        return;
      }
      var vals;
      vals, next := TakeValues(args, i + 1, o.kind, inline);
      ValuedOption(l, args[i..], o);
      if vals == [] {
        bad := Some(NoValue(o));
        return;
      }
      var stored := Keep(o, vals);
      used := [Use(o, vals)];
      assert args[next..] == args[i+1..][next - i - 1..];
      assert args[i+1..][..next - i - 1] == args[i+1..next];
      if !stored {
        bad := Some(BadUse(Use(o, vals)));
        StoreConcat(old(Value()), used, ScanTokens(l, args[next..]).uses);
      }
    }

    /** readOptions: the cursor moves over a copy of the arguments, in which a
        bundle of short flags is split in place. */
    method ReadOptions(l: Level, argv: array<string>) returns (r: Result<seq<string>, Error>)
      modifies this
      ensures (r, Value()) == Read(l, argv[..], old(Value()))
    {
      hide ScanTokens, Store, IsOption, Append, Read, Rest;
      var args := new string[argv.Length](i requires 0 <= i < argv.Length reads argv => argv[i]);
      assert args[..] == argv[..];
      ghost var ts, before, uses := argv[..], Value(), [];
      var pos: seq<string> := [];
      var onlyPositionals := false;
      var i := 0;
      assert args[0..] == ts;
      StoreNone(before);
      RestOf(l, ts, false);
      while i < args.Length
        invariant 0 <= i <= args.Length
        invariant Store(before, uses) == (Value(), None)
        invariant ScanTokens(l, ts) == Append(Scan(uses, pos, Open), Rest(l, args[i..], onlyPositionals))
        invariant l.stopAtPositional ==> pos == []
        decreases args.Length - i, if i < args.Length then |args[i]| else 0
      {
        var tok := args[i];
        assert args[i..][0] == tok && args[i..][1..] == args[i+1..];
        RestOf(l, args[i..], onlyPositionals);
        ReadEnd(l, ts, before, uses, pos, Rest(l, args[i..], onlyPositionals), Value());
        if onlyPositionals || !IsOption(tok) {
          if l.stopAtPositional {
            return Success(args[i..]);
          }
          JoinWord(uses, pos, tok, Rest(l, args[i+1..], onlyPositionals));
          pos := pos + [tok];
          i := i + 1;
        } else if tok == "--" {
          onlyPositionals := true;
          i := i + 1;
        } else if IsHelp(tok) {
          return Failure(Help);
        } else {
          ghost var tail, now := args[i..], Value();
          var bad, next;
          ghost var used;
          bad, next, used := ReadOption(l, args, i);
          if bad.Some? {
            ReadOn(l, ts, before, uses, pos, tail, now);
            return Failure(bad.value);
          }
          StoreConcat(before, uses, used);
          JoinUses(uses, pos, used, ScanTokens(l, args[next..]));
          RestOf(l, args[next..], false);
          uses := uses + used;
          i := next;
        }
      }
      assert args[i..] == [];
      RestOf(l, [], onlyPositionals);
      ReadEnd(l, ts, before, uses, pos, Rest(l, [], onlyPositionals), Value());
      assert pos + [] == pos;
      return Success(pos);
    }
  }

  lemma JoinWord(uses: seq<Use>, pos: seq<string>, tok: string, q: Scan)
    ensures Append(Scan(uses, pos, Open), Append(Scan([], [tok], Open), q)) == Append(Scan(uses, pos + [tok], Open), q)
  {
  }

  lemma JoinUses(uses: seq<Use>, pos: seq<string>, used: seq<Use>, q: Scan)
    ensures Append(Scan(uses, pos, Open), Append(Scan(used, [], Open), q)) == Append(Scan(uses + used, pos, Open), q)
  {
  }

  /** When no use is left, the rest only says how the reading ends. */
  lemma ReadEnd(l: Level, ts: seq<string>, v: Values, uses: seq<Use>, pos: seq<string>, q: Scan, v': Values)
    requires ScanTokens(l, ts) == Append(Scan(uses, pos, Open), q) && Store(v, uses) == (v', None)
    ensures q.uses == [] ==>
              Read(l, ts, v) ==
              match q.ending
              case Bad(e) => (Failure(e), v')
              case Stopped(rest) => (Success(rest), v')
              case _ => (Success(pos + q.pos), v')
  {
    hide ScanTokens;
    assert uses + [] == uses;
  }

  lemma StoreNone(v: Values)
    ensures Store(v, []) == (v, None)
  {
  }

  lemma StoreFlag(v: Values, o: Opt)
    requires o.kind == KindBool
    ensures Store(v, [Use(o, [])]) == (v.(bools := v.bools[o.dest := o.value]), None)
  {
    assert [Use(o, [])][1..] == [];
  }

  /** ScanTokens, one option at a time. */
  lemma OptionHead(l: Level, ts: seq<string>)
    requires ts != [] && IsOption(ts[0]) && ts[0] != "--" && !IsHelp(ts[0])
    ensures
      var (name, inline) := SplitToken(ts[0]);
      match Lookup(l.opts, name)
      case Failure(e) => ScanTokens(l, ts) == Scan([], [], Bad(e))
      case Success(o) =>
        o.kind == KindBool ==>
          ScanTokens(l, ts) ==
            if inline.None? then Append(OneUse(o, []), ScanTokens(l, ts[1..]))
            else if IsLong(ts[0]) then Scan([], [], Bad(IgnoredArgument(Display(o), inline.value)))
            else Append(OneUse(o, []), ScanTokens(l, ["-" + inline.value] + ts[1..]))
    ensures !IsLong(ts[0]) && SplitToken(ts[0]).1.Some? ==> |"-" + SplitToken(ts[0]).1.value| < |ts[0]|
  {
  }

  lemma ValuedOption(l: Level, ts: seq<string>, o: Opt)
    requires ts != [] && IsOption(ts[0]) && ts[0] != "--" && !IsHelp(ts[0])
    requires Lookup(l.opts, SplitToken(ts[0]).0) == Success(o) && o.kind != KindBool
    ensures
      var inline := SplitToken(ts[0]).1;
      var n := if inline.Some? then 0 else Taken(o.kind, ts[1..]);
      var vals := if inline.Some? then [inline.value] else ts[1..][..n];
      ScanTokens(l, ts) ==
        if vals == [] then Scan([], [], Bad(NoValue(o))) else Append(OneUse(o, vals), ScanTokens(l, ts[1..][n..]))
  {
    var inline := SplitToken(ts[0]).1;
    if inline.None? {
      var n := Taken(o.kind, ts[1..]);
      assert ts[1..][n..] == ts[1+n..] && ts[1..][..n] == ts[1..1+n];
    } else {
      assert ts[1..][0..] == ts[1..];
    }
  }

  lemma RestOf(l: Level, ts: seq<string>, onlyPositionals: bool)
    ensures Rest(l, ts, false) == ScanTokens(l, ts) && Append(Scan([], [], Open), ScanTokens(l, ts)) == ScanTokens(l, ts)
    ensures ts == [] ==> Rest(l, ts, onlyPositionals) == Scan([], [], if onlyPositionals then Dashed else Open)
    ensures ts != [] && (onlyPositionals || !IsOption(ts[0])) ==>
              Rest(l, ts, onlyPositionals) ==
              if l.stopAtPositional then Scan([], [], Stopped(ts))
              else Append(Scan([], [ts[0]], Open), Rest(l, ts[1..], onlyPositionals))
    ensures ts != [] && !onlyPositionals && IsOption(ts[0]) && ts[0] == "--" ==>
              Rest(l, ts, false) == Rest(l, ts[1..], true)
    ensures ts != [] && !onlyPositionals && IsOption(ts[0]) && ts[0] != "--" && IsHelp(ts[0]) ==>
              Rest(l, ts, false) == Scan([], [], Bad(Help))
  {
  }

  /** An error in the rest of the tokens is the error of the whole. */
  lemma ReadOn(l: Level, ts: seq<string>, v: Values, uses: seq<Use>, pos: seq<string>, tail: seq<string>, v': Values)
    requires ScanTokens(l, ts) == Append(Scan(uses, pos, Open), ScanTokens(l, tail)) && Store(v, uses) == (v', None)
    requires Read(l, tail, v').0.Failure?
    ensures Read(l, ts, v) == Read(l, tail, v')
  {
    hide ScanTokens;
    StoreConcat(v, uses, ScanTokens(l, tail).uses);
  }

  /** What is left to scan, before or after a "--". */
  function Rest(l: Level, ts: seq<string>, onlyPositionals: bool): Scan {
    if !onlyPositionals then ScanTokens(l, ts)
    else if !l.stopAtPositional then Scan([], ts, Dashed)
    else if ts == [] then Scan([], [], Dashed)
    else Scan([], [], Stopped(ts))
  }

  method TakeValues(args: array<string>, i: nat, k: Kind, inline: Option<string>) returns (vals: seq<string>, next: nat)
    requires i <= args.Length
    ensures i <= next <= args.Length
    ensures inline.Some? ==> next == i && vals == [inline.value]
    ensures inline.None? ==> next == i + Taken(k, args[i..]) && vals == args[i..next]
  {
    next := i;
    if inline.Some? {
      vals := [inline.value];
    } else if k == KindList {
      while next < args.Length && !IsOption(args[next])
        invariant i <= next <= args.Length
        invariant Words(args[i..]) == next - i + Words(args[next..])
      {
        assert args[next..][1..] == args[next+1..];
        next := next + 1;
      }
      vals := args[i..next];
    } else if i < args.Length && !IsOption(args[i]) {
      next := i + 1;
      vals := args[i..next];
    } else {
      vals := args[i..next];
    }
  }

  /******* parse: the two levels *******/

  datatype Command = Command(name: string, options: seq<Opt>, positionals: seq<string>)

  datatype Invocation = Invocation(cmd: Command, pos: map<string, string>, v: Values)

  /** The last command of this name. */
  function FindCommand(commands: seq<Command>, name: string): Option<Command> {
    if commands == [] then None
    else if commands[|commands|-1].name == name then Some(commands[|commands|-1])
    else FindCommand(commands[..|commands|-1], name)
  }

  function NamedPositionals(dests: seq<string>, pos: seq<string>): map<string, string>
    requires |dests| == |pos|
  {
    if dests == [] then map[]
    else NamedPositionals(dests[..|dests|-1], pos[..|pos|-1])[dests[|dests|-1] := pos[|pos|-1]]
  }

  function FitPositionals(cmd: Command, pos: seq<string>, v: Values): Result<Invocation, Error> {
    if |pos| < |cmd.positionals| then Failure(MissingPositionals(cmd.positionals[|pos|..]))
    else if |pos| > |cmd.positionals| then Failure(ExtraPositionals(pos[|cmd.positionals|..]))
    else Success(Invocation(cmd, NamedPositionals(cmd.positionals, pos), v))
  }

  function Parse(globals: seq<Opt>, commands: seq<Command>, ts: seq<string>): Result<Invocation, Error> {
    match Read(Level(globals, true), ts, NO_VALUES)
    case (Failure(e), _) => Failure(e)
    case (Success(rest), v) =>
      if rest == [] then Failure(NoCommand)
      else
        match FindCommand(commands, rest[0])
        case None => Failure(UnknownCommand(rest[0]))
        case Some(cmd) =>
          match Read(Level(cmd.options, false), rest[1..], v)
          case (Failure(e), _) => Failure(e)
          case (Success(pos), v') => FitPositionals(cmd, pos, v')
  }

  method ParseLine(globals: seq<Opt>, commands: seq<Command>, argv: array<string>) returns (r: Result<Invocation, Error>)
    ensures r == Parse(globals, commands, argv[..])
  {
    hide Read, FindCommand, NamedPositionals;
    var v := new ValueMaps();
    var first := v.ReadOptions(Level(globals, true), argv);
    if first.Failure? {
      return Failure(first.error);
    }
    var rest := first.value;
    if rest == [] {
      return Failure(NoCommand);
    }
    var found := PickCommand(commands, rest[0]);
    if found.None? {
      return Failure(UnknownCommand(rest[0]));
    }
    var cmd := found.value;
    var tail := new string[|rest| - 1](i requires 0 <= i < |rest| - 1 => rest[i + 1]);
    assert tail[..] == rest[1..];
    var second := v.ReadOptions(Level(cmd.options, false), tail);
    if second.Failure? {
      return Failure(second.error);
    }
    r := NamePositionals(cmd, second.value, v.Value());
  }

  method PickCommand(commands: seq<Command>, name: string) returns (r: Option<Command>)
    ensures r == FindCommand(commands, name)
  {
    r := None;
    for i := 0 to |commands|
      invariant r == FindCommand(commands[..i], name)
    {
      assert commands[..i+1][..i] == commands[..i];
      if commands[i].name == name {
        r := Some(commands[i]);
      }
    }
    assert commands[..|commands|] == commands;
  }

  method NamePositionals(cmd: Command, pos: seq<string>, v: Values) returns (r: Result<Invocation, Error>)
    ensures r == FitPositionals(cmd, pos, v)
  {
    var dests := cmd.positionals;
    if |pos| < |dests| {
      return Failure(MissingPositionals(dests[|pos|..]));
    }
    if |pos| > |dests| {
      return Failure(ExtraPositionals(pos[|dests|..]));
    }
    var named: map<string, string> := map[];
    for i := 0 to |dests|
      invariant named == NamedPositionals(dests[..i], pos[..i])
    {
      assert dests[..i+1][..i] == dests[..i] && pos[..i+1][..i] == pos[..i];
      named := named[dests[i] := pos[i]];
    }
    assert dests[..|dests|] == dests && pos[..|pos|] == pos;
    return Success(Invocation(cmd, named, v));
  }
}
