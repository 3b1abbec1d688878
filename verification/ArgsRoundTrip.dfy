/** The command line of an assignment of values, and its way back. */
module ArgsRoundTrip {
  import opened Wrappers
  import opened Decimal
  import opened Strings
  import opened Args
  import opened ArgsLaws

  /******* A line of uses *******/

  /** A use, and how it is written: with a long name, and with a single value in
      a token of its own or attached. */
  datatype Spelled = Spelled(name: string, use: Use, apart: bool)

  /** The use is one that the option takes, and the name is the option's alone. */
  predicate Writable(opts: seq<Opt>, s: Spelled) {
    && IsLong(s.name) && |s.name| > 2 && '=' !in s.name && s.name != "--help"
    && Lookup(opts, s.name) == Success(s.use.opt)
    && match s.use.opt.kind
       case KindBool => s.use.vals == []
       case KindList => s.use.vals != [] && forall i :: 0 <= i < |s.use.vals| ==> !IsOption(s.use.vals[i])
       case _ => |s.use.vals| == 1
  }

  /** --flag, --name value, --name=value, --list word word.  A value that looks
      like an option can only be attached. */
  function Tokens(s: Spelled): seq<string> {
    match s.use.opt.kind
    case KindBool => [s.name]
    case KindList => [s.name] + s.use.vals
    case _ =>
      if s.use.vals == [] then [s.name]
      else if s.apart && !IsOption(s.use.vals[0]) then [s.name, s.use.vals[0]]
      else [s.name + "=" + s.use.vals[0]]
  }

  function Line(ss: seq<Spelled>): seq<string> {
    if ss == [] then [] else Tokens(ss[0]) + Line(ss[1..])
  }

  function Uses(ss: seq<Spelled>): seq<Use> {
    if ss == [] then [] else [ss[0].use] + Uses(ss[1..])
  }

  lemma {:induction false} WordsOf(ws: seq<string>, tail: seq<string>)
    requires forall i :: 0 <= i < |ws| ==> !IsOption(ws[i])
    requires tail == [] || IsOption(tail[0])
    ensures Words(ws + tail) == |ws|
    decreases |ws|
  {
    hide IsOption;
    if ws == [] {
      assert ws + tail == tail;
    } else {
      assert (ws + tail)[1..] == ws[1..] + tail;
      WordsOf(ws[1..], tail);
    }
  }

  lemma ScanOne(l: Level, s: Spelled, tail: seq<string>)
    requires Writable(l.opts, s) && (tail == [] || IsOption(tail[0]))
    ensures Tokens(s) != [] && IsOption(Tokens(s)[0])
    ensures ScanTokens(l, Tokens(s) + tail) == Append(OneUse(s.use.opt, s.use.vals), ScanTokens(l, tail))
  {
    hide ScanTokens, IsOption, Lookup;
    match s.use.opt.kind
    case KindBool =>
      AttachedSplits(s.name, None);
      OptionHead(l, [s.name] + tail);
    case KindList =>
      AttachedSplits(s.name, None);
      ScanWords(l, s.name, s.use.opt, s.use.vals, tail);
    case _ =>
      ScanSingle(l, s, tail);
  }

  lemma ScanSingle(l: Level, s: Spelled, tail: seq<string>)
    requires Writable(l.opts, s) && IsSingle(s.use.opt.kind)
    ensures Tokens(s) != [] && IsOption(Tokens(s)[0])
    ensures ScanTokens(l, Tokens(s) + tail) == Append(OneUse(s.use.opt, s.use.vals), ScanTokens(l, tail))
  {
    hide ScanTokens, IsOption, Lookup, SplitToken;
    var w := s.use.vals[0];
    var tok := s.name + "=" + w;
    AttachedSplits(s.name, None);
    AttachedSplits(s.name, Some(w));
    assert s.use.vals == [w];
    if s.apart && !IsOption(w) {
      SameScanApart(l, s.name, tok, w, tail);
    } else {
      ValuedOption(l, [tok] + tail, s.use.opt);
      assert ([tok] + tail)[1..][0..] == tail;
    }
  }

  lemma ScanWords(l: Level, name: string, o: Opt, ws: seq<string>, tail: seq<string>)
    requires IsOption(name) && name != "--" && !IsHelp(name) && SplitToken(name) == (name, None)
    requires Lookup(l.opts, name) == Success(o) && o.kind == KindList
    requires ws != [] && forall i :: 0 <= i < |ws| ==> !IsOption(ws[i])
    requires tail == [] || IsOption(tail[0])
    ensures ScanTokens(l, [name] + ws + tail) == Append(OneUse(o, ws), ScanTokens(l, tail))
  {
    hide ScanTokens, IsOption, Lookup, SplitToken, IsHelp, Append, OneUse;
    var ts := [name] + ws + tail;
    assert ts[1..] == ws + tail;
    ValuedOption(l, ts, o);
    WordsOf(ws, tail);
    assert ts[1..][..|ws|] == ws && ts[1..][|ws|..] == tail;
  }

  lemma JoinNothing(q: Scan)
    ensures Append(Scan([], [], Open), q) == q
  {
  }

  lemma {:induction false} ScanLine(l: Level, ss: seq<Spelled>, tail: seq<string>)
    requires forall i :: 0 <= i < |ss| ==> Writable(l.opts, ss[i])
    requires tail == [] || IsOption(tail[0])
    ensures ScanTokens(l, Line(ss) + tail) == Append(Scan(Uses(ss), [], Open), ScanTokens(l, tail))
    ensures Line(ss) + tail == [] || IsOption((Line(ss) + tail)[0])
    decreases |ss|
  {
    hide ScanTokens, IsOption, Writable, Append, OneUse, Tokens;
    JoinNothing(ScanTokens(l, tail));
    if ss == [] {
      assert Line(ss) + tail == tail;
    } else {
      ScanLine(l, ss[1..], tail);
      ScanOne(l, ss[0], Line(ss[1..]) + tail);
      assert Line(ss) + tail == Tokens(ss[0]) + (Line(ss[1..]) + tail);
      JoinOne(ss[0].use, Uses(ss[1..]), ScanTokens(l, tail));
    }
  }

  lemma JoinOne(u: Use, us: seq<Use>, q: Scan)
    ensures Append(OneUse(u.opt, u.vals), Append(Scan(us, [], Open), q)) == Append(Scan([u] + us, [], Open), q)
  {
  }

  /** A command's line is read back as exactly its uses and positionals,
      whatever the positionals look like. */
  lemma {:induction false} LineIsReadBack(l: Level, ss: seq<Spelled>, pos: seq<string>)
    requires !l.stopAtPositional && forall i :: 0 <= i < |ss| ==> Writable(l.opts, ss[i])
    ensures ScanTokens(l, Line(ss) + (["--"] + pos)) == Scan(Uses(ss), pos, Dashed)
  {
    LongIsOption("--");
    ScanLine(l, ss, ["--"] + pos);
  }

  lemma {:induction false} GlobalsAreReadBack(l: Level, ss: seq<Spelled>, rest: seq<string>)
    requires l.stopAtPositional && rest != [] && forall i :: 0 <= i < |ss| ==> Writable(l.opts, ss[i])
    ensures ScanTokens(l, Line(ss) + (["--"] + rest)) == Scan(Uses(ss), [], Stopped(rest))
  {
    LongIsOption("--");
    ScanLine(l, ss, ["--"] + rest);
  }

  function CommandLine(gs: seq<Spelled>, cmd: Command, cs: seq<Spelled>, pos: seq<string>): seq<string> {
    Line(gs) + (["--"] + ([cmd.name] + (Line(cs) + (["--"] + pos))))
  }

  /** Both levels: the invocation that the line was written for comes back. */
  lemma {:induction false} CommandLineIsReadBack(globals: seq<Opt>, commands: seq<Command>, gs: seq<Spelled>, cmd: Command, cs: seq<Spelled>, pos: seq<string>)
    requires forall i :: 0 <= i < |gs| ==> Writable(globals, gs[i])
    requires forall i :: 0 <= i < |cs| ==> Writable(cmd.options, cs[i])
    requires FindCommand(commands, cmd.name) == Some(cmd) && |pos| == |cmd.positionals|
    requires Store(NO_VALUES, Uses(gs) + Uses(cs)).1.None?
    ensures Parse(globals, commands, CommandLine(gs, cmd, cs, pos)) ==
            Success(Invocation(cmd, NamedPositionals(cmd.positionals, pos), Store(NO_VALUES, Uses(gs) + Uses(cs)).0))
  {
    hide ScanTokens, Store, Writable, FindCommand, NamedPositionals;
    var rest := [cmd.name] + (Line(cs) + (["--"] + pos));
    GlobalsAreReadBack(Level(globals, true), gs, rest);
    LineIsReadBack(Level(cmd.options, false), cs, pos);
    assert rest[1..] == Line(cs) + (["--"] + pos);
    StoreConcat(NO_VALUES, Uses(gs), Uses(cs));
  }

  /******* Assignments *******/

  /** The value that a line gives an option. */
  datatype Arg = Flag | Text(s: string) | Number(n: int) | WordList(ws: seq<string>) | Each(vs: seq<string>)

  predicate Fits(o: Opt, a: Arg) {
    match o.kind
    case KindBool => a.Flag?
    case KindString => a.Text?
    case KindInt => a.Number? && MIN_INT <= a.n <= MAX_INT
    case KindList => a.WordList? && a.ws != [] && forall i :: 0 <= i < |a.ws| ==> !IsOption(a.ws[i])
    case KindAppend => a.Each? && a.vs != []
  }

  function EachUse(o: Opt, vs: seq<string>): seq<Use> {
    if vs == [] then [] else EachUse(o, vs[..|vs|-1]) + [Use(o, [vs[|vs|-1]])]
  }

  function ArgUses(o: Opt, a: Arg): seq<Use> {
    match a
    case Flag => [Use(o, [])]
    case Text(s) => [Use(o, [s])]
    case Number(n) => [Use(o, [Itoa(n)])]
    case WordList(ws) => [Use(o, ws)]
    case Each(vs) => EachUse(o, vs)
  }

  /** The uses of an assignment: in table order, an option without a value is left out. */
  function AllUses(opts: seq<Opt>, asg: seq<Option<Arg>>): seq<Use>
    requires |opts| == |asg|
  {
    if opts == [] then []
    else (if asg[0].Some? then ArgUses(opts[0], asg[0].value) else []) + AllUses(opts[1..], asg[1..])
  }

  /** What the values say about an option. */
  function ArgOf(o: Opt, v: Values): Option<Arg> {
    match o.kind
    case KindBool => if o.dest in v.bools && v.bools[o.dest] == o.value then Some(Flag) else None
    case KindString => if o.dest in v.strings then Some(Text(v.strings[o.dest])) else None
    case KindInt => if o.dest in v.ints then Some(Number(v.ints[o.dest])) else None
    case KindList => if o.dest in v.lists then Some(WordList(v.lists[o.dest])) else None
    case KindAppend => if o.dest in v.lists then Some(Each(v.lists[o.dest])) else None
  }

  /** v and v' agree on a dest. */
  predicate Agree(v: Values, v': Values, d: string) {
    && (d in v.bools <==> d in v'.bools) && (d in v.bools ==> v.bools[d] == v'.bools[d])
    && (d in v.strings <==> d in v'.strings) && (d in v.strings ==> v.strings[d] == v'.strings[d])
    && (d in v.ints <==> d in v'.ints) && (d in v.ints ==> v.ints[d] == v'.ints[d])
    && (d in v.lists <==> d in v'.lists) && (d in v.lists ==> v.lists[d] == v'.lists[d])
  }

  predicate Absent(v: Values, d: string) {
    d !in v.bools && d !in v.strings && d !in v.ints && d !in v.lists
  }

  lemma {:induction false} StoreEach(v: Values, o: Opt, vs: seq<string>)
    requires o.kind == KindAppend && o.dest !in v.lists
    ensures Store(v, EachUse(o, vs)) == (if vs == [] then v else v.(lists := v.lists[o.dest := vs]), None)
    decreases |vs|
  {
    if vs != [] {
      var u := Use(o, [vs[|vs|-1]]);
      StoreEach(v, o, vs[..|vs|-1]);
      StoreConcat(v, EachUse(o, vs[..|vs|-1]), [u]);
      assert [u][1..] == [];
      assert vs[..|vs|-1] + [vs[|vs|-1]] == vs;
      assert v.lists[o.dest := vs[..|vs|-1]][o.dest := vs] == v.lists[o.dest := vs];
    }
  }

  /** Storing one option's value makes the values say it, and nothing else. */
  lemma StoreArg(v: Values, o: Opt, a: Arg)
    requires Fits(o, a) && Absent(v, o.dest)
    ensures Store(v, ArgUses(o, a)).1.None?
    ensures ArgOf(o, Store(v, ArgUses(o, a)).0) == Some(a)
    ensures forall d :: d != o.dest ==> Agree(v, Store(v, ArgUses(o, a)).0, d)
  {
    if o.kind == KindAppend {
      StoreEach(v, o, a.vs);
    } else {
      assert ArgUses(o, a)[1..] == [];
      if o.kind == KindInt {
        AtoiItoa(a.n);
      }
    }
  }

  /** Two options may share a dest only if they are flags that store different
      values there, and then the assignment gives one of them at most. */
  predicate OneToADest(opts: seq<Opt>, asg: seq<Option<Arg>>)
    requires |opts| == |asg|
  {
    forall i, j :: 0 <= i < j < |opts| && opts[i].dest == opts[j].dest ==>
      && opts[i].kind == opts[j].kind == KindBool && opts[i].value != opts[j].value
      && (asg[i].None? || asg[j].None?)
  }

  /** v says of each option of the assignment what is still to be stored: nothing
      at the dest of one that is given, and nothing of one that is not. */
  predicate Unset(v: Values, opts: seq<Opt>, asg: seq<Option<Arg>>)
    requires |opts| == |asg|
  {
    forall i :: 0 <= i < |opts| ==> if asg[i].Some? then Absent(v, opts[i].dest) else ArgOf(opts[i], v).None?
  }

  predicate AllFit(opts: seq<Opt>, asg: seq<Option<Arg>>)
    requires |opts| == |asg|
  {
    forall i :: 0 <= i < |opts| && asg[i].Some? ==> Fits(opts[i], asg[i].value)
  }

  predicate GivenAt(opts: seq<Opt>, asg: seq<Option<Arg>>, d: string)
    requires |opts| == |asg|
  {
    exists i :: 0 <= i < |opts| && asg[i].Some? && opts[i].dest == d
  }

  lemma TailOf(opts: seq<Opt>, asg: seq<Option<Arg>>)
    requires |opts| == |asg| && opts != [] && OneToADest(opts, asg) && AllFit(opts, asg)
    ensures OneToADest(opts[1..], asg[1..]) && AllFit(opts[1..], asg[1..])
    ensures forall d :: GivenAt(opts[1..], asg[1..], d) ==> GivenAt(opts, asg, d)
    ensures asg[0].Some? ==> !GivenAt(opts[1..], asg[1..], opts[0].dest)
  {
    assert forall i :: 0 <= i < |opts[1..]| ==> opts[1..][i] == opts[i+1] && asg[1..][i] == asg[i+1];
  }

  /** Storing the first option's value leaves the others as they were to be stored. */
  lemma StillUnset(v: Values, v1: Values, opts: seq<Opt>, asg: seq<Option<Arg>>)
    requires |opts| == |asg| && opts != [] && OneToADest(opts, asg) && Unset(v, opts, asg)
    requires forall d :: d != opts[0].dest || asg[0].None? ==> Agree(v, v1, d)
    requires asg[0].Some? ==> ArgOf(opts[0], v1) == asg[0]
    requires asg[0].Some? && opts[0].kind == KindBool ==> asg[0] == Some(Flag)
    ensures Unset(v1, opts[1..], asg[1..])
  {
    forall i | 0 <= i < |opts[1..]|
      ensures if asg[1..][i].Some? then Absent(v1, opts[1..][i].dest) else ArgOf(opts[1..][i], v1).None?
    {
      var o := opts[i+1];
      assert opts[1..][i] == o && asg[1..][i] == asg[i+1];
      if o.dest != opts[0].dest || asg[0].None? {
        assert Agree(v, v1, o.dest);
      }
    }
  }

  /** The first option reads the same when the others are stored. */
  lemma FirstStays(v1: Values, v2: Values, opts: seq<Opt>, asg: seq<Option<Arg>>)
    requires |opts| == |asg| && opts != [] && OneToADest(opts, asg) && AllFit(opts, asg)
    requires ArgOf(opts[0], v1) == asg[0]
    requires forall d :: !GivenAt(opts[1..], asg[1..], d) ==> Agree(v1, v2, d)
    requires forall i :: 0 <= i < |opts[1..]| ==> ArgOf(opts[1..][i], v2) == asg[1..][i]
    ensures ArgOf(opts[0], v2) == asg[0]
  {
    if GivenAt(opts[1..], asg[1..], opts[0].dest) {
      var i :| 0 <= i < |opts[1..]| && asg[1..][i].Some? && opts[1..][i].dest == opts[0].dest;
      assert opts[i+1] == opts[1..][i] && asg[i+1] == asg[1..][i];
      assert opts[0].kind == opts[i+1].kind == KindBool && opts[0].value != opts[i+1].value && asg[0].None?;
    }
  }

  /** Storing an assignment's uses gives back the assignment, and changes no dest
      that it does not give. */
  lemma {:induction false} StoreAll(v: Values, opts: seq<Opt>, asg: seq<Option<Arg>>)
    requires |opts| == |asg| && OneToADest(opts, asg) && AllFit(opts, asg) && Unset(v, opts, asg)
    ensures Store(v, AllUses(opts, asg)).1.None?
    ensures forall i :: 0 <= i < |opts| ==> ArgOf(opts[i], Store(v, AllUses(opts, asg)).0) == asg[i]
    ensures forall d :: !GivenAt(opts, asg, d) ==> Agree(v, Store(v, AllUses(opts, asg)).0, d)
    decreases |opts|
  {
    StoreNone(v);
    if opts != [] {
      var us := if asg[0].Some? then ArgUses(opts[0], asg[0].value) else [];
      StoreFirst(v, opts, asg);
      hide Fits, Store, ArgUses, ArgOf, Agree, OneToADest, AllFit, Unset, GivenAt;
      var v1 := Store(v, us).0;
      StoreConcat(v, us, AllUses(opts[1..], asg[1..]));
      TailOf(opts, asg);
      StillUnset(v, v1, opts, asg);
      StoreAll(v1, opts[1..], asg[1..]);
      var v2 := Store(v1, AllUses(opts[1..], asg[1..])).0;
      FirstStays(v1, v2, opts, asg);
      forall i | 0 <= i < |opts| ensures ArgOf(opts[i], v2) == asg[i] {
        if i > 0 {
          assert opts[i] == opts[1..][i-1] && asg[i] == asg[1..][i-1];
        }
      }
      forall d | !GivenAt(opts, asg, d) ensures Agree(v, v2, d) {
        NotGiven(opts, asg, d);
        AgreeTransitive(v, v1, v2, d);
      }
    }
  }

  /** The first option of an assignment. */
  lemma StoreFirst(v: Values, opts: seq<Opt>, asg: seq<Option<Arg>>)
    requires |opts| == |asg| && opts != [] && AllFit(opts, asg) && Unset(v, opts, asg)
    ensures
      var us := if asg[0].Some? then ArgUses(opts[0], asg[0].value) else [];
      var v1 := Store(v, us).0;
      && Store(v, us).1.None? && ArgOf(opts[0], v1) == asg[0]
      && (forall d :: d != opts[0].dest || asg[0].None? ==> Agree(v, v1, d))
    ensures asg[0].Some? && opts[0].kind == KindBool ==> asg[0] == Some(Flag)
  {
    StoreNone(v);
    if asg[0].Some? {
      assert Absent(v, opts[0].dest) && Fits(opts[0], asg[0].value);
      hide Store, ArgUses, ArgOf, Agree;
      StoreArg(v, opts[0], asg[0].value);
    }
  }

  lemma NotGiven(opts: seq<Opt>, asg: seq<Option<Arg>>, d: string)
    requires |opts| == |asg| && opts != [] && !GivenAt(opts, asg, d)
    ensures opts[0].dest != d || asg[0].None?
  {
  }

  lemma AgreeTransitive(v: Values, v1: Values, v2: Values, d: string)
    requires Agree(v, v1, d) && Agree(v1, v2, d)
    ensures Agree(v, v2, d)
  {
  }

  lemma NothingUnset(opts: seq<Opt>, asg: seq<Option<Arg>>)
    requires |opts| == |asg|
    ensures Unset(NO_VALUES, opts, asg)
  {
  }

  /******* From the assignment to the line *******/

  /** The first long name of an option. */
  function LongName(o: Opt): string {
    var e := Extension(o.names, "--");
    if e.Some? then e.value else ""
  }

  predicate PlainName(n: string) {
    '=' !in n && n != "--help" && n != "--"
  }

  /** Every option has a long name that names it alone, and no other use. */
  predicate PlainTable(opts: seq<Opt>) {
    && (forall i, n :: 0 <= i < |opts| && n in opts[i].names ==> PlainName(n))
    && (forall i :: 0 <= i < |opts| ==> LongName(opts[i]) != "")
    && (forall i, j, n :: 0 <= i < j < |opts| && n in opts[i].names ==> n !in opts[j].names)
  }

  lemma {:induction false} FirstIsOnly(opts: seq<Opt>, i: nat, n: string)
    requires i < |opts| && n in opts[i].names && forall j :: 0 <= j < i ==> n !in opts[j].names
    ensures FirstNamed(opts, n) == Some(opts[i])
    decreases |opts|
  {
    if i > 0 {
      assert opts[1..][i-1] == opts[i];
      assert forall j :: 0 <= j < i - 1 ==> opts[1..][j] == opts[j+1];
      FirstIsOnly(opts[1..], i - 1, n);
    }
  }

  lemma LongNameWritable(opts: seq<Opt>, i: nat, u: Use, apart: bool)
    requires PlainTable(opts) && i < |opts| && u.opt == opts[i]
    requires match u.opt.kind
             case KindBool => u.vals == []
             case KindList => u.vals != [] && forall k :: 0 <= k < |u.vals| ==> !IsOption(u.vals[k])
             case _ => |u.vals| == 1
    ensures Writable(opts, Spelled(LongName(opts[i]), u, apart))
  {
    hide IsOption;
    var n := LongName(opts[i]);
    ExtensionIff(opts[i].names, "--");
    ExtensionLong(opts[i].names, "--");
    assert n in opts[i].names && PlainName(n);
    assert n[..2] == "--" && (|n| == 2 ==> n == "--");
    NoEarlierName(opts, i, n);
    FirstIsOnly(opts, i, n);
  }

  lemma NoEarlierName(opts: seq<Opt>, i: nat, n: string)
    requires PlainTable(opts) && i < |opts| && n in opts[i].names
    ensures forall j :: 0 <= j < i ==> n !in opts[j].names
  {
  }

  lemma ExtensionLong(names: seq<string>, name: string)
    ensures Extension(names, name).Some? ==> IsLong(Extension(names, name).value)
  {
  }

  /** Each use with its option's long name.  apart: which of the uses have their
      value in a token of its own; it may end early. */
  function SpellAll(us: seq<Use>, apart: seq<bool>): seq<Spelled> {
    if us == [] then []
    else [Spelled(LongName(us[0].opt), us[0], Chosen(apart, 0))] + SpellAll(us[1..], if apart == [] then [] else apart[1..])
  }

  predicate Chosen(apart: seq<bool>, k: nat) {
    k < |apart| && apart[k]
  }

  lemma {:induction false} SpellAllUses(us: seq<Use>, apart: seq<bool>)
    ensures Uses(SpellAll(us, apart)) == us && |SpellAll(us, apart)| == |us|
    ensures forall k :: 0 <= k < |us| ==> SpellAll(us, apart)[k] == Spelled(LongName(us[k].opt), us[k], Chosen(apart, k))
    decreases |us|
  {
    if us != [] {
      SpellAllUses(us[1..], if apart == [] then [] else apart[1..]);
    }
  }

  /** A use of one of the table's options, with values of its kind. */
  predicate ProperUse(opts: seq<Opt>, u: Use) {
    && (exists i :: 0 <= i < |opts| && opts[i] == u.opt)
    && match u.opt.kind
       case KindBool => u.vals == []
       case KindList => u.vals != [] && forall k :: 0 <= k < |u.vals| ==> !IsOption(u.vals[k])
       case _ => |u.vals| == 1
  }

  lemma {:induction false} EachProper(opts: seq<Opt>, o: Opt, vs: seq<string>)
    requires o in opts && o.kind == KindAppend
    ensures forall u :: u in EachUse(o, vs) ==> ProperUse(opts, u)
    decreases |vs|
  {
    if vs != [] {
      EachProper(opts, o, vs[..|vs|-1]);
    }
  }

  lemma {:induction false} UsesProper(all: seq<Opt>, opts: seq<Opt>, asg: seq<Option<Arg>>)
    requires |opts| == |asg| && forall o :: o in opts ==> o in all
    requires forall i :: 0 <= i < |opts| && asg[i].Some? ==> Fits(opts[i], asg[i].value)
    ensures forall u :: u in AllUses(opts, asg) ==> ProperUse(all, u)
    decreases |opts|
  {
    hide IsOption;
    if opts != [] {
      assert forall i :: 0 <= i < |opts[1..]| ==> opts[1..][i] == opts[i+1] && asg[1..][i] == asg[i+1];
      UsesProper(all, opts[1..], asg[1..]);
      if asg[0].Some? {
        ArgProper(all, opts[0], asg[0].value);
      }
    }
  }

  lemma ArgProper(all: seq<Opt>, o: Opt, a: Arg)
    requires o in all && Fits(o, a)
    ensures forall u :: u in ArgUses(o, a) ==> ProperUse(all, u)
  {
    hide IsOption;
    if a.Each? {
      EachProper(all, o, a.vs);
    }
  }

  function AssignmentLine(opts: seq<Opt>, asg: seq<Option<Arg>>, apart: seq<bool>): seq<Spelled>
    requires |opts| == |asg|
  {
    SpellAll(AllUses(opts, asg), apart)
  }

  lemma AssignmentWritable(opts: seq<Opt>, asg: seq<Option<Arg>>, apart: seq<bool>)
    requires PlainTable(opts) && |opts| == |asg|
    requires forall i :: 0 <= i < |opts| && asg[i].Some? ==> Fits(opts[i], asg[i].value)
    ensures Uses(AssignmentLine(opts, asg, apart)) == AllUses(opts, asg)
    ensures forall k :: 0 <= k < |AssignmentLine(opts, asg, apart)| ==> Writable(opts, AssignmentLine(opts, asg, apart)[k])
  {
    hide IsOption, Writable, PlainTable, Fits;
    var us := AllUses(opts, asg);
    UsesProper(opts, opts, asg);
    SpellAllUses(us, apart);
    forall k | 0 <= k < |us| ensures Writable(opts, SpellAll(us, apart)[k]) {
      assert us[k] in us && ProperUse(opts, us[k]);
      var i :| 0 <= i < |opts| && opts[i] == us[k].opt;
      LongNameWritable(opts, i, us[k], Chosen(apart, k));
    }
  }

  lemma {:induction false} AllUsesConcat(opts: seq<Opt>, asg: seq<Option<Arg>>, opts': seq<Opt>, asg': seq<Option<Arg>>)
    requires |opts| == |asg| && |opts'| == |asg'|
    ensures AllUses(opts + opts', asg + asg') == AllUses(opts, asg) + AllUses(opts', asg')
    decreases |opts|
  {
    hide ArgUses;
    if opts == [] {
      assert opts + opts' == opts' && asg + asg' == asg';
    } else {
      AllUsesConcat(opts[1..], asg[1..], opts', asg');
      assert (opts + opts')[1..] == opts[1..] + opts' && (asg + asg')[1..] == asg[1..] + asg';
    }
  }

  /** Every assignment to the global options and to a command's, with every list
      of positionals, is parsed back to exactly itself, whichever of the single values
      have a token of their own. */
  lemma {:induction false} AssignmentIsReadBack(globals: seq<Opt>, commands: seq<Command>, ga: seq<Option<Arg>>,
                             cmd: Command, ca: seq<Option<Arg>>, pos: seq<string>, gApart: seq<bool>, cApart: seq<bool>)
    requires PlainTable(globals) && PlainTable(cmd.options)
    requires |globals| == |ga| && |cmd.options| == |ca| && OneToADest(globals + cmd.options, ga + ca)
    requires AllFit(globals, ga) && AllFit(cmd.options, ca)
    requires FindCommand(commands, cmd.name) == Some(cmd) && |pos| == |cmd.positionals|
    ensures
      var r := Parse(globals, commands, CommandLine(AssignmentLine(globals, ga, gApart), cmd, AssignmentLine(cmd.options, ca, cApart), pos));
      && r.Success? && r.value.cmd == cmd && r.value.pos == NamedPositionals(cmd.positionals, pos)
      && (forall i :: 0 <= i < |globals| ==> ArgOf(globals[i], r.value.v) == ga[i])
      && (forall i :: 0 <= i < |cmd.options| ==> ArgOf(cmd.options[i], r.value.v) == ca[i])
  {
    hide Parse, Writable, Fits, FindCommand, NamedPositionals, Store, ArgOf, PlainTable, OneToADest, Unset;
    hide AllUses, AssignmentLine, CommandLine, Uses, Agree, GivenAt;
    var opts, asg := globals + cmd.options, ga + ca;
    NothingUnset(opts, asg);
    AssignmentWritable(globals, ga, gApart);
    AssignmentWritable(cmd.options, ca, cApart);
    AllUsesConcat(globals, ga, cmd.options, ca);
    StoreAll(NO_VALUES, opts, asg);
    CommandLineIsReadBack(globals, commands, AssignmentLine(globals, ga, gApart), cmd, AssignmentLine(cmd.options, ca, cApart), pos);
    assert forall i :: 0 <= i < |globals| ==> opts[i] == globals[i] && asg[i] == ga[i];
    assert forall i :: 0 <= i < |cmd.options| ==> opts[|globals| + i] == cmd.options[i] && asg[|globals| + i] == ca[i];
  }

  /** A flag and its opposite, as --node-ous and --no-node-ous of generate: the
      dest comes back true, false or absent as the one, the other or none was given. */
  lemma {:induction false} FlagPairIsReadBack(globals: seq<Opt>, commands: seq<Command>, ga: seq<Option<Arg>>,
                             cmd: Command, ca: seq<Option<Arg>>, pos: seq<string>, gApart: seq<bool>, cApart: seq<bool>, i: nat, j: nat)
    requires PlainTable(globals) && PlainTable(cmd.options)
    requires |globals| == |ga| && |cmd.options| == |ca| && OneToADest(globals + cmd.options, ga + ca)
    requires AllFit(globals, ga) && AllFit(cmd.options, ca)
    requires FindCommand(commands, cmd.name) == Some(cmd) && |pos| == |cmd.positionals|
    requires i < |ca| && j < |ca| && cmd.options[i].dest == cmd.options[j].dest
    requires cmd.options[i].kind == cmd.options[j].kind == KindBool && cmd.options[i].value && !cmd.options[j].value
    ensures
      var r := Parse(globals, commands, CommandLine(AssignmentLine(globals, ga, gApart), cmd, AssignmentLine(cmd.options, ca, cApart), pos));
      var d := cmd.options[i].dest;
      && r.Success?
      && (d in r.value.v.bools <==> ca[i].Some? || ca[j].Some?)
      && (d in r.value.v.bools ==> r.value.v.bools[d] == ca[i].Some?)
  {
    hide Parse, CommandLine, AssignmentLine, FindCommand, PlainTable, NamedPositionals, OneToADest;
    AssignmentIsReadBack(globals, commands, ga, cmd, ca, pos, gApart, cApart);
    var v := Parse(globals, commands, CommandLine(AssignmentLine(globals, ga, gApart), cmd, AssignmentLine(cmd.options, ca, cApart), pos)).value.v;
    assert ArgOf(cmd.options[i], v) == ca[i] && ArgOf(cmd.options[j], v) == ca[j];
  }

  /** The flags of generate that come in pairs. */
  const GENERATE_FLAGS := [
    Opt("enable_node_ous", ["--node-ous"], KindBool, true), Opt("enable_node_ous", ["--no-node-ous"], KindBool, false),
    Opt("template", ["--template"], KindBool, true), Opt("template", ["--no-template"], KindBool, false)]

  /** They are a table of the kind that is read back: every assignment that does
      not give a flag and its opposite. */
  lemma GenerateFlags(asg: seq<Option<Arg>>)
    requires |asg| == 4
    ensures PlainTable(GENERATE_FLAGS)
    ensures OneToADest(GENERATE_FLAGS, asg) <==> (asg[0].None? || asg[1].None?) && (asg[2].None? || asg[3].None?)
  {
    hide PlainTable;
    FlagNames();
    FlagDests();
  }

  lemma FlagDests()
    ensures forall i :: 0 <= i < |GENERATE_FLAGS| ==> GENERATE_FLAGS[i].kind == KindBool && GENERATE_FLAGS[i].value == (i % 2 == 0)
    ensures forall i, j :: 0 <= i < j < |GENERATE_FLAGS| ==> (GENERATE_FLAGS[i].dest == GENERATE_FLAGS[j].dest <==> i / 2 == j / 2)
  {
    var fs := GENERATE_FLAGS;
    assert fs[0].dest == fs[1].dest && fs[2].dest == fs[3].dest && |fs[0].dest| != |fs[2].dest|;
  }

  lemma FlagNames()
    ensures PlainTable(GENERATE_FLAGS)
  {
    var fs := GENERATE_FLAGS;
    PlainFlag(fs[0], "--node-ous");
    PlainFlag(fs[1], "--no-node-ous");
    PlainFlag(fs[2], "--template");
    PlainFlag(fs[3], "--no-template");
    hide PlainName, LongName;
    assert |"--node-ous"| == 10 && |"--no-node-ous"| == 13 && |"--template"| == 10 && |"--no-template"| == 13;
    assert "--node-ous"[2] != "--template"[2] && "--no-node-ous"[5] != "--no-template"[5];
  }

  lemma PlainFlag(o: Opt, name: string)
    requires o.names == [name] && IsLong(name) && '=' !in name && |name| > 6
    ensures PlainName(name) && LongName(o) == name
  {
  }

  /******* What the last use of an option does *******/

  /** The last use that stores at dest d and is of one of these kinds. */
  function LastUse(uses: seq<Use>, kinds: set<Kind>, d: string): Option<Use> {
    if uses == [] then None
    else if uses[|uses|-1].opt.kind in kinds && uses[|uses|-1].opt.dest == d then Some(uses[|uses|-1])
    else LastUse(uses[..|uses|-1], kinds, d)
  }

  /** The values of an append dest, use by use. */
  function Appended(uses: seq<Use>, d: string): seq<string> {
    if uses == [] then []
    else
      var u := uses[|uses|-1];
      Appended(uses[..|uses|-1], d) + (if u.opt.kind == KindAppend && u.opt.dest == d && u.vals != [] then [u.vals[0]] else [])
  }

  lemma StoreLast(v: Values, uses: seq<Use>)
    requires uses != [] && Store(v, uses).1.None?
    ensures Store(v, uses[..|uses|-1]).1.None?
    ensures StoreUse(Store(v, uses[..|uses|-1]).0, uses[|uses|-1]) == Some(Store(v, uses).0)
  {
    var init, u := uses[..|uses|-1], uses[|uses|-1];
    assert uses == init + [u] && [u][1..] == [];
    StoreConcat(v, init, [u]);
  }

  /** The last use wins for a flag, a string and an integer... */
  lemma {:induction false} LastUseWins(uses: seq<Use>, d: string)
    requires Store(NO_VALUES, uses).1.None?
    ensures
      var v, b := Store(NO_VALUES, uses).0, LastUse(uses, {KindBool}, d);
      (d in v.bools <==> b.Some?) && (b.Some? ==> v.bools[d] == b.value.opt.value)
    ensures
      var v, s := Store(NO_VALUES, uses).0, LastUse(uses, {KindString}, d);
      (d in v.strings <==> s.Some?) && (s.Some? ==> s.value.vals != [] && v.strings[d] == s.value.vals[0])
    ensures
      var v, n := Store(NO_VALUES, uses).0, LastUse(uses, {KindInt}, d);
      (d in v.ints <==> n.Some?) && (n.Some? ==> n.value.vals != [] && Some(v.ints[d]) == Atoi(n.value.vals[0]))
    decreases |uses|
  {
    hide Store, Atoi;
    if uses == [] {
      StoreNone(NO_VALUES);
    } else {
      StoreLast(NO_VALUES, uses);
      LastUseWins(uses[..|uses|-1], d);
    }
  }

  /** ...and for a list; an append option keeps every use in order. */
  lemma {:induction false} LastListWins(uses: seq<Use>, d: string)
    requires Store(NO_VALUES, uses).1.None?
    ensures
      var v, m := Store(NO_VALUES, uses).0, LastUse(uses, {KindList, KindAppend}, d);
      (d in v.lists <==> m.Some?) && (m.Some? && m.value.opt.kind == KindList ==> v.lists[d] == m.value.vals)
    ensures
      var v := Store(NO_VALUES, uses).0;
      LastUse(uses, {KindList}, d).None? ==> Appended(uses, d) == if d in v.lists then v.lists[d] else []
    decreases |uses|
  {
    hide Store, Atoi;
    if uses == [] {
      StoreNone(NO_VALUES);
    } else {
      StoreLast(NO_VALUES, uses);
      LastListWins(uses[..|uses|-1], d);
    }
  }
}
