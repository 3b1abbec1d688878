/** What the command line means: rewrites that keep it, its inverse, and what the last use of an option does. */
module ArgsLaws {
  import opened Wrappers
  import opened Decimal
  import opened Strings
  import opened Args

  /******* Rewrites that keep the meaning *******/

  lemma WordsBefore(ts: seq<string>, seg: seq<string>)
    requires seg != [] && IsOption(seg[0])
    ensures Words(ts + seg) == Words(ts)
  {
    if ts == [] {
      assert ts + seg == seg;
    } else {
      assert (ts + seg)[1..] == ts[1..] + seg;
      WordsBefore(ts[1..], seg);
    }
  }

  lemma TakenBefore(k: Kind, ts: seq<string>, seg: seq<string>)
    requires seg != [] && IsOption(seg[0])
    ensures Taken(k, ts + seg) == Taken(k, ts)
    ensures (ts + seg)[..Taken(k, ts)] == ts[..Taken(k, ts)]
    ensures (ts + seg)[Taken(k, ts)..] == ts[Taken(k, ts)..] + seg
  {
    WordsBefore(ts, seg);
  }

  lemma NoTokens(l: Level, seg: seq<string>)
    ensures ScanTokens(l, []) == Scan([], [], Open)
    ensures Append(Scan([], [], Open), ScanTokens(l, seg)) == ScanTokens(l, seg)
  {
  }

  lemma WordOrHelp(l: Level, ts: seq<string>)
    requires ts != []
    ensures !IsOption(ts[0]) ==>
              ScanTokens(l, ts) ==
              if l.stopAtPositional then Scan([], [], Stopped(ts))
              else Append(Scan([], [ts[0]], Open), ScanTokens(l, ts[1..]))
    ensures IsOption(ts[0]) && ts[0] != "--" && IsHelp(ts[0]) ==> ScanTokens(l, ts) == Scan([], [], Bad(Help))
  {
    hide IsOption, IsHelp;
  }

  /** The tokens before an option are read as they would be alone: no option
      takes the option's token as its value. */
  lemma {:induction false} ScanSplits(l: Level, pre: seq<string>, seg: seq<string>)
    requires seg != [] && IsOption(seg[0])
    ensures ScanTokens(l, pre).ending == Open ==> ScanTokens(l, pre + seg) == Append(ScanTokens(l, pre), ScanTokens(l, seg))
    ensures ScanTokens(l, pre).ending.Bad? ==> ScanTokens(l, pre + seg) == ScanTokens(l, pre)
    decreases |pre|, if pre == [] then 0 else |pre[0]|
  {
    hide IsOption, ScanTokens, IsHelp;
    if pre == [] {
      assert pre + seg == seg;
      NoTokens(l, seg);
      return;
    }
    var ts := pre + seg;
    assert ts[0] == pre[0] && ts[1..] == pre[1..] + seg;
    WordOrHelp(l, pre);
    WordOrHelp(l, ts);
    if !IsOption(pre[0]) {
      if !l.stopAtPositional {
        ScanSplits(l, pre[1..], seg);
        AppendAssociates(Scan([], [pre[0]], Open), ScanTokens(l, pre[1..]), ScanTokens(l, seg));
      }
    } else if pre[0] == "--" {
      DashesEnd(l, pre);
    } else if !IsHelp(pre[0]) {
      OptionSplits(l, pre, seg);
    }
  }

  lemma DashesEnd(l: Level, ts: seq<string>)
    requires ts != [] && ts[0] == "--"
    ensures ScanTokens(l, ts).ending != Open && !ScanTokens(l, ts).ending.Bad?
  {
    LongIsOption(ts[0]);
  }

  lemma OptionSplits(l: Level, pre: seq<string>, seg: seq<string>)
    requires seg != [] && IsOption(seg[0])
    requires pre != [] && IsOption(pre[0]) && pre[0] != "--" && !IsHelp(pre[0])
    ensures ScanTokens(l, pre).ending == Open ==> ScanTokens(l, pre + seg) == Append(ScanTokens(l, pre), ScanTokens(l, seg))
    ensures ScanTokens(l, pre).ending.Bad? ==> ScanTokens(l, pre + seg) == ScanTokens(l, pre)
    decreases |pre|, |pre[0]|, 1
  {
    hide IsOption, ScanTokens, Lookup, Taken, SplitToken;
    var ts := pre + seg;
    assert ts[0] == pre[0] && ts[1..] == pre[1..] + seg;
    OptionHead(l, pre);
    OptionHead(l, ts);
    var (name, inline) := SplitToken(pre[0]);
    var found := Lookup(l.opts, name);
    if found.Failure? {
      return;
    }
    var o := found.value;
    if o.kind == KindBool {
      if inline.None? {
        ScanSplits(l, pre[1..], seg);
      } else if !IsLong(pre[0]) {
        assert (["-" + inline.value] + pre[1..]) + seg == ["-" + inline.value] + ts[1..];
        ScanSplits(l, ["-" + inline.value] + pre[1..], seg);
      }
    } else {
      ValuedSplits(l, pre, seg, o);
    }
  }

  lemma ValuedSplits(l: Level, pre: seq<string>, seg: seq<string>, o: Opt)
    requires seg != [] && IsOption(seg[0])
    requires pre != [] && IsOption(pre[0]) && pre[0] != "--" && !IsHelp(pre[0])
    requires Lookup(l.opts, SplitToken(pre[0]).0) == Success(o) && o.kind != KindBool
    ensures ScanTokens(l, pre).ending == Open ==> ScanTokens(l, pre + seg) == Append(ScanTokens(l, pre), ScanTokens(l, seg))
    ensures ScanTokens(l, pre).ending.Bad? ==> ScanTokens(l, pre + seg) == ScanTokens(l, pre)
    decreases |pre|, |pre[0]|, 0
  {
    hide IsOption, ScanTokens, Lookup, Taken, SplitToken;
    var ts := pre + seg;
    assert ts[0] == pre[0] && ts[1..] == pre[1..] + seg;
    ValuedOption(l, pre, o);
    ValuedOption(l, ts, o);
    var n := if SplitToken(pre[0]).1.Some? then 0 else Taken(o.kind, pre[1..]);
    TakenBefore(o.kind, pre[1..], seg);
    assert ts[1..][0..] == ts[1..] && pre[1..][0..] == pre[1..];
    ScanSplits(l, pre[1..][n..], seg);
    var vals := if SplitToken(pre[0]).1.Some? then [SplitToken(pre[0]).1.value] else pre[1..][..n];
    AppendTwice(OneUse(o, vals), ScanTokens(l, pre[1..][n..]), ScanTokens(l, seg));
    hide Append, OneUse;
  }

  lemma AppendTwice(p: Scan, q: Scan, r: Scan)
    ensures Append(Append(p, q), r) == Append(p, Append(q, r))
    ensures Append(p, q).ending == q.ending
  {
  }

  /** Two tokens that start the same scan may stand for each other wherever an
      option may stand: anywhere before a "--" and before the word that stops
      the global level. */
  lemma {:induction false} SameHead(l: Level, pre: seq<string>, seg: seq<string>, seg': seq<string>)
    requires seg != [] && IsOption(seg[0]) && seg' != [] && IsOption(seg'[0])
    requires ScanTokens(l, seg) == ScanTokens(l, seg')
    requires ScanTokens(l, pre).ending == Open || ScanTokens(l, pre).ending.Bad?
    ensures ScanTokens(l, pre + seg) == ScanTokens(l, pre + seg')
    ensures forall v :: Read(l, pre + seg, v) == Read(l, pre + seg', v)
  {
    hide IsOption, ScanTokens;
    ScanSplits(l, pre, seg);
    ScanSplits(l, pre, seg');
  }

  /** A bundle -f<rest> of a short bool flag means -f -<rest>, for all
      surrounding tokens. */
  lemma {:induction false} BundleMeansTwoTokens(l: Level, pre: seq<string>, f: char, rest: string, post: seq<string>)
    requires rest != "" && f != '-' && f != 'h' && IsOption(['-', f]) && IsOption(['-', f] + rest)
    requires Lookup(l.opts, ['-', f]).Success? && Lookup(l.opts, ['-', f]).value.kind == KindBool
    requires ScanTokens(l, pre).ending == Open || ScanTokens(l, pre).ending.Bad?
    ensures ScanTokens(l, pre + ([['-', f] + rest] + post)) == ScanTokens(l, pre + ([['-', f], "-" + rest] + post))
    ensures forall v :: Read(l, pre + ([['-', f] + rest] + post), v) == Read(l, pre + ([['-', f], "-" + rest] + post), v)
  {
    hide IsOption, ScanTokens, Lookup;
    var tok, flag := ['-', f] + rest, ['-', f];
    var seg, seg' := [tok] + post, [flag, "-" + rest] + post;
    assert tok[..2] == flag && tok[2..] == rest && !IsLong(tok) && !IsLong(flag);
    assert SplitToken(tok) == (flag, Some(rest)) && SplitToken(flag) == (flag, None);
    assert seg[1..] == post && seg'[1..] == ["-" + rest] + post;
    OptionHead(l, seg);
    OptionHead(l, seg');
    SameHead(l, pre, seg, seg');
  }

  /** A long name may be cut to any prefix that no other option has: the same
      scan, the same values, and the same errors. */
  lemma {:induction false} AbbreviationMeansTheName(l: Level, pre: seq<string>, full: string, cut: string, value: Option<string>, post: seq<string>)
    requires IsLong(cut) && HasPrefix(full, cut) && |cut| > 2 && cut != "--help" && full != "--help" && '=' !in full
    requires FirstNamed(l.opts, cut).None?
    requires exists i :: 0 <= i < |l.opts| && UniqueAt(l.opts, cut, i) && Lookup(l.opts, full) == Success(l.opts[i])
    requires ScanTokens(l, pre).ending == Open || ScanTokens(l, pre).ending.Bad?
    ensures forall v :: Read(l, pre + ([Attached(full, value)] + post), v) == Read(l, pre + ([Attached(cut, value)] + post), v)
  {
    hide IsOption, ScanTokens, Lookup;
    LookupIff(l.opts, cut);
    var seg, seg' := [Attached(full, value)] + post, [Attached(cut, value)] + post;
    AttachedSplits(full, value);
    AttachedSplits(cut, value);
    assert seg[1..] == post && seg'[1..] == post;
    assert |Attached(full, value)| > 2 && |Attached(cut, value)| > 2;
    OptionHead(l, seg);
    OptionHead(l, seg');
    var o := Lookup(l.opts, full).value;
    if o.kind != KindBool {
      ValuedOption(l, seg, o);
      ValuedOption(l, seg', o);
    }
    SameHead(l, pre, seg, seg');
  }

  /** --name or --name=value */
  function Attached(name: string, value: Option<string>): string {
    match value
    case None => name
    case Some(v) => name + "=" + v
  }

  lemma AttachedSplits(name: string, value: Option<string>)
    requires IsLong(name) && '=' !in name
    ensures IsLong(Attached(name, value)) && IsOption(Attached(name, value))
    ensures SplitToken(Attached(name, value)) == (name, value)
    ensures value.Some? ==> !IsHelp(Attached(name, value)) && Attached(name, value) != "--"
  {
    var tok := Attached(name, value);
    LongIsOption(tok);
    assert forall i :: 0 <= i < |name| ==> tok[i] == name[i] && name[i] in name;
    IndexOfFirst(tok, |name|, '=');
    match value
    case None =>
    case Some(v) =>
      assert name + "=" + v == name + ['='] + v;
      assert (name + ['='] + v)[..|name|] == name && (name + ['='] + v)[|name| + 1..] == v;
  }

  /******* Values *******/

  /** A number is a word, also a negative one... */
  lemma NumbersAreWords(n: int, digits: string, decimals: string)
    requires AllDigits(digits) && AllDigits(decimals) && decimals != ""
    ensures !IsOption(Itoa(n)) && !IsOption("-" + digits + "." + decimals)
  {
    if n >= 0 {
      assert IsDigit(Itoa(n)[0]);
    } else {
      assert Itoa(n)[1..] == NatText(-n);
    }
    var tok := "-" + digits + "." + decimals;
    assert tok[1..|digits|+1] == digits && tok[|digits|+2..] == decimals && tok[|digits|+1] == '.';
  }

  ghost predicate IsInteger(tok: string, digits: string) {
    digits != "" && AllDigits(digits) && tok == "-" + digits
  }

  ghost predicate IsDecimal(tok: string, digits: string, decimals: string) {
    AllDigits(digits) && AllDigits(decimals) && decimals != "" && tok == "-" + digits + "." + decimals
  }

  lemma IntegerIs(tok: string, digits: string)
    requires IsInteger(tok, digits)
    ensures NegativeNumber(tok)
  {
    assert tok[1..] == digits;
  }

  lemma DecimalIs(tok: string, digits: string, decimals: string)
    requires IsDecimal(tok, digits, decimals)
    ensures NegativeNumber(tok)
  {
    var k := |digits| + 1;
    assert tok[1..k] == digits && tok[k+1..] == decimals && tok[k] == '.';
  }

  lemma NegativeIs(tok: string)
    requires NegativeNumber(tok)
    ensures (exists digits :: IsInteger(tok, digits)) || exists digits, decimals :: IsDecimal(tok, digits, decimals)
  {
    hide AllDigits;
    if AllDigits(tok[1..]) {
      assert tok == "-" + tok[1..];
      assert IsInteger(tok, tok[1..]);
    } else {
      var k :| 1 <= k < |tok| - 1 && tok[k] == '.' && AllDigits(tok[1..k]) && AllDigits(tok[k+1..]);
      PointAt(tok, k);
      assert IsDecimal(tok, tok[1..k], tok[k+1..]);
    }
  }

  lemma PointAt(tok: string, k: nat)
    requires 1 <= k < |tok| && tok[0] == '-' && tok[k] == '.'
    ensures tok == "-" + tok[1..k] + "." + tok[k+1..]
  {
  }

  /** ...and any other token with more than a dash is an option. */
  lemma {:induction false} OptionIff(tok: string)
    ensures IsOption(tok) <==>
            && |tok| > 1 && tok[0] == '-'
            && (forall digits :: !IsInteger(tok, digits)) && (forall digits, decimals :: !IsDecimal(tok, digits, decimals))
  {
    hide NegativeNumber, IsInteger, IsDecimal;
    forall digits | IsInteger(tok, digits) ensures NegativeNumber(tok) {
      IntegerIs(tok, digits);
    }
    forall digits, decimals | IsDecimal(tok, digits, decimals) ensures NegativeNumber(tok) {
      DecimalIs(tok, digits, decimals);
    }
    if NegativeNumber(tok) {
      NegativeIs(tok);
    }
  }

  /** An option with one value. */
  predicate IsSingle(k: Kind) {
    k == KindString || k == KindInt || k == KindAppend
  }

  lemma TakesOne(k: Kind, w: string, tail: seq<string>)
    requires IsSingle(k) && !IsOption(w)
    ensures Taken(k, [w] + tail) == 1
  {
  }

  lemma {:induction false} SameScanApart(l: Level, name: string, tok: string, w: string, post: seq<string>)
    requires IsOption(name) && IsOption(tok) && !IsHelp(name) && !IsHelp(tok) && name != "--" && tok != "--"
    requires SplitToken(name) == (name, None) && SplitToken(tok) == (name, Some(w)) && !IsOption(w)
    requires Lookup(l.opts, name).Success? && IsSingle(Lookup(l.opts, name).value.kind)
    ensures ScanTokens(l, [name, w] + post) == ScanTokens(l, [tok] + post)
    ensures ScanTokens(l, [name, w] + post) == Append(OneUse(Lookup(l.opts, name).value, [w]), ScanTokens(l, post))
  {
    hide IsOption, ScanTokens, Lookup, SplitToken, Taken, IsHelp, Append, OneUse;
    var o, seg, seg' := Lookup(l.opts, name).value, [name, w] + post, [tok] + post;
    ValuedOption(l, seg, o);
    ValuedOption(l, seg', o);
    TakesOne(o.kind, w, post);
    assert seg[1..] == [w] + post && seg[1..][..1] == [w] && seg[1..][1..] == post && seg'[1..][0..] == post;
  }

  /** --name word and --name=word mean the same, for all surrounding tokens. */
  lemma {:induction false} SeparateMeansAttached(l: Level, pre: seq<string>, name: string, w: string, post: seq<string>)
    requires IsLong(name) && |name| > 2 && name != "--help" && '=' !in name && !IsOption(w)
    requires Lookup(l.opts, name).Success? && Lookup(l.opts, name).value.kind in {KindString, KindInt, KindAppend}
    requires ScanTokens(l, pre).ending == Open || ScanTokens(l, pre).ending.Bad?
    ensures forall v :: Read(l, pre + ([name, w] + post), v) == Read(l, pre + ([name + "=" + w] + post), v)
  {
    hide IsOption, ScanTokens, Lookup, SplitToken, Read;
    AttachedSplits(name, None);
    AttachedSplits(name, Some(w));
    SameScanApart(l, name, name + "=" + w, w, post);
    SameHead(l, pre, [name, w] + post, [name + "=" + w] + post);
  }

  /** So do -n word and -nword. */
  lemma {:induction false} ShortMeansAttached(l: Level, pre: seq<string>, c: char, w: string, post: seq<string>)
    requires c != '-' && c != 'h' && IsOption(['-', c]) && IsOption(['-', c] + w) && w != "" && !IsOption(w)
    requires Lookup(l.opts, ['-', c]).Success? && Lookup(l.opts, ['-', c]).value.kind in {KindString, KindInt, KindAppend}
    requires ScanTokens(l, pre).ending == Open || ScanTokens(l, pre).ending.Bad?
    ensures forall v :: Read(l, pre + ([['-', c], w] + post), v) == Read(l, pre + ([['-', c] + w] + post), v)
  {
    hide IsOption, ScanTokens, Lookup, Read;
    var name, tok := ['-', c], ['-', c] + w;
    assert tok[..2] == name && tok[2..] == w && !IsLong(tok) && !IsLong(name);
    assert SplitToken(tok) == (name, Some(w)) && SplitToken(name) == (name, None);
    SameScanApart(l, name, tok, w, post);
    SameHead(l, pre, [name, w] + post, [tok] + post);
  }

  /** An option that needs a value and is followed by none is an error, once the
      uses before it are stored. */
  lemma {:induction false} MissingValue(l: Level, pre: seq<string>, name: string, post: seq<string>, v: Values)
    requires IsLong(name) && |name| > 2 && name != "--help" && '=' !in name && (post == [] || IsOption(post[0]))
    requires Lookup(l.opts, name).Success? && Lookup(l.opts, name).value.kind != KindBool && Lookup(l.opts, name).value.names != []
    requires ScanTokens(l, pre).ending == Open && Store(v, ScanTokens(l, pre).uses).1.None?
    ensures
      var o := Lookup(l.opts, name).value;
      Read(l, pre + ([name] + post), v) ==
        (Failure(if o.kind == KindList then ExpectedSome(o.names[0]) else ExpectedOne(o.names[0])),
         Store(v, ScanTokens(l, pre).uses).0)
  {
    hide IsOption, ScanTokens, Lookup, SplitToken, Store;
    AttachedSplits(name, None);
    var o := Lookup(l.opts, name).value;
    ValuedOption(l, [name] + post, o);
    assert ([name] + post)[1..] == post;
    ScanSplits(l, pre, [name] + post);
    assert ScanTokens(l, pre).uses + [] == ScanTokens(l, pre).uses;
  }

  /** A value of an integer option that is no integer is an error. */
  lemma {:induction false} BadInteger(l: Level, name: string, w: string, post: seq<string>, v: Values)
    requires IsLong(name) && |name| > 2 && name != "--help" && '=' !in name && Atoi(w).None?
    requires Lookup(l.opts, name).Success? && Lookup(l.opts, name).value.kind == KindInt && Lookup(l.opts, name).value.names != []
    ensures Read(l, [name + "=" + w] + post, v) == (Failure(InvalidInt(Lookup(l.opts, name).value.names[0], w)), v)
  {
    hide IsOption, ScanTokens, Lookup, SplitToken, Atoi;
    var o, tok := Lookup(l.opts, name).value, name + "=" + w;
    AttachedSplits(name, Some(w));
    ValuedOption(l, [tok] + post, o);
    assert ([tok] + post)[1..][0..] == post;
    assert ScanTokens(l, [tok] + post).uses == [Use(o, [w])] + ScanTokens(l, post).uses;
  }

  /** A flag takes no value. */
  lemma {:induction false} FlagTakesNone(l: Level, name: string, w: string, post: seq<string>, v: Values)
    requires IsLong(name) && |name| > 2 && name != "--help" && '=' !in name
    requires Lookup(l.opts, name).Success? && Lookup(l.opts, name).value.kind == KindBool && Lookup(l.opts, name).value.names != []
    ensures Read(l, [name + "=" + w] + post, v) == (Failure(IgnoredArgument(Lookup(l.opts, name).value.names[0], w)), v)
  {
    hide IsOption, ScanTokens, Lookup, SplitToken;
    AttachedSplits(name, Some(w));
    OptionHead(l, [name + "=" + w] + post);
  }

  /******* Bundles, split once and for all *******/

  /** The tokens with every bundle of short flags split, up to a "--". */
  function Unbundled(l: Level, ts: seq<string>): seq<string>
    decreases |ts|, if ts == [] then 0 else |ts[0]|
  {
    if ts == [] || ts[0] == "--" then ts
    else if IsBundle(l, ts[0]) then [ts[0][..2]] + Unbundled(l, ["-" + ts[0][2..]] + ts[1..])
    else [ts[0]] + Unbundled(l, ts[1..])
  }

  predicate IsFlag(l: Level, name: string) {
    Lookup(l.opts, name).Success? && Lookup(l.opts, name).value.kind == KindBool
  }

  predicate IsBundle(l: Level, tok: string) {
    IsOption(tok) && !IsLong(tok) && |tok| > 2 && IsFlag(l, tok[..2])
  }

  /** No flag of the table is -h, which alone means help, or looks like a negative number. */
  predicate PlainFlags(l: Level) {
    forall c: char :: IsFlag(l, ['-', c]) ==> c != 'h' && IsOption(['-', c])
  }

  lemma PlainBundle(l: Level, tok: string)
    requires PlainFlags(l) && IsBundle(l, tok)
    ensures IsOption(tok[..2]) && !IsLong(tok[..2]) && !IsHelp(tok[..2])
  {
    assert tok[..2] == ['-', tok[1]];
  }

  /** The same scan: at the global level the word that stops it is the same,
      and what follows it may have been split. */
  predicate SameScan(p: Scan, q: Scan) {
    && p.uses == q.uses && p.pos == q.pos
    && if p.ending.Stopped? then
         q.ending.Stopped? && p.ending.rest != [] && q.ending.rest != [] && p.ending.rest[0] == q.ending.rest[0]
       else p.ending == q.ending
  }

  lemma UnbundledHead(l: Level, ts: seq<string>)
    requires PlainFlags(l) && ts != []
    ensures Unbundled(l, ts) != [] && (IsOption(Unbundled(l, ts)[0]) <==> IsOption(ts[0]))
    ensures !IsOption(ts[0]) ==> Unbundled(l, ts) == [ts[0]] + Unbundled(l, ts[1..])
  {
    hide IsOption;
    LongIsOption("--");
    if ts[0] != "--" && IsBundle(l, ts[0]) {
      PlainBundle(l, ts[0]);
    }
  }

  /** Words are kept... */
  lemma {:induction false} UnbundledWords(l: Level, ts: seq<string>)
    requires PlainFlags(l)
    ensures Words(Unbundled(l, ts)) == Words(ts)
    decreases |ts|
  {
    if ts != [] {
      UnbundledHead(l, ts);
      hide IsOption, Unbundled, PlainFlags;
      if !IsOption(ts[0]) {
        UnbundledWords(l, ts[1..]);
        HeadAndTail(ts[0], Unbundled(l, ts[1..]), 0);
      }
    }
  }

  /** ...and what follows them is split as it would be alone. */
  lemma {:induction false} UnbundledAfter(l: Level, ts: seq<string>, n: nat)
    requires PlainFlags(l) && n <= Words(ts)
    ensures Unbundled(l, ts) == ts[..n] + Unbundled(l, ts[n..])
    decreases |ts|
  {
    hide IsOption, Unbundled, PlainFlags, Words;
    if n == 0 {
      assert ts[0..] == ts;
    } else {
      UnbundledHead(l, ts);
      WordsHead(ts);
      UnbundledAfter(l, ts[1..], n - 1);
      Regroup(ts, n, Unbundled(l, ts[1..][n-1..]));
    }
  }

  lemma Regroup(ts: seq<string>, n: nat, rest: seq<string>)
    requires 0 < n <= |ts|
    ensures [ts[0]] + (ts[1..][..n-1] + rest) == ts[..n] + rest && ts[1..][n-1..] == ts[n..]
  {
    assert ts[..n] == [ts[0]] + ts[1..][..n-1];
  }

  lemma WordsHead(ts: seq<string>)
    requires Words(ts) > 0
    ensures ts != [] && !IsOption(ts[0]) && Words(ts) == 1 + Words(ts[1..])
  {
  }

  lemma HeadAndTail(x: string, s: seq<string>, k: nat)
    requires k <= |s|
    ensures ([x] + s)[k+1..] == s[k..] && ([x] + s)[..k+1] == [x] + s[..k] && ([x] + s)[1..] == s
  {
  }

  lemma UnbundledTaken(l: Level, k: Kind, ts: seq<string>)
    requires PlainFlags(l)
    ensures Taken(k, Unbundled(l, ts)) == Taken(k, ts)
    ensures Unbundled(l, ts)[..Taken(k, ts)] == ts[..Taken(k, ts)]
    ensures Unbundled(l, ts)[Taken(k, ts)..] == Unbundled(l, ts[Taken(k, ts)..])
  {
    hide IsBundle, IsOption;
    assert Taken(k, ts) <= Words(ts);
    UnbundledWords(l, ts);
    UnbundledAfter(l, ts, Taken(k, ts));
    if ts != [] {
      UnbundledHead(l, ts);
      if !IsOption(ts[0]) {
        assert Unbundled(l, ts)[0] == ts[0];
      }
    }
  }

  /** Splitting the bundles first changes nothing. */
  lemma {:induction false} BundlesMayBeSplitFirst(l: Level, ts: seq<string>)
    requires PlainFlags(l)
    ensures SameScan(ScanTokens(l, ts), ScanTokens(l, Unbundled(l, ts)))
    decreases |ts|, if ts == [] then 0 else |ts[0]|
  {
    hide IsOption, ScanTokens, Rest, IsBundle, Lookup;
    RestOf(l, ts, false);
    if ts == [] || ts[0] == "--" {
      SameScanSelf(l, ts);
      return;
    }
    var us := Unbundled(l, ts);
    RestOf(l, us, false);
    if !IsOption(ts[0]) {
      UnbundledHead(l, ts);
      assert us[1..] == Unbundled(l, ts[1..]);
      if !l.stopAtPositional {
        RestOf(l, ts[1..], false);
        RestOf(l, us[1..], false);
        BundlesMayBeSplitFirst(l, ts[1..]);
      }
    } else if IsBundle(l, ts[0]) {
      BundleSplits(l, ts, us);
    } else if !IsHelp(ts[0]) {
      assert us[0] == ts[0] && us[1..] == Unbundled(l, ts[1..]);
      OptionUnbundled(l, ts, us);
    }
  }

  lemma SameScanSelf(l: Level, ts: seq<string>)
    requires ts == [] || ts[0] == "--"
    ensures SameScan(ScanTokens(l, ts), ScanTokens(l, Unbundled(l, ts)))
  {
    LongIsOption("--");
  }

  lemma BundleSplits(l: Level, ts: seq<string>, us: seq<string>)
    requires PlainFlags(l) && ts != [] && ts[0] != "--" && IsBundle(l, ts[0]) && us == Unbundled(l, ts)
    ensures SameScan(ScanTokens(l, ts), ScanTokens(l, us))
    decreases |ts|, |ts[0]|, 0
  {
    hide IsOption, ScanTokens, Lookup;
    var flag, rest := ts[0][..2], ["-" + ts[0][2..]] + ts[1..];
    PlainBundle(l, ts[0]);
    assert !IsLong(flag) && SplitToken(ts[0]) == (flag, Some(ts[0][2..])) && SplitToken(flag) == (flag, None);
    assert !IsHelp(ts[0]);
    assert us[0] == flag && us[1..] == Unbundled(l, rest);
    OptionHead(l, ts);
    OptionHead(l, us);
    BundlesMayBeSplitFirst(l, rest);
  }

  lemma OptionUnbundled(l: Level, ts: seq<string>, us: seq<string>)
    requires PlainFlags(l) && ts != [] && ts[0] != "--" && IsOption(ts[0]) && !IsHelp(ts[0]) && !IsBundle(l, ts[0])
    requires us != [] && us[0] == ts[0] && us[1..] == Unbundled(l, ts[1..])
    ensures SameScan(ScanTokens(l, ts), ScanTokens(l, us))
    decreases |ts|, |ts[0]|, 0
  {
    hide IsOption, ScanTokens, Lookup, Taken;
    OptionHead(l, ts);
    OptionHead(l, us);
    var (name, inline) := SplitToken(ts[0]);
    var found := Lookup(l.opts, name);
    if found.Failure? {
      return;
    }
    var o := found.value;
    if o.kind == KindBool {
      if inline.None? {
        BundlesMayBeSplitFirst(l, ts[1..]);
      }
    } else {
      ValuedOption(l, ts, o);
      ValuedOption(l, us, o);
      var n := if inline.Some? then 0 else Taken(o.kind, ts[1..]);
      UnbundledTaken(l, o.kind, ts[1..]);
      assert ts[1..][0..] == ts[1..] && us[1..][0..] == us[1..];
      BundlesMayBeSplitFirst(l, ts[1..][n..]);
    }
  }
}
