/** scripts/variables.sh: what generate writes there, and how ReadVars reads it back.
    A character stands for one byte. */
module Variables {
  import opened Wrappers
  import opened Decimal
  import opened Strings
  import opened Policies
  import Topology

  datatype Vars = Vars(domain: string, policy: string, orgs: seq<int>, peers: seq<int>, orderers: seq<int>)

  const NO_VARS := Vars("", "", [], [], [])

  datatype Error = NoFile | LineTooLong | BadIndex(name: string, word: string) | NoDomain | NoIndices | NoPolicy

  /** A line and its end must fit in the scanner's buffer. */
  const MAX_LINE: int := 64 * 1024 - 1

  /******* Lines and words *******/

  /** unicode.IsSpace, below the second plane. */
  predicate IsSpace(c: char) {
    || c in " \t\n\r" || c as int in {0x0B, 0x0C, 0x85, 0xA0, 0x1680, 0x2028, 0x2029, 0x202F, 0x205F, 0x3000}
    || 0x2000 <= c as int <= 0x200A
  }

  /** The lines of a text; the last one needs no newline. */
  function Lines(s: string): (ls: seq<string>)
    ensures forall l :: l in ls ==> '\n' !in l
    decreases |s|
  {
    if s == "" then []
    else
      var k := IndexOf(s, '\n');
      if k == |s| then [s] else [s[..k]] + Lines(s[k+1..])
  }

  function TrimLeft(s: string): string {
    if s != "" && IsSpace(s[0]) then TrimLeft(s[1..]) else s
  }

  function TrimRight(s: string): string {
    if s != "" && IsSpace(s[|s|-1]) then TrimRight(s[..|s|-1]) else s
  }

  /** strings.TrimSpace; the scanner's own cut of a final \r changes nothing. */
  function Trim(s: string): string {
    TrimRight(TrimLeft(s))
  }

  /** The length of the word at the head of s. */
  function WordLength(s: string): (k: nat)
    ensures k <= |s| && (s != "" && !IsSpace(s[0]) ==> k > 0)
  {
    if s == "" || IsSpace(s[0]) then 0 else 1 + WordLength(s[1..])
  }

  function Fields(s: string): seq<string>
    decreases |s|
  {
    if s == "" then []
    else if IsSpace(s[0]) then Fields(s[1..])
    else [s[..WordLength(s)]] + Fields(s[WordLength(s)..])
  }

  /******* Assignments *******/

  predicate NameChar(c: char) {
    'A' <= c <= 'Z' || c == '_'
  }

  predicate IsName(s: string) {
    s != "" && forall i :: 0 <= i < |s| ==> NameChar(s[i])
  }

  /** ^([A-Z_]+)= and the rest of the line. */
  function Assignment(line: string): Option<(string, string)> {
    var k := IndexOf(line, '=');
    if k < |line| && IsName(line[..k]) then Some((line[..k], line[k+1..])) else None
  }

  predicate Enclosed(s: string, open: char, close: char) {
    |s| >= 2 && s[0] == open && s[|s|-1] == close
  }

  function Inner(s: string): string
    requires |s| >= 2
  {
    s[1..|s|-1]
  }

  function ParseInts(words: seq<string>): Result<seq<int>, string> {
    if words == [] then Success([])
    else
      match Atoi(words[0])
      case None => Failure(words[0])
      case Some(n) =>
        match ParseInts(words[1..])
        case Failure(w) => Failure(w)
        case Success(ns) => Success([n] + ns)
  }

  function SetScalar(v: Vars, name: string, value: string): Vars {
    if name == "DOMAIN_NAME" then v.(domain := value)
    else if name == "ENDORSEMENT_POLICY" then v.(policy := value)
    else v
  }

  function SetArray(v: Vars, name: string, ns: seq<int>): Vars {
    if name == "ORG_INDICES" then v.(orgs := ns)
    else if name == "PEER_INDICES" then v.(peers := ns)
    else if name == "ORDERER_INDICES" then v.(orderers := ns)
    else v
  }

  /** What one line does to the values. */
  function ReadLine(v: Vars, raw: string): Result<Vars, Error> {
    if |raw| > MAX_LINE then Failure(LineTooLong)
    else
      match Assignment(Trim(raw))
      case None => Success(v)
      case Some((name, rest)) =>
        if Enclosed(rest, '"', '"') then Success(SetScalar(v, name, Inner(rest)))
        else if Enclosed(rest, '(', ')') then
          match ParseInts(Fields(Inner(rest)))
          case Failure(word) => Failure(BadIndex(name, word))
          case Success(ns) => Success(SetArray(v, name, ns))
        else Success(v)
  }

  function ReadLines(v: Vars, lines: seq<string>): Result<Vars, Error>
    decreases |lines|
  {
    if lines == [] then Success(v)
    else
      match ReadLine(v, lines[0])
      case Failure(e) => Failure(e)
      case Success(v') => ReadLines(v', lines[1..])
  }

  /** The old default of one orderer, and what must be there. */
  function Finish(v: Vars): Result<Vars, Error> {
    var w := if v.orderers == [] then v.(orderers := [0]) else v;
    if w.domain == "" then Failure(NoDomain)
    else if w.orgs == [] || w.peers == [] then Failure(NoIndices)
    else if w.policy == "" then Failure(NoPolicy)
    else Success(w)
  }

  function ReadText(text: string): Result<Vars, Error> {
    match ReadLines(NO_VARS, Lines(text))
    case Failure(e) => Failure(e)
    case Success(v) => Finish(v)
  }

  method ParseIndices(words: seq<string>) returns (r: Result<seq<int>, string>)
    ensures r == ParseInts(words)
  {
    var ints := [];
    PrependNothing(ParseInts(words));
    for i := 0 to |words|
      invariant ParseInts(words) == Prepend(ints, ParseInts(words[i..]))
    {
      var n := Atoi(words[i]);
      if n.None? {
        return Failure(words[i]);
      }
      PrependMore(ints, n.value, ParseInts(words[i+1..]));
      ints := ints + [n.value];
    }
    assert words[|words|..] == [] && ints + [] == ints;
    return Success(ints);
  }

  /** The scan of ReadVars, line by line. */
  method ReadVars(file: Option<string>) returns (r: Result<Vars, Error>)
    ensures r == if file.None? then Failure(NoFile) else ReadText(file.value)
  {
    if file.None? {
      return Failure(NoFile);
    }
    var rest, v := file.value, NO_VARS;
    while rest != ""
      invariant ReadLines(NO_VARS, Lines(file.value)) == ReadLines(v, Lines(rest))
      decreases |rest|
    {
      var k := IndexOf(rest, '\n');
      var raw := rest[..k];
      ghost var before := v;
      NextLine(rest);
      rest := if k == |rest| then "" else rest[k+1..];
      if |raw| > MAX_LINE {
        return Failure(LineTooLong);
      }
      var found := Assignment(Trim(raw));
      if found.Some? {
        var (name, value) := found.value;
        if Enclosed(value, '"', '"') {
          if name == "DOMAIN_NAME" {
            v := v.(domain := Inner(value));
          } else if name == "ENDORSEMENT_POLICY" {
            v := v.(policy := Inner(value));
          }
        } else if Enclosed(value, '(', ')') {
          var ints := ParseIndices(Fields(Inner(value)));
          if ints.Failure? {
            return Failure(BadIndex(name, ints.error));
          }
          if name == "ORG_INDICES" {
            v := v.(orgs := ints.value);
          } else if name == "PEER_INDICES" {
            v := v.(peers := ints.value);
          } else if name == "ORDERER_INDICES" {
            v := v.(orderers := ints.value);
          }
        }
      }
      assert ReadLine(before, raw) == Success(v);
    }
    if v.orderers == [] {
      v := v.(orderers := [0]);
    }
    if v.domain == "" {
      return Failure(NoDomain);
    }
    if v.orgs == [] || v.peers == [] {
      return Failure(NoIndices);
    }
    if v.policy == "" {
      return Failure(NoPolicy);
    }
    return Success(v);
  }

  lemma NextLine(rest: string)
    requires rest != ""
    ensures
      var k := IndexOf(rest, '\n');
      Lines(rest) == [rest[..k]] + Lines(if k == |rest| then "" else rest[k+1..])
  {
    hide IndexOf;
    var k := IndexOf(rest, '\n');
    assert rest[..|rest|] == rest;
  }

  function Prepend(ns: seq<int>, r: Result<seq<int>, string>): Result<seq<int>, string> {
    match r
    case Failure(w) => Failure(w)
    case Success(ms) => Success(ns + ms)
  }

  lemma PrependNothing(r: Result<seq<int>, string>)
    ensures Prepend([], r) == r
  {
    if r.Success? {
      assert [] + r.value == r.value;
    }
  }

  lemma PrependMore(ns: seq<int>, n: int, r: Result<seq<int>, string>)
    ensures Prepend(ns + [n], r) == Prepend(ns, Prepend([n], r))
  {
    if r.Success? {
      assert ns + [n] + r.value == ns + ([n] + r.value);
    }
  }

  /******* What a line means *******/

  predicate AllSpaces(s: string) {
    forall i :: 0 <= i < |s| ==> IsSpace(s[i])
  }

  lemma {:induction false} TrimLeftMeans(s: string) returns (k: nat)
    ensures k <= |s| && AllSpaces(s[..k]) && TrimLeft(s) == s[k..] && (k < |s| ==> !IsSpace(s[k]))
    decreases |s|
  {
    hide IsSpace;
    k := 0;
    if s != "" && IsSpace(s[0]) {
      k := TrimLeftMeans(s[1..]);
      assert s[..k+1] == [s[0]] + s[1..][..k] && s[1..][k..] == s[k+1..];
      k := k + 1;
    }
  }

  lemma {:induction false} TrimRightMeans(s: string) returns (k: nat)
    ensures k <= |s| && AllSpaces(s[k..]) && TrimRight(s) == s[..k] && (k > 0 ==> !IsSpace(s[k-1]))
    decreases |s|
  {
    hide IsSpace;
    k := |s|;
    if s != "" && IsSpace(s[|s|-1]) {
      var t := s[..|s|-1];
      k := TrimRightMeans(t);
      assert s[k..] == t[k..] + [s[|s|-1]] && t[..k] == s[..k];
    } else {
      assert s[..|s|] == s;
    }
  }

  /** Trim takes the white space off both ends, and nothing else. */
  lemma {:induction false} TrimMeans(s: string) returns (l: string, r: string)
    ensures AllSpaces(l) && AllSpaces(r) && s == l + Trim(s) + r
    ensures Trim(s) != "" ==> !IsSpace(Trim(s)[0]) && !IsSpace(Trim(s)[|Trim(s)|-1])
  {
    hide IsSpace, TrimLeft, TrimRight;
    var k := TrimLeftMeans(s);
    var m := TrimRightMeans(TrimLeft(s));
    l, r := s[..k], TrimLeft(s)[m..];
    assert s == s[..k] + (s[k..][..m] + s[k..][m..]);
  }

  /** The white space of ASCII. */
  lemma AsciiSpaces(c: char)
    requires c as int < 0x80
    ensures IsSpace(c) <==> c == ' ' || 9 <= c as int <= 13
  {
  }

  predicate UpperName(name: string) {
    name != "" && forall i :: 0 <= i < |name| ==> name[i] in "ABCDEFGHIJKLMNOPQRSTUVWXYZ_"
  }

  lemma UpperIsName(name: string)
    ensures UpperName(name) <==> IsName(name)
  {
    forall c: char ensures c in "ABCDEFGHIJKLMNOPQRSTUVWXYZ_" <==> NameChar(c) {
      var s := "ABCDEFGHIJKLMNOPQRSTUVWXYZ_";
      if NameChar(c) {
        assert c == '_' ==> s[26] == c;
        assert c != '_' ==> s[c as int - 'A' as int] == c;
      }
    }
  }

  predicate IsScalar(line: string, name: string, value: string) {
    UpperName(name) && line == name + "=\"" + value + "\""
  }

  predicate IsArray(line: string, name: string, inner: string) {
    UpperName(name) && line == name + "=(" + inner + ")"
  }

  /** An array's words are all numbers, or the first that is not is the error. */
  function ArrayRead(v: Vars, name: string, ns: Result<seq<int>, string>): Result<Vars, Error> {
    if ns.Success? then Success(SetArray(v, name, ns.value)) else Failure(BadIndex(name, ns.error))
  }

  lemma AssignmentSplits(line: string, name: string, rest: string)
    requires IsName(name) && line == name + "=" + rest
    ensures Assignment(line) == Some((name, rest))
  {
    assert forall i :: 0 <= i < |name| ==> line[i] == name[i] && NameChar(name[i]);
    IndexOfFirst(line, |name|, '=');
    assert line[..|name|] == name && line[|name|+1..] == rest;
  }

  lemma AssignmentFound(line: string)
    requires Assignment(line).Some?
    ensures IsName(Assignment(line).value.0) && line == Assignment(line).value.0 + "=" + Assignment(line).value.1
  {
    var k := IndexOf(line, '=');
    assert line == line[..k] + [line[k]] + line[k+1..];
  }

  lemma EnclosedIs(s: string, open: char, close: char)
    ensures Enclosed(s, open, close) <==> |s| >= 2 && s == [open] + Inner(s) + [close]
    ensures forall inner :: s == [open] + inner + [close] ==> Enclosed(s, open, close) && Inner(s) == inner
  {
    forall inner | s == [open] + inner + [close] ensures Enclosed(s, open, close) && Inner(s) == inner {
      assert s[1..|s|-1] == inner;
    }
    if Enclosed(s, open, close) {
      assert s == [s[0]] + s[1..|s|-1] + [s[|s|-1]];
    }
  }

  /** A line sets a scalar, sets an array, or is passed over. */
  lemma {:induction false} LineMeans(v: Vars, raw: string)
    requires |raw| < 65536
    ensures forall name, value :: IsScalar(Trim(raw), name, value) ==> ReadLine(v, raw) == Success(SetScalar(v, name, value))
    ensures forall name, inner :: IsArray(Trim(raw), name, inner) ==>
              ReadLine(v, raw) == ArrayRead(v, name, ParseInts(Fields(inner)))
    ensures (forall name, value :: !IsScalar(Trim(raw), name, value)) && (forall name, inner :: !IsArray(Trim(raw), name, inner)) ==>
              ReadLine(v, raw) == Success(v)
  {
    hide Trim, ParseInts, Fields, SetScalar, SetArray, UpperName, IsName, Assignment, Enclosed, Inner;
    var line := Trim(raw);
    forall name, value | IsScalar(line, name, value) ensures ReadLine(v, raw) == Success(SetScalar(v, name, value)) {
      UpperIsName(name);
      var rest := ['"'] + value + ['"'];
      assert line == name + "=" + rest;
      AssignmentSplits(line, name, rest);
      EnclosedIs(rest, '"', '"');
    }
    forall name, inner | IsArray(line, name, inner)
      ensures ReadLine(v, raw) == ArrayRead(v, name, ParseInts(Fields(inner)))
    {
      UpperIsName(name);
      var rest := ['('] + inner + [')'];
      assert line == name + "=" + rest;
      AssignmentSplits(line, name, rest);
      EnclosedIs(rest, '(', ')');
      NotBoth(rest);
    }
    if Assignment(line).Some? {
      var (name, rest) := Assignment(line).value;
      AssignmentFound(line);
      UpperIsName(name);
      EnclosedIs(rest, '"', '"');
      EnclosedIs(rest, '(', ')');
      if Enclosed(rest, '"', '"') {
        assert line == name + "=\"" + Inner(rest) + "\"";
        assert IsScalar(line, name, Inner(rest));
      } else if Enclosed(rest, '(', ')') {
        assert line == name + "=(" + Inner(rest) + ")";
        assert IsArray(line, name, Inner(rest));
      }
    }
  }

  lemma NotBoth(s: string)
    ensures Enclosed(s, '(', ')') ==> !Enclosed(s, '"', '"')
  {
  }

  /** Without the line of a setting there is none, and the file is refused. */
  lemma {:induction false} UnsetStays(v: Vars, lines: seq<string>)
    ensures ReadLines(v, lines).Success? ==>
              var w := ReadLines(v, lines).value;
              && ((forall i, value :: 0 <= i < |lines| ==> !IsScalar(Trim(lines[i]), "DOMAIN_NAME", value)) ==> w.domain == v.domain)
              && ((forall i, value :: 0 <= i < |lines| ==> !IsScalar(Trim(lines[i]), "ENDORSEMENT_POLICY", value)) ==> w.policy == v.policy)
              && ((forall i, inner :: 0 <= i < |lines| ==> !IsArray(Trim(lines[i]), "ORG_INDICES", inner)) ==> w.orgs == v.orgs)
              && ((forall i, inner :: 0 <= i < |lines| ==> !IsArray(Trim(lines[i]), "PEER_INDICES", inner)) ==> w.peers == v.peers)
              && ((forall i, inner :: 0 <= i < |lines| ==> !IsArray(Trim(lines[i]), "ORDERER_INDICES", inner)) ==> w.orderers == v.orderers)
    decreases |lines|
  {
    hide Trim, IsScalar, IsArray, ReadLine;
    if lines != [] && ReadLine(v, lines[0]).Success? {
      OneUnsetStays(v, lines[0]);
      UnsetStays(ReadLine(v, lines[0]).value, lines[1..]);
      assert forall i :: 0 <= i < |lines[1..]| ==> lines[1..][i] == lines[i+1];
    }
  }

  lemma OneUnsetStays(v: Vars, raw: string)
    requires ReadLine(v, raw).Success?
    ensures
      var w := ReadLine(v, raw).value;
      && ((forall value :: !IsScalar(Trim(raw), "DOMAIN_NAME", value)) ==> w.domain == v.domain)
      && ((forall value :: !IsScalar(Trim(raw), "ENDORSEMENT_POLICY", value)) ==> w.policy == v.policy)
      && ((forall inner :: !IsArray(Trim(raw), "ORG_INDICES", inner)) ==> w.orgs == v.orgs)
      && ((forall inner :: !IsArray(Trim(raw), "PEER_INDICES", inner)) ==> w.peers == v.peers)
      && ((forall inner :: !IsArray(Trim(raw), "ORDERER_INDICES", inner)) ==> w.orderers == v.orderers)
  {
    hide Trim, IsScalar, IsArray, ReadLine, ParseInts, Fields, SetScalar, SetArray;
    assert |raw| < 65536 by {
      TooLongFails(v, raw);
    }
    LineMeans(v, raw);
    if name, value :| IsScalar(Trim(raw), name, value) {
      ScalarKeeps(v, name, value);
    } else if name, inner :| IsArray(Trim(raw), name, inner) {
      assert ReadLine(v, raw) == ArrayRead(v, name, ParseInts(Fields(inner)));
      ArrayKeeps(v, name, ParseInts(Fields(inner)).value);
    }
  }

  lemma TooLongFails(v: Vars, raw: string)
    ensures ReadLine(v, raw).Success? ==> |raw| < 65536
  {
    hide Trim, ParseInts, Fields, Assignment;
  }

  lemma ScalarKeeps(v: Vars, name: string, value: string)
    ensures
      var w := SetScalar(v, name, value);
      && w.orgs == v.orgs && w.peers == v.peers && w.orderers == v.orderers
      && (name != "DOMAIN_NAME" ==> w.domain == v.domain) && (name != "ENDORSEMENT_POLICY" ==> w.policy == v.policy)
  {
  }

  lemma ArrayKeeps(v: Vars, name: string, ns: seq<int>)
    ensures
      var w := SetArray(v, name, ns);
      && w.domain == v.domain && w.policy == v.policy && (name != "ORG_INDICES" ==> w.orgs == v.orgs)
      && (name != "PEER_INDICES" ==> w.peers == v.peers) && (name != "ORDERER_INDICES" ==> w.orderers == v.orderers)
  {
  }

  /** A file without one of its settings is refused, and without ORDERER_INDICES
      there is one orderer. */
  lemma {:induction false} MissingSetting(text: string)
    requires ReadLines(NO_VARS, Lines(text)).Success?
    ensures
      var ls := Lines(text);
      && ((forall i, value :: 0 <= i < |ls| ==> !IsScalar(Trim(ls[i]), "DOMAIN_NAME", value)) ==> ReadText(text) == Failure(NoDomain))
      && ((forall i, value :: 0 <= i < |ls| ==> !IsScalar(Trim(ls[i]), "ENDORSEMENT_POLICY", value)) ==> ReadText(text).Failure?)
      && ((forall i, inner :: 0 <= i < |ls| ==> !IsArray(Trim(ls[i]), "ORG_INDICES", inner)) ==> ReadText(text).Failure?)
      && ((forall i, inner :: 0 <= i < |ls| ==> !IsArray(Trim(ls[i]), "PEER_INDICES", inner)) ==> ReadText(text).Failure?)
      && ((forall i, inner :: 0 <= i < |ls| ==> !IsArray(Trim(ls[i]), "ORDERER_INDICES", inner)) && ReadText(text).Success? ==>
            ReadText(text).value.orderers == [0])
  {
    hide ReadLines, Lines, IsScalar, IsArray, Trim;
    UnsetStays(NO_VARS, Lines(text));
  }

  /******* What generate writes *******/

  function Texts(ns: seq<int>): (ts: seq<string>)
    ensures |ts| == |ns| && forall i :: 0 <= i < |ns| ==> ts[i] == Itoa(ns[i])
  {
    if ns == [] then [] else [Itoa(ns[0])] + Texts(ns[1..])
  }

  /** The template's join of integers. */
  method JoinInts(v: seq<int>, sep: string) returns (text: string)
    ensures text == Join(Texts(v), sep)
  {
    var s := new string[|v|];
    for i := 0 to |v|
      invariant forall k :: 0 <= k < i ==> s[k] == Itoa(v[k])
    {
      s[i] := Itoa(v[i]);
    }
    assert s[..] == Texts(v);
    text := Join(s[..], sep);
  }

  function ScalarLine(name: string, value: string): string {
    name + "=" + ("\"" + value + "\"")
  }

  function ArrayLine(name: string, words: seq<string>): string {
    name + "=" + ("( " + Join(words, " ") + " )")
  }

  function VariablesLines(domain: string, orgs: seq<string>, peers: seq<string>, orderers: seq<string>, policy: string): seq<string> {
    ["#!/usr/bin/env false", "", ScalarLine("DOMAIN_NAME", domain), ArrayLine("ORG_INDICES", orgs),
     ArrayLine("PEER_INDICES", peers), ArrayLine("ORDERER_INDICES", orderers), ScalarLine("ENDORSEMENT_POLICY", policy)]
  }

  /** The template's lines, each with its newline. */
  function Written(lines: seq<string>): string {
    if lines == [] then "" else lines[0] + "\n" + Written(lines[1..])
  }

  method RenderVariables(n: Topology.Network) returns (text: string)
    ensures text == Written(VariablesLines(n.options.domain, OrgTexts(n.orgs), n.peerIndices, Texts(IndicesOf(n.orderers)), n.policy))
  {
    var orgs := [];
    for i := 0 to |n.orgs|
      invariant orgs == OrgTexts(n.orgs[..i])
    {
      assert n.orgs[..i+1][..i] == n.orgs[..i];
      orgs := orgs + [n.orgs[i].index];
    }
    assert n.orgs[..|n.orgs|] == n.orgs;
    var indices := new int[|n.orderers|];
    for i := 0 to |n.orderers|
      invariant forall k :: 0 <= k < i ==> indices[k] == n.orderers[k].index
    {
      indices[i] := n.orderers[i].index;
    }
    assert indices[..] == IndicesOf(n.orderers);
    var orderers := JoinInts(indices[..], " ");
    text := Written(["#!/usr/bin/env false", "", "DOMAIN_NAME" + "=" + ("\"" + n.options.domain + "\""),
                     "ORG_INDICES" + "=" + ("( " + Join(orgs, " ") + " )"),
                     "PEER_INDICES" + "=" + ("( " + Join(n.peerIndices, " ") + " )"),
                     "ORDERER_INDICES" + "=" + ("( " + orderers + " )"),
                     "ENDORSEMENT_POLICY" + "=" + ("\"" + n.policy + "\"")]);
  }

  function OrgTexts(orgs: seq<Topology.Org>): (ts: seq<string>)
    ensures |ts| == |orgs| && forall i :: 0 <= i < |orgs| ==> ts[i] == orgs[i].index
  {
    if orgs == [] then [] else OrgTexts(orgs[..|orgs|-1]) + [orgs[|orgs|-1].index]
  }

  function IndicesOf(orderers: seq<Topology.Orderer>): (ns: seq<int>)
    ensures |ns| == |orderers| && forall i :: 0 <= i < |orderers| ==> ns[i] == orderers[i].index
  {
    if orderers == [] then [] else [orderers[0].index] + IndicesOf(orderers[1..])
  }

  /******* The way back *******/

  /** The last line needs no newline. */
  lemma LastLine(l: string)
    requires '\n' !in l && l != ""
    ensures Lines(l) == [l] && Lines("") == []
  {
    IndexOfFirst(l, |l|, '\n');
  }

  lemma LineFirst(l: string, rest: string)
    requires '\n' !in l
    ensures Lines(l + "\n" + rest) == [l] + Lines(rest)
  {
    var s := l + "\n" + rest;
    assert forall i :: 0 <= i < |l| ==> s[i] == l[i] && l[i] in l;
    IndexOfFirst(s, |l|, '\n');
    assert s[..|l|] == l && s[|l|+1..] == rest;
  }

  lemma {:induction false} LinesWritten(lines: seq<string>)
    requires forall i :: 0 <= i < |lines| ==> '\n' !in lines[i]
    ensures Lines(Written(lines)) == lines
    decreases |lines|
  {
    if lines != [] {
      hide Lines;
      LineFirst(lines[0], Written(lines[1..]));
      LinesWritten(lines[1..]);
    }
  }

  lemma AssignmentIs(name: string, rest: string)
    requires IsName(name) && rest != "" && !IsSpace(rest[|rest|-1])
    ensures Assignment(Trim(name + "=" + rest)) == Some((name, rest))
  {
    var line := name + "=" + rest;
    assert NameChar(line[0]) && line[|line|-1] == rest[|rest|-1];
    assert forall i :: 0 <= i < |name| ==> NameChar(line[i]);
    IndexOfFirst(line, |name|, '=');
    assert line[..|name|] == name && line[|name|+1..] == rest;
  }

  lemma NamesAreNames()
    ensures IsName("DOMAIN_NAME") && IsName("ORG_INDICES") && IsName("PEER_INDICES")
    ensures IsName("ORDERER_INDICES") && IsName("ENDORSEMENT_POLICY")
  {
  }

  lemma ScalarIsRead(v: Vars, name: string, value: string)
    requires IsName(name)
    ensures ReadLine(v, ScalarLine(name, value)) ==
            if |ScalarLine(name, value)| > MAX_LINE then Failure(LineTooLong) else Success(SetScalar(v, name, value))
  {
    hide Trim, Assignment;
    var rest := "\"" + value + "\"";
    AssignmentIs(name, rest);
    assert Inner(rest) == value;
  }

  predicate IsWord(w: string) {
    w != "" && forall i :: 0 <= i < |w| ==> !IsSpace(w[i])
  }

  lemma FieldsWord(w: string, rest: string)
    requires IsWord(w) && rest != "" && IsSpace(rest[0])
    ensures Fields(w + rest) == [w] + Fields(rest)
  {
    hide IsSpace;
    WordHead(w, rest);
    assert (w + rest)[..|w|] == w && (w + rest)[|w|..] == rest;
  }

  /** White space separates words wherever it stands... */
  lemma {:induction false} FieldsSplit(a: string, c: char, b: string)
    requires IsSpace(c)
    ensures Fields(a + [c] + b) == Fields(a) + Fields(b)
    decreases |a|
  {
    hide IsSpace, Fields;
    var s := a + [c] + b;
    FieldsHead(s);
    FieldsHead(a);
    if a == "" {
      assert s[1..] == b;
    } else if IsSpace(a[0]) {
      FieldsSplit(a[1..], c, b);
      assert s[1..] == a[1..] + [c] + b;
    } else {
      var k := WordLength(a);
      WordEnds(a, [c] + b);
      assert s == a + ([c] + b) && s[..k] == a[..k] && s[k..] == a[k..] + [c] + b;
      FieldsSplit(a[k..], c, b);
    }
  }

  lemma FieldsHead(s: string)
    ensures s == "" ==> Fields(s) == []
    ensures s != "" && IsSpace(s[0]) ==> Fields(s) == Fields(s[1..])
    ensures s != "" && !IsSpace(s[0]) ==> Fields(s) == [s[..WordLength(s)]] + Fields(s[WordLength(s)..])
  {
    hide IsSpace;
  }

  lemma {:induction false} WordEnds(a: string, rest: string)
    requires rest != "" && IsSpace(rest[0])
    ensures WordLength(a + rest) == WordLength(a)
    decreases |a|
  {
    hide IsSpace;
    if a == "" {
      assert a + rest == rest;
    } else {
      assert (a + rest)[1..] == a[1..] + rest;
      WordEnds(a[1..], rest);
    }
  }

  /** ...and text without any is one word. */
  lemma FieldsOfWord(w: string)
    requires IsWord(w)
    ensures Fields(w) == [w] && Fields("") == []
  {
    WholeWord(w);
    assert w[..|w|] == w && w[|w|..] == "";
  }

  lemma {:induction false} WholeWord(w: string)
    requires forall i :: 0 <= i < |w| ==> !IsSpace(w[i])
    ensures WordLength(w) == |w|
    decreases |w|
  {
    hide IsSpace;
    if w != "" {
      WholeWord(w[1..]);
    }
  }

  lemma FieldsSpace(s: string)
    ensures Fields(" " + s) == Fields(s)
  {
    SpaceIsSpace();
    hide IsSpace;
    assert (" " + s)[1..] == s;
  }

  lemma {:induction false} WordsAreFields(words: seq<string>)
    requires forall i :: 0 <= i < |words| ==> IsWord(words[i])
    ensures Fields(Join(words, " ") + " ") == words
    decreases |words|
  {
    SpaceIsSpace();
    hide IsSpace, Fields, IsWord;
    if words == [] {
      assert Join(words, " ") + " " == " " + "";
      FieldsSpace("");
      assert Fields("") == [] by {
        NoFields();
      }
    } else {
      var tail := Join(words[1..], " ") + " ";
      WordsAreFields(words[1..]);
      if |words| == 1 {
        assert words[1..] == [] && tail == " ";
        FieldsWord(words[0], tail);
      } else {
        assert Join(words, " ") + " " == words[0] + (" " + tail);
        FieldsWord(words[0], " " + tail);
        FieldsSpace(tail);
      }
    }
  }

  lemma NoFields()
    ensures Fields("") == []
  {
  }

  lemma SpaceIsSpace()
    ensures IsSpace(' ')
  {
  }

  lemma {:induction false} WordHead(w: string, rest: string)
    requires IsWord(w) && rest != "" && IsSpace(rest[0])
    ensures WordLength(w + rest) == |w| && !IsSpace((w + rest)[0])
    decreases |w|
  {
    hide IsSpace;
    assert (w + rest)[0] == w[0] && (w + rest)[1..] == w[1..] + rest;
    if |w| > 1 {
      WordHead(w[1..], rest);
    } else {
      assert w[1..] + rest == rest;
    }
  }

  lemma DigitsAreWord(w: string)
    requires w != "" && AllDigits(w)
    ensures IsWord(w) && '\n' !in w
  {
    assert forall i :: 0 <= i < |w| ==> IsDigit(w[i]);
  }

  lemma {:induction false} TextsParse(ns: seq<int>)
    requires forall i :: 0 <= i < |ns| ==> MIN_INT <= ns[i] <= MAX_INT
    ensures ParseInts(Texts(ns)) == Success(ns)
    decreases |ns|
  {
    hide Atoi, Itoa;
    if ns != [] {
      AtoiItoa(ns[0]);
      TextsParse(ns[1..]);
      assert Texts(ns)[1..] == Texts(ns[1..]);
      assert [ns[0]] + ns[1..] == ns;
    }
  }

  lemma ArrayIsRead(v: Vars, name: string, ns: seq<int>)
    requires IsName(name) && forall i :: 0 <= i < |ns| ==> 0 <= ns[i] <= MAX_INT
    ensures ReadLine(v, ArrayLine(name, Texts(ns))) ==
            if |ArrayLine(name, Texts(ns))| > MAX_LINE then Failure(LineTooLong) else Success(SetArray(v, name, ns))
  {
    hide Trim, Assignment, IsSpace, Itoa, ParseInts, Join, Texts, SetArray;
    var words := Join(Texts(ns), " ");
    var rest := "( " + words + " )";
    assert !IsSpace(')') by {
      ParenIsNoSpace();
    }
    AssignmentIs(name, rest);
    assert Inner(rest) == " " + (words + " ");
    SpaceIsSpace();
    assert (" " + (words + " "))[1..] == words + " ";
    forall i | 0 <= i < |ns| ensures IsWord(Texts(ns)[i]) {
      DigitsAreWord(Itoa(ns[i]));
    }
    WordsAreFields(Texts(ns));
    TextsParse(ns);
  }

  lemma ParenIsNoSpace()
    ensures !IsSpace(')')
  {
  }

  lemma CommentIsSkipped(v: Vars, line: string)
    requires 0 < |line| <= MAX_LINE && line[0] == '#' && !IsSpace(line[|line|-1])
    ensures ReadLine(v, line) == Success(v)
  {
    assert Trim(line) == line;
    assert !NameChar(line[0]);
  }

  lemma FirstLines(v: Vars)
    ensures ReadLine(v, "#!/usr/bin/env false") == Success(v) && ReadLine(v, "") == Success(v)
  {
    CommentIsSkipped(v, "#!/usr/bin/env false");
  }

  function From(lo: int, hi: int): (ns: seq<int>)
    requires lo <= hi
    ensures |ns| == hi - lo && forall i :: 0 <= i < |ns| ==> ns[i] == lo + i
  {
    seq(hi - lo, i requires 0 <= i < hi - lo => lo + i)
  }

  ghost predicate Short(lines: seq<string>) {
    forall l :: l in lines ==> |l| < 65536
  }

  lemma {:induction false} JoinIsLong(words: seq<string>, sep: string)
    requires forall i :: 0 <= i < |words| ==> words[i] != ""
    ensures |words| <= |Join(words, sep)|
    decreases |words|
  {
    if |words| > 1 {
      JoinIsLong(words[1..], sep);
    }
  }

  lemma NumbersOneLine(ns: seq<int>)
    requires forall i :: 0 <= i < |ns| ==> ns[i] >= 0
    ensures '\n' !in Join(Texts(ns), " ") && |ns| <= |Join(Texts(ns), " ")|
  {
    forall i | 0 <= i < |ns| ensures '\n' !in Texts(ns)[i] && Texts(ns)[i] != "" {
      DigitsAreWord(Itoa(ns[i]));
    }
    JoinAvoids(Texts(ns), " ", '\n');
    JoinIsLong(Texts(ns), " ");
  }

  lemma ReadStep(v: Vars, l: string, rest: seq<string>, v': Vars)
    requires ReadLine(v, l) == Success(v')
    ensures ReadLines(v, [l] + rest) == ReadLines(v', rest)
  {
    assert ([l] + rest)[1..] == rest;
  }

  /** The lines of one network's file. */
  function FileLines(v: Vars): (ls: seq<string>)
    ensures |ls| == 7
  {
    VariablesLines(v.domain, Texts(v.orgs), Texts(v.peers), Texts(v.orderers), v.policy)
  }

  /** A network's values: org numbers from 1, peer and orderer numbers from 0. */
  predicate Numbered(v: Vars) {
    && v.orgs != [] && v.peers != [] && v.orderers != []
    && v.orgs == From(1, |v.orgs| + 1) && v.peers == From(0, |v.peers|) && v.orderers == From(0, |v.orderers|)
  }

  lemma ReadSeven(v: Vars, a: string, b: string, c: string, d: string, e: string, f: string, g: string,
                  v2: Vars, v3: Vars, v4: Vars, v5: Vars, v6: Vars)
    requires ReadLine(v, a) == ReadLine(v, b) == Success(v)
    requires ReadLine(v, c) == Success(v2) && ReadLine(v2, d) == Success(v3) && ReadLine(v3, e) == Success(v4)
    requires ReadLine(v4, f) == Success(v5) && ReadLine(v5, g) == Success(v6)
    ensures ReadLines(v, [a, b, c, d, e, f, g]) == Success(v6)
  {
    hide ReadLine, ReadLines;
    ReadNothing(v6);
    ReadStep(v5, g, [], v6);
    ReadStep(v4, f, [g], v5);
    ReadStep(v3, e, [f, g], v4);
    ReadStep(v2, d, [e, f, g], v3);
    ReadStep(v, c, [d, e, f, g], v2);
    ReadStep(v, b, [c, d, e, f, g], v);
    ReadStep(v, a, [b, c, d, e, f, g], v);
    assert [g] + [] == [g] && [f] + [g] == [f, g] && [e] + [f, g] == [e, f, g] && [d] + [e, f, g] == [d, e, f, g];
    assert [c] + [d, e, f, g] == [c, d, e, f, g] && [b] + [c, d, e, f, g] == [b, c, d, e, f, g];
    assert [a] + [b, c, d, e, f, g] == [a, b, c, d, e, f, g];
  }

  /** The lines of a file without ORDERER_INDICES. */
  function OldLines(v: Vars): seq<string> {
    FileLines(v)[..5] + [FileLines(v)[6]]
  }

  lemma OldLinesAreRead(v: Vars)
    requires Numbered(v) && Short(FileLines(v))
    ensures ReadLines(NO_VARS, OldLines(v)) == Success(v.(orderers := []))
  {
    hide ReadLine, ReadLines, ScalarLine, ArrayLine, Texts, IsName, SetScalar, SetArray;
    var ls := FileLines(v);
    assert forall i :: 0 <= i < |ls| ==> ls[i] in ls && |ls[i]| <= MAX_LINE;
    NamesAreNames();
    var v2 := NO_VARS.(domain := v.domain);
    var v3 := v2.(orgs := v.orgs);
    var v4 := v3.(peers := v.peers);
    FirstLines(NO_VARS);
    ScalarIsRead(NO_VARS, "DOMAIN_NAME", v.domain);
    IndicesAreRead(v2, "ORG_INDICES", v.orgs);
    IndicesAreRead(v3, "PEER_INDICES", v.peers);
    ScalarIsRead(v4, "ENDORSEMENT_POLICY", v.policy);
    ScalarSettings(NO_VARS, v.domain);
    ArraySettings(v2, v.orgs);
    ArraySettings(v3, v.peers);
    ScalarSettings(v4, v.policy);
    ReadSix(NO_VARS, ls[0], ls[1], ls[2], ls[3], ls[4], ls[6], v2, v3, v4, v4.(policy := v.policy));
    assert OldLines(v) == [ls[0], ls[1], ls[2], ls[3], ls[4], ls[6]];
  }

  /** The file of a builder that did not write ORDERER_INDICES is read as that of a
      network with the one orderer 0. */
  lemma {:induction false} OldFileIsRead(v: Vars)
    requires Numbered(v) && v.orderers == [0] && v.policy != "" && '\n' !in v.policy && v.domain != "" && '\n' !in v.domain
    requires Short(FileLines(v))
    ensures ReadText(Written(OldLines(v))) == Success(v)
  {
    hide ReadLines, FileLines, Lines, Written, Short;
    OldLinesAreRead(v);
    FileLinesOneLine(v);
    LinesWritten(OldLines(v));
    NumberedIs(v);
  }

  lemma ReadSix(v: Vars, a: string, b: string, c: string, d: string, e: string, f: string, v2: Vars, v3: Vars, v4: Vars, v5: Vars)
    requires ReadLine(v, a) == ReadLine(v, b) == Success(v)
    requires ReadLine(v, c) == Success(v2) && ReadLine(v2, d) == Success(v3) && ReadLine(v3, e) == Success(v4)
    requires ReadLine(v4, f) == Success(v5)
    ensures ReadLines(v, [a, b, c, d, e, f]) == Success(v5)
  {
    hide ReadLine, ReadLines;
    ReadNothing(v5);
    ReadStep(v4, f, [], v5);
    ReadStep(v3, e, [f], v4);
    ReadStep(v2, d, [e, f], v3);
    ReadStep(v, c, [d, e, f], v2);
    ReadStep(v, b, [c, d, e, f], v);
    ReadStep(v, a, [b, c, d, e, f], v);
    assert [f] + [] == [f] && [e] + [f] == [e, f] && [d] + [e, f] == [d, e, f];
    assert [c] + [d, e, f] == [c, d, e, f] && [b] + [c, d, e, f] == [b, c, d, e, f];
    assert [a] + [b, c, d, e, f] == [a, b, c, d, e, f];
  }

  lemma ShortLinesAreRead(v: Vars)
    requires Numbered(v) && Short(FileLines(v))
    ensures ReadLines(NO_VARS, FileLines(v)) == Success(v)
  {
    hide ReadLine, ReadLines, ScalarLine, ArrayLine, Texts, IsName, SetScalar, SetArray;
    var ls := FileLines(v);
    assert forall i :: 0 <= i < |ls| ==> ls[i] in ls && |ls[i]| <= MAX_LINE;
    NamesAreNames();
    var v2 := NO_VARS.(domain := v.domain);
    var v3 := v2.(orgs := v.orgs);
    var v4 := v3.(peers := v.peers);
    var v5 := v4.(orderers := v.orderers);
    FirstLines(NO_VARS);
    ScalarIsRead(NO_VARS, "DOMAIN_NAME", v.domain);
    IndicesAreRead(v2, "ORG_INDICES", v.orgs);
    IndicesAreRead(v3, "PEER_INDICES", v.peers);
    IndicesAreRead(v4, "ORDERER_INDICES", v.orderers);
    ScalarIsRead(v5, "ENDORSEMENT_POLICY", v.policy);
    ScalarSettings(NO_VARS, v.domain);
    ArraySettings(v2, v.orgs);
    ArraySettings(v3, v.peers);
    ArraySettings(v4, v.orderers);
    ScalarSettings(v5, v.policy);
    ReadSeven(NO_VARS, ls[0], ls[1], ls[2], ls[3], ls[4], ls[5], ls[6], v2, v3, v4, v5, v);
    assert ls == [ls[0], ls[1], ls[2], ls[3], ls[4], ls[5], ls[6]];
  }

  /** Which setting each name is. */
  lemma ScalarSettings(w: Vars, value: string)
    ensures SetScalar(w, "DOMAIN_NAME", value) == w.(domain := value)
    ensures SetScalar(w, "ENDORSEMENT_POLICY", value) == w.(policy := value)
  {
    assert |"DOMAIN_NAME"| == 11 && |"ENDORSEMENT_POLICY"| == 18;
  }

  lemma ArraySettings(w: Vars, ns: seq<int>)
    ensures SetArray(w, "ORG_INDICES", ns) == w.(orgs := ns)
    ensures SetArray(w, "PEER_INDICES", ns) == w.(peers := ns)
    ensures SetArray(w, "ORDERER_INDICES", ns) == w.(orderers := ns)
  {
    assert |"ORG_INDICES"| == 11 && |"PEER_INDICES"| == 12 && |"ORDERER_INDICES"| == 15;
  }

  lemma ReadNothing(v: Vars)
    ensures ReadLines(v, []) == Success(v)
  {
  }

  /** A short line holds few numbers, so none of them is too large. */
  lemma IndicesAreRead(v: Vars, name: string, ns: seq<int>)
    requires IsName(name) && |ArrayLine(name, Texts(ns))| <= MAX_LINE
    requires forall i :: 0 <= i < |ns| ==> 0 <= ns[i] <= i + 1
    ensures ReadLine(v, ArrayLine(name, Texts(ns))) == Success(SetArray(v, name, ns))
  {
    NumbersOneLine(ns);
    ArrayIsRead(v, name, ns);
  }

  lemma {:induction false} LongLineFails(v: Vars, lines: seq<string>)
    requires !Short(lines)
    ensures ReadLines(v, lines).Failure?
    decreases |lines|
  {
    var l :| l in lines && |l| > MAX_LINE;
    match ReadLine(v, lines[0])
    case Failure(_) =>
    case Success(v') =>
      assert l in lines[1..];
      LongLineFails(v', lines[1..]);
  }

  lemma TrimIsPart(s: string)
    ensures '\n' !in s ==> '\n' !in Trim(s)
  {
    TrimLeftIsPart(s);
    TrimRightIsPart(TrimLeft(s));
  }

  lemma {:induction false} TrimLeftIsPart(s: string)
    ensures '\n' !in s ==> '\n' !in TrimLeft(s)
    decreases |s|
  {
    hide IsSpace;
    if s != "" {
      TrimLeftIsPart(s[1..]);
    }
  }

  lemma {:induction false} TrimRightIsPart(s: string)
    ensures '\n' !in s ==> '\n' !in TrimRight(s)
    decreases |s|
  {
    hide IsSpace;
    if s != "" {
      TrimRightIsPart(s[..|s|-1]);
    }
  }

  /** No domain that was read has a newline in it. */
  lemma {:induction false} DomainIsOneLine(v: Vars, lines: seq<string>)
    requires '\n' !in v.domain && forall l :: l in lines ==> '\n' !in l
    ensures ReadLines(v, lines).Success? ==> '\n' !in ReadLines(v, lines).value.domain
    decreases |lines|
  {
    hide Trim, Assignment, ParseInts, Fields;
    if lines != [] {
      LineIsOneLine(v, lines[0]);
      match ReadLine(v, lines[0])
      case Failure(_) =>
      case Success(v') => DomainIsOneLine(v', lines[1..]);
    }
  }

  lemma LineIsOneLine(v: Vars, line: string)
    requires '\n' !in v.domain && '\n' !in line
    ensures ReadLine(v, line).Success? ==> '\n' !in ReadLine(v, line).value.domain
  {
    hide Trim, ParseInts, Fields;
    TrimIsPart(line);
  }

  /** ReadVars gives back what generate wrote exactly when the domain is one line
      and not empty, and every line fits the scanner. */
  lemma {:induction false} VariablesRoundTrip(v: Vars)
    requires Numbered(v) && v.policy != "" && '\n' !in v.policy
    ensures ReadText(Written(FileLines(v))) == Success(v) <==>
            v.domain != "" && '\n' !in v.domain && Short(Lines(Written(FileLines(v))))
  {
    hide ReadLines, Short, Lines, Written, FileLines, Numbered;
    var text := Written(FileLines(v));
    DomainIsOneLine(NO_VARS, Lines(text));
    if !Short(Lines(text)) {
      LongLineFails(NO_VARS, Lines(text));
    } else if v.domain != "" && '\n' !in v.domain {
      FileLinesAre(v);
      ShortLinesAreRead(v);
      NumberedIs(v);
    }
  }

  lemma NumberedIs(v: Vars)
    requires Numbered(v)
    ensures v.orgs != [] && v.peers != [] && v.orderers != []
  {
  }

  lemma ScalarOneLine(name: string, value: string)
    requires IsName(name) && '\n' !in value
    ensures '\n' !in ScalarLine(name, value)
  {
    NameOneLine(name);
    AroundOneLine("\"", value, "\"");
    AroundOneLine(name, "=", "\"" + value + "\"");
  }

  lemma ArrayOneLine(name: string, ns: seq<int>)
    requires IsName(name) && forall i :: 0 <= i < |ns| ==> ns[i] >= 0
    ensures '\n' !in ArrayLine(name, Texts(ns))
  {
    hide Itoa, Texts, Join;
    NumbersOneLine(ns);
    NameOneLine(name);
    AroundOneLine("( ", Join(Texts(ns), " "), " )");
    AroundOneLine(name, "=", "( " + Join(Texts(ns), " ") + " )");
  }

  lemma NameOneLine(name: string)
    requires IsName(name)
    ensures '\n' !in name
  {
  }

  lemma AroundOneLine(a: string, b: string, c: string)
    requires '\n' !in a && '\n' !in b && '\n' !in c
    ensures '\n' !in a + b + c
  {
  }

  lemma FileLinesAre(v: Vars)
    requires Numbered(v) && '\n' !in v.policy && '\n' !in v.domain
    ensures Lines(Written(FileLines(v))) == FileLines(v)
  {
    hide Lines, Written, FileLines;
    FileLinesOneLine(v);
    LinesWritten(FileLines(v));
  }

  lemma FileLinesOneLine(v: Vars)
    requires Numbered(v) && '\n' !in v.policy && '\n' !in v.domain
    ensures forall i :: 0 <= i < |FileLines(v)| ==> '\n' !in FileLines(v)[i]
  {
    hide ScalarLine, ArrayLine, Texts;
    NamesAreNames();
    ScalarOneLine("DOMAIN_NAME", v.domain);
    ScalarOneLine("ENDORSEMENT_POLICY", v.policy);
    ArrayOneLine("ORG_INDICES", v.orgs);
    ArrayOneLine("PEER_INDICES", v.peers);
    ArrayOneLine("ORDERER_INDICES", v.orderers);
    var ls := FileLines(v);
    assert forall i :: 0 <= i < |ls| ==> '\n' !in ls[i] by {
      assert '\n' !in "#!/usr/bin/env false";
    }
  }

  lemma NetworkTexts(n: Topology.Network)
    requires n.options.orgCount >= 1 && n.options.peerCount >= 1 && n.options.ordererCount >= 1 && n.NodesComputed()
    ensures OrgTexts(n.orgs) == Texts(From(1, n.options.orgCount + 1))
    ensures n.peerIndices == Texts(From(0, n.options.peerCount))
    ensures IndicesOf(n.orderers) == From(0, n.options.ordererCount)
  {
    hide Itoa, Topology.PeerRows;
  }

  /** For every network that generate computes, ReadVars gives back its domain,
      its policy and its index lists, on the same condition. */
  lemma {:induction false} NetworkIsReadBack(n: Topology.Network)
    requires n.options.orgCount >= 1 && n.options.peerCount >= 1 && n.options.ordererCount >= 1
    requires n.NodesComputed() && n.PoliciesComputed()
    ensures
      var o := n.options;
      var text := Written(VariablesLines(o.domain, OrgTexts(n.orgs), n.peerIndices, Texts(IndicesOf(n.orderers)), n.policy));
      var v := Vars(o.domain, n.policy, From(1, o.orgCount + 1), From(0, o.peerCount), From(0, o.ordererCount));
      ReadText(text) == Success(v) <==> o.domain != "" && '\n' !in o.domain && Short(Lines(text))
  {
    NetworkTexts(n);
    NetworkVars(n);
    hide VariablesLines, Written, Lines, ReadText, Short, Texts, OrgTexts, IndicesOf, From, Numbered;
    var o := n.options;
    VariablesRoundTrip(Vars(o.domain, n.policy, From(1, o.orgCount + 1), From(0, o.peerCount), From(0, o.ordererCount)));
  }

  lemma NetworkVars(n: Topology.Network)
    requires n.options.orgCount >= 1 && n.options.peerCount >= 1 && n.options.ordererCount >= 1 && n.PoliciesComputed()
    ensures
      var o := n.options;
      Numbered(Vars(o.domain, n.policy, From(1, o.orgCount + 1), From(0, o.peerCount), From(0, o.ordererCount)))
    ensures n.policy != "" && '\n' !in n.policy
  {
    hide PolicyText, Endorsement, Split, Topology.AllCollections;
    EndorsementOneLine(StructureOf(n.options.privateStructure), n.options.orgCount);
  }
}
