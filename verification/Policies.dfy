/** Endorsement policies, the pairs of orgs that share a collection, and majorities. */
module Policies {
  import opened Wrappers
  import opened Decimal
  import opened Strings

  datatype Collection = Collection(name: string, policy: string, required: int, max: int)

  /** The peer counts that all collections of a network have. */
  datatype Counts = Counts(required: int, max: int)

  /******* Policies *******/

  datatype Policy =
    | Member(org: nat)
    | AnyOf(word: string, sep: string, rules: seq<Policy>)
    | OutOf(n: nat, rules: seq<Policy>)

  function MemberText(org: nat): string {
    "'Org" + Itoa(org) + "MSP.member'"
  }

  /** The rule as policydsl reads it. */
  function PolicyText(p: Policy): string {
    match p
    case Member(i) => MemberText(i)
    case AnyOf(word, sep, rules) => word + "(" + Join(RuleTexts(rules), sep) + ")"
    case OutOf(n, rules) => "OutOf(" + Itoa(n) + ", " + Join(RuleTexts(rules), ", ") + ")"
  }

  function RuleTexts(rules: seq<Policy>): seq<string> {
    if rules == [] then [] else RuleTexts(rules[..|rules|-1]) + [PolicyText(rules[|rules|-1])]
  }

  /** Whether these orgs' members satisfy a policy by signing. */
  predicate Satisfied(p: Policy, signers: set<nat>) {
    match p
    case Member(i) => i in signers
    case AnyOf(_, _, rules) => Signed(rules, signers) >= 1
    case OutOf(n, rules) => Signed(rules, signers) >= n
  }

  function Signed(rules: seq<Policy>, signers: set<nat>): nat {
    if rules == [] then 0
    else Signed(rules[..|rules|-1], signers) + if Satisfied(rules[|rules|-1], signers) then 1 else 0
  }

  /** The orgs lo..hi. */
  function Members(lo: nat, hi: int): seq<Policy>
    decreases hi - lo
  {
    if lo > hi then [] else Members(lo, hi - 1) + [Member(hi)]
  }

  /** The orgs of lo..hi that sign. */
  function Present(signers: set<nat>, lo: nat, hi: nat): set<nat> {
    set i | i in signers && lo <= i <= hi
  }

  lemma SignedMore(ms: seq<Policy>, i: nat, signers: set<nat>)
    ensures Signed(ms + [Member(i)], signers) == Signed(ms, signers) + if i in signers then 1 else 0
  {
    assert (ms + [Member(i)])[..|ms|] == ms;
  }

  lemma {:induction false} MembersSigned(lo: nat, hi: nat, signers: set<nat>)
    requires lo >= 1
    ensures Signed(Members(lo, hi), signers) == |Present(signers, lo, hi)|
    decreases hi
  {
    hide Satisfied;
    if lo <= hi {
      MembersSigned(lo, hi - 1, signers);
      SignedMore(Members(lo, hi - 1), hi, signers);
      var was := Present(signers, lo, hi - 1);
      if hi in signers {
        assert Present(signers, lo, hi) == was + {hi};
      } else {
        assert Present(signers, lo, hi) == was;
      }
    } else {
      assert Present(signers, lo, hi) == {};
    }
  }

  datatype Structure = Common(vanity: seq<string>) | Choose2 | Shared

  const COMMON := "nchoose2common,"

  function StructureOf(text: string): Structure {
    if HasPrefix(text, COMMON) then Common(Split(text, ',')[1..])
    else if text == "nchoose2" then Choose2
    else Shared
  }

  /** nchoose2common with this list of vanity names. */
  predicate VanityText(text: string, vanity: seq<string>) {
    vanity != [] && (forall i :: 0 <= i < |vanity| ==> ',' !in vanity[i]) && text == "nchoose2common," + Join(vanity, ",")
  }

  lemma SplitVanity(vanity: seq<string>)
    requires vanity != [] && forall i :: 0 <= i < |vanity| ==> ',' !in vanity[i]
    ensures Split("nchoose2common," + Join(vanity, ","), ',') == ["nchoose2common"] + vanity
  {
    hide Split, Join;
    var head, rest := "nchoose2common", Join(vanity, ",");
    assert "nchoose2common," + rest == head + [','] + rest;
    SplitFirst(head, ',', rest);
    SplitJoin(vanity, ',');
  }

  lemma VanityOf(text: string) returns (vanity: seq<string>)
    requires HasPrefix(text, "nchoose2common,")
    ensures VanityText(text, vanity)
  {
    hide Split, Join;
    var head, rest := "nchoose2common", text[15..];
    assert text == "nchoose2common," + rest == head + [','] + rest;
    SplitFirst(head, ',', rest);
    JoinSplit(rest, ',');
    vanity := Split(rest, ',');
    assert forall i :: 0 <= i < |vanity| ==> vanity[i] in vanity;
  }

  /** The structure of every text. */
  lemma {:induction false} StructureIs(text: string)
    ensures text == "nchoose2" ==> StructureOf(text) == Choose2
    ensures forall vanity :: VanityText(text, vanity) ==> StructureOf(text) == Common(vanity)
    ensures HasPrefix(text, "nchoose2common,") <==> exists vanity :: VanityText(text, vanity)
    ensures text != "nchoose2" && !HasPrefix(text, "nchoose2common,") ==> StructureOf(text) == Shared
  {
    hide Split, Join;
    assert |"nchoose2"| == 8 && |"nchoose2common,"| == 15;
    forall vanity | VanityText(text, vanity) ensures StructureOf(text) == Common(vanity) {
      SplitVanity(vanity);
      assert (["nchoose2common"] + vanity)[1..] == vanity;
    }
    if HasPrefix(text, "nchoose2common,") {
      var vanity := VanityOf(text);
    }
  }

  function Endorsement(s: Structure, orgs: nat): Policy {
    match s
    case Common(_) => AnyOf("Or", ", ", [Member(1), OutOf(2, Members(2, orgs))])
    case Choose2 => OutOf(2, Members(1, orgs))
    case Shared => AnyOf("OR", ", ", Members(1, orgs))
  }

  lemma TextsOfTwo(a: Policy, b: Policy)
    ensures RuleTexts([a, b]) == [PolicyText(a), PolicyText(b)]
  {
    assert [a, b][..1] == [a] && [a][..0] == [];
    assert RuleTexts([a]) == RuleTexts([a][..0]) + [PolicyText(a)];
  }

  lemma TextsOfThree(a: Policy, b: Policy, c: Policy)
    ensures RuleTexts([a, b, c]) == [PolicyText(a), PolicyText(b), PolicyText(c)]
  {
    TextsOfTwo(a, b);
    assert [a, b, c][..2] == [a, b];
  }

  lemma JoinTwo(x: string, y: string, sep: string)
    ensures Join([x, y], sep) == x + sep + y
  {
    assert [x, y][1..] == [y];
  }

  lemma JoinThree(x: string, y: string, z: string, sep: string)
    ensures Join([x, y, z], sep) == x + sep + (y + sep + z)
  {
    JoinTwo(y, z, sep);
    assert [x, y, z][1..] == [y, z];
  }

  lemma PairText(a: nat, b: nat)
    ensures PolicyText(AnyOf("OR", ", ", [Member(a), Member(b)])) == "OR(" + (MemberText(a) + ", " + MemberText(b)) + ")"
  {
    TextsOfTwo(Member(a), Member(b));
    hide RuleTexts, MemberText;
    JoinTwo(MemberText(a), MemberText(b), ", ");
  }

  lemma TripleText(a: nat, b: nat, c: nat)
    ensures PolicyText(AnyOf("OR", ",", [Member(a), Member(b), Member(c)])) ==
            "OR(" + (MemberText(a) + "," + (MemberText(b) + "," + MemberText(c))) + ")"
  {
    TextsOfThree(Member(a), Member(b), Member(c));
    hide RuleTexts, MemberText;
    JoinThree(MemberText(a), MemberText(b), MemberText(c), ",");
  }

  lemma CommonText(vanity: seq<string>, orgs: nat)
    ensures PolicyText(Endorsement(Common(vanity), orgs)) ==
            "Or(" + (MemberText(1) + ", " + ("OutOf(2, " + Join(RuleTexts(Members(2, orgs)), ", ") + ")")) + ")"
  {
    var a, b := Member(1), OutOf(2, Members(2, orgs));
    TextsOfTwo(a, b);
    OutOfTwoText(Members(2, orgs));
    hide RuleTexts, MemberText, Members, Itoa;
    JoinTwo(PolicyText(a), PolicyText(b), ", ");
  }

  lemma OutOfTwoText(rules: seq<Policy>)
    ensures PolicyText(OutOf(2, rules)) == "OutOf(2, " + Join(RuleTexts(rules), ", ") + ")"
  {
    hide RuleTexts, Join;
    assert Itoa(2) == "2";
  }

  lemma Choose2Text(orgs: nat)
    ensures PolicyText(Endorsement(Choose2, orgs)) == "OutOf(2, " + Join(RuleTexts(Members(1, orgs)), ", ") + ")"
  {
    OutOfTwoText(Members(1, orgs));
  }

  lemma MemberOneLine(i: nat)
    ensures '\n' !in MemberText(i)
  {
    assert forall k :: 0 <= k < |Itoa(i)| ==> IsDigit(Itoa(i)[k]);
  }

  lemma {:induction false} MembersOneLine(lo: nat, hi: int)
    ensures forall k :: 0 <= k < |RuleTexts(Members(lo, hi))| ==> '\n' !in RuleTexts(Members(lo, hi))[k]
    decreases hi - lo
  {
    hide MemberText;
    if lo <= hi {
      MemberOneLine(hi);
      var ms := Members(lo, hi);
      assert ms[..|ms|-1] == Members(lo, hi - 1);
      MembersOneLine(lo, hi - 1);
    }
  }

  /** A policy's text is one line. */
  lemma EndorsementOneLine(s: Structure, orgs: nat)
    ensures PolicyText(Endorsement(s, orgs)) != "" && '\n' !in PolicyText(Endorsement(s, orgs))
  {
    hide MemberText, RuleTexts, Members, Join;
    MembersOneLine(1, orgs);
    MembersOneLine(2, orgs);
    JoinAvoids(RuleTexts(Members(1, orgs)), ", ", '\n');
    JoinAvoids(RuleTexts(Members(2, orgs)), ", ", '\n');
    match s
    case Common(vanity) =>
      MemberOneLine(1);
      CommonText(vanity, orgs);
    case Choose2 => Choose2Text(orgs);
    case Shared =>
  }

  /******* Pairs *******/

  /** (i, lo), ..., (i, hi) */
  function PairRow(i: nat, lo: nat, hi: int): seq<(nat, nat)>
    decreases hi - lo
  {
    if lo > hi then [] else PairRow(i, lo, hi - 1) + [(i, hi)]
  }

  /** The rows of lo up to, but not including, i. */
  function PairRows(lo: nat, i: nat, n: nat): seq<(nat, nat)> {
    if i <= lo then [] else PairRows(lo, i - 1, n) + PairRow(i - 1, i, n)
  }

  /** The pairs of the nested loops that start at lo. */
  function Pairs(lo: nat, n: nat): seq<(nat, nat)> {
    PairRows(lo, n + 1, n)
  }

  predicate PairLess(p: (nat, nat), q: (nat, nat)) {
    p.0 < q.0 || (p.0 == q.0 && p.1 < q.1)
  }

  lemma {:induction false} PairRowIs(i: nat, lo: nat, hi: nat)
    requires lo >= 1
    ensures |PairRow(i, lo, hi)| == if lo > hi then 0 else hi - lo + 1
    ensures forall k :: 0 <= k < |PairRow(i, lo, hi)| ==> PairRow(i, lo, hi)[k] == (i, lo + k)
    decreases hi
  {
    if lo <= hi {
      PairRowIs(i, lo, hi - 1);
    }
  }

  lemma PairRowHas(i: nat, lo: nat, hi: nat, p: (nat, nat))
    requires lo >= 1
    ensures p in PairRow(i, lo, hi) <==> p.0 == i && lo <= p.1 <= hi
  {
    PairRowIs(i, lo, hi);
    if p.0 == i && lo <= p.1 <= hi {
      assert PairRow(i, lo, hi)[p.1 - lo] == p;
    }
  }

  lemma {:induction false} PairRowsHave(lo: nat, i: nat, n: nat, p: (nat, nat))
    requires 1 <= lo <= i <= n + 1
    ensures p in PairRows(lo, i, n) <==> lo <= p.0 < i && p.0 < p.1 <= n
    decreases i
  {
    hide PairRow;
    if i > lo {
      PairRowsHave(lo, i - 1, n, p);
      PairRowHas(i - 1, i, n, p);
    }
  }

  lemma {:induction false} PairRowsAscend(lo: nat, i: nat, n: nat)
    requires 1 <= lo <= i <= n + 1
    ensures forall k, m :: 0 <= k < m < |PairRows(lo, i, n)| ==> PairLess(PairRows(lo, i, n)[k], PairRows(lo, i, n)[m])
    decreases i
  {
    if i > lo {
      PairRowsAscend(lo, i - 1, n);
      PairRowIs(i - 1, i, n);
      var init, row := PairRows(lo, i - 1, n), PairRow(i - 1, i, n);
      forall k | 0 <= k < |init| ensures init[k].0 < i - 1 {
        PairRowsHave(lo, i - 1, n, init[k]);
      }
    }
  }

  lemma {:induction false} PairRowsCount(lo: nat, i: nat, n: nat)
    requires 1 <= lo <= i <= n + 1
    ensures 2 * |PairRows(lo, i, n)| == (i - lo) * (2 * n - i - lo + 1)
    decreases i
  {
    if i > lo {
      PairRowsCount(lo, i - 1, n);
      PairRowIs(i - 1, i, n);
      Trapezium(lo, i, n);
    }
  }

  lemma Trapezium(lo: nat, i: nat, n: nat)
    ensures (i - 1 - lo) * (2 * n - (i - 1) - lo + 1) + 2 * (n - i + 1) == (i - lo) * (2 * n - i - lo + 1)
  {
    var d, e := i - 1 - lo, 2 * n - i - lo + 1;
    assert (d + 1) * e == d * e + e;
    assert d * (e + 1) == d * e + d;
  }

  /** The loops yield each pair i < j exactly once, in lexicographic order. */
  lemma PairsAre(lo: nat, n: nat)
    requires 1 <= lo <= n + 1
    ensures forall p :: p in Pairs(lo, n) <==> lo <= p.0 < p.1 <= n
    ensures forall k, m :: 0 <= k < m < |Pairs(lo, n)| ==> PairLess(Pairs(lo, n)[k], Pairs(lo, n)[m])
    ensures 2 * |Pairs(lo, n)| == (n - lo + 1) * (n - lo)
  {
    forall p ensures p in Pairs(lo, n) <==> lo <= p.0 < p.1 <= n {
      PairRowsHave(lo, n + 1, n, p);
    }
    PairRowsAscend(lo, n + 1, n);
    PairRowsCount(lo, n + 1, n);
  }

  /******* Collections *******/

  function CollectionRule(s: Structure, p: (nat, nat)): Policy {
    match s
    case Common(_) => AnyOf("OR", ",", [Member(1), Member(p.0), Member(p.1)])
    case _ => AnyOf("OR", ", ", [Member(p.0), Member(p.1)])
  }

  function PairName(i: nat, j: nat): string {
    "org" + Itoa(i) + "org" + Itoa(j)
  }

  function CollectionName(s: Structure, p: (nat, nat)): string {
    match s
    case Common(vanity) =>
      if 1 <= p.0 <= |vanity| && 1 <= p.1 <= |vanity| then vanity[p.0 - 1] + "_" + vanity[p.1 - 1] else ""
    case _ => PairName(p.0, p.1)
  }

  function CollectionOf(c: Counts, s: Structure, p: (nat, nat)): Collection {
    Collection(CollectionName(s, p), PolicyText(CollectionRule(s, p)), c.required, c.max)
  }

  /** The pairs of orgs that share a collection, by the network's structure. */
  function SharedPairs(s: Structure, orgs: nat): seq<(nat, nat)> {
    match s
    case Common(_) => Pairs(2, orgs)
    case Choose2 => Pairs(1, orgs)
    case Shared => []
  }

  function CollectionsOf(c: Counts, s: Structure, pairs: seq<(nat, nat)>): seq<Collection> {
    if pairs == [] then []
    else CollectionsOf(c, s, pairs[..|pairs|-1]) + [CollectionOf(c, s, pairs[|pairs|-1])]
  }

  lemma {:induction false} CollectionsAt(c: Counts, s: Structure, pairs: seq<(nat, nat)>)
    ensures |CollectionsOf(c, s, pairs)| == |pairs|
    ensures forall k :: 0 <= k < |pairs| ==> CollectionsOf(c, s, pairs)[k] == CollectionOf(c, s, pairs[k])
    decreases |pairs|
  {
    hide CollectionOf;
    if pairs != [] {
      CollectionsAt(c, s, pairs[..|pairs|-1]);
    }
  }

  lemma CollectionsMore(c: Counts, s: Structure, ps: seq<(nat, nat)>, p: (nat, nat))
    ensures CollectionsOf(c, s, ps + [p]) == CollectionsOf(c, s, ps) + [CollectionOf(c, s, p)]
  {
    assert (ps + [p])[..|ps|] == ps;
  }

  /******* What the policies mean *******/

  lemma {:induction false} UnionSize<T>(a: set<T>, b: set<T>)
    ensures |a + b| + |a * b| == |a| + |b|
    decreases |a|
  {
    if a == {} {
      assert a + b == b && a * b == {};
    } else {
      var x :| x in a;
      UnionSize(a - {x}, b);
      if x in b {
        assert a + b == (a - {x}) + b && a * b == (a - {x}) * b + {x};
      } else {
        assert a + b == (a - {x}) + b + {x} && a * b == (a - {x}) * b;
      }
    }
  }

  lemma SubsetSize<T>(a: set<T>, b: set<T>)
    requires a <= b
    ensures |a| <= |b|
  {
    UnionSize(a, b - a);
    assert a + (b - a) == b && a * (b - a) == {};
  }

  lemma TwoOf(ps: set<nat>)
    ensures |ps| >= 2 <==> exists i, j :: i in ps && j in ps && i < j
  {
    if |ps| >= 2 {
      var a :| a in ps;
      assert |ps - {a}| >= 1;
      var b :| b in ps - {a};
      assert a < b || b < a;
    }
    if i, j :| i in ps && j in ps && i < j {
      assert {i, j} <= ps;
      SubsetSize({i, j}, ps);
    }
  }

  lemma BothSign(s: Structure, lo: nat, orgs: nat, signers: set<nat>)
    requires 1 <= lo <= orgs + 1 && SharedPairs(s, orgs) == Pairs(lo, orgs)
    ensures (exists i, j :: i in Present(signers, lo, orgs) && j in Present(signers, lo, orgs) && i < j) <==>
            (exists i, j :: (i, j) in SharedPairs(s, orgs) && i in signers && j in signers)
  {
    var ps := Present(signers, lo, orgs);
    PairsAre(lo, orgs);
    if i, j :| i in ps && j in ps && i < j {
      assert (i, j) in SharedPairs(s, orgs);
    }
    if i, j :| (i, j) in SharedPairs(s, orgs) && i in signers && j in signers {
      assert i in ps && j in ps;
    }
  }

  /** nchoose2: an endorsement needs both orgs of some collection. */
  lemma Choose2Means(orgs: nat, signers: set<nat>)
    requires orgs >= 1
    ensures Satisfied(Endorsement(Choose2, orgs), signers) <==>
            exists i, j :: (i, j) in SharedPairs(Choose2, orgs) && i in signers && j in signers
  {
    MembersSigned(1, orgs, signers);
    var ps := Present(signers, 1, orgs);
    TwoOf(ps);
    BothSign(Choose2, 1, orgs, signers);
  }

  /** nchoose2common: Org1, or both other orgs of some collection. */
  lemma CommonMeans(vanity: seq<string>, orgs: nat, signers: set<nat>)
    requires orgs >= 1
    ensures Satisfied(Endorsement(Common(vanity), orgs), signers) <==>
            1 in signers || exists i, j :: (i, j) in SharedPairs(Common(vanity), orgs) && i in signers && j in signers
  {
    var rules := [Member(1), OutOf(2, Members(2, orgs))];
    assert rules[..1] == [Member(1)] && rules[..1][..0] == [];
    assert Signed(rules[..1], signers) == if 1 in signers then 1 else 0;
    assert Satisfied(rules[1], signers) <==> Signed(Members(2, orgs), signers) >= 2;
    assert Signed(rules, signers) == Signed(rules[..1], signers) + if Satisfied(rules[1], signers) then 1 else 0;
    assert Satisfied(Endorsement(Common(vanity), orgs), signers) <==> Signed(rules, signers) >= 1;
    MembersSigned(2, orgs, signers);
    var ps := Present(signers, 2, orgs);
    TwoOf(ps);
    BothSign(Common(vanity), 2, orgs, signers);
  }

  /** The default: any org of the network. */
  lemma SharedMeans(orgs: nat, signers: set<nat>)
    ensures Satisfied(Endorsement(Shared, orgs), signers) <==> exists i :: i in signers && 1 <= i <= orgs
  {
    MembersSigned(1, orgs, signers);
    var ps := Present(signers, 1, orgs);
    if i :| i in signers && 1 <= i <= orgs {
      assert i in ps;
    }
    if |ps| >= 1 {
      var i :| i in ps;
    }
  }

  predicate TwoSign(signers: set<nat>, lo: nat, hi: nat) {
    exists i, j :: i in signers && j in signers && lo <= i < j <= hi
  }

  /** The text is that of a policy that one of these orgs alone satisfies, or two of
      the orgs lo..hi, and no others. */
  ghost predicate SignedBy(text: string, any: set<nat>, lo: nat, hi: nat) {
    exists p :: text == PolicyText(p) && Meaning(p, any, lo, hi)
  }

  ghost predicate Meaning(p: Policy, any: set<nat>, lo: nat, hi: nat) {
    forall signers: set<nat> :: Satisfied(p, signers) <==> (exists i :: i in signers && i in any) || TwoSign(signers, lo, hi)
  }

  function OrgSet(orgs: nat): (os: set<nat>)
    ensures forall i: nat :: i in os <==> 1 <= i <= orgs
  {
    if orgs == 0 then {} else OrgSet(orgs - 1) + {orgs}
  }

  /** Who can endorse, by structure. */
  lemma EndorsementMeans(s: Structure, orgs: nat)
    requires orgs >= 1
    ensures
      match s
      case Choose2 => Meaning(Endorsement(s, orgs), {}, 1, orgs)
      case Common(_) => Meaning(Endorsement(s, orgs), {1}, 2, orgs)
      case Shared => Meaning(Endorsement(s, orgs), OrgSet(orgs), 1, 0)
  {
    hide Endorsement, Satisfied, Pairs, OrgSet;
    PairsAre(1, orgs);
    PairsAre(2, orgs);
    match s
    case Choose2 =>
      forall signers: set<nat> ensures Satisfied(Endorsement(s, orgs), signers) <==> TwoSign(signers, 1, orgs) {
        Choose2Means(orgs, signers);
      }
    case Common(vanity) =>
      forall signers: set<nat> ensures Satisfied(Endorsement(s, orgs), signers) <==> 1 in signers || TwoSign(signers, 2, orgs) {
        CommonMeans(vanity, orgs, signers);
      }
    case Shared =>
      forall signers: set<nat> ensures Satisfied(Endorsement(s, orgs), signers) <==> exists i :: i in signers && i in OrgSet(orgs) {
        SharedMeans(orgs, signers);
      }
  }

  /** A collection's policy is satisfied by each of its orgs. */
  lemma CollectionMeans(s: Structure, i: nat, j: nat)
    ensures Meaning(CollectionRule(s, (i, j)), if s.Common? then {1, i, j} else {i, j}, 1, 0)
  {
    forall signers: set<nat>
      ensures Satisfied(CollectionRule(s, (i, j)), signers) <==> i in signers || j in signers || (s.Common? && 1 in signers)
    {
      var a, b, c := Member(1), Member(i), Member(j);
      assert [b, c][..1] == [b] && [b][..0] == [] && [a, b, c][..2] == [a, b] && [a, b][..1] == [a] && [a][..0] == [];
      assert Signed([b], signers) == Signed([b][..0], signers) + if i in signers then 1 else 0;
      assert Signed([b, c], signers) == Signed([b, c][..1], signers) + if j in signers then 1 else 0;
      assert Signed([a], signers) == Signed([a][..0], signers) + if 1 in signers then 1 else 0;
      assert Signed([a, b], signers) == Signed([a, b][..1], signers) + if i in signers then 1 else 0;
      assert Signed([a, b, c], signers) == Signed([a, b, c][..2], signers) + if j in signers then 1 else 0;
    }
  }

  /******* Collection names *******/

  lemma {:induction false} SameDigits(a: string, b: string, s: string, t: string)
    requires AllDigits(a) && AllDigits(b) && a + "org" + s == b + "org" + t
    ensures a == b
  {
    var u := a + "org" + s;
    assert u[|a|] == 'o' && u[|b|] == 'o';
    assert forall i :: 0 <= i < |a| ==> u[i] == a[i];
    assert forall i :: 0 <= i < |b| ==> u[i] == b[i];
    assert u[..|a|] == a && u[..|b|] == b;
  }

  lemma PairNameInjective(i: nat, j: nat, i': nat, j': nat)
    requires PairName(i, j) == PairName(i', j')
    ensures i == i' && j == j'
  {
    var a, b, a', b' := Itoa(i), Itoa(j), Itoa(i'), Itoa(j');
    assert a + "org" + b == PairName(i, j)[3..] && a' + "org" + b' == PairName(i', j')[3..];
    SameDigits(a, a', b, b');
    assert b == (a + "org" + b)[|a| + 3..] && b' == (a' + "org" + b')[|a'| + 3..];
    ItoaInjective(i, i');
    ItoaInjective(j, j');
  }

  /** Collections have different names: always with nchoose2; */
  lemma Choose2NamesDiffer(c: Counts, orgs: nat, k: nat, m: nat)
    requires orgs >= 1 && k < m < |SharedPairs(Choose2, orgs)|
    ensures
      var cs := CollectionsOf(c, Choose2, SharedPairs(Choose2, orgs));
      |cs| == |SharedPairs(Choose2, orgs)| && cs[k].name != cs[m].name
  {
    var ps := SharedPairs(Choose2, orgs);
    PairsAre(1, orgs);
    CollectionsAt(c, Choose2, ps);
    assert PairLess(ps[k], ps[m]);
    if PairName(ps[k].0, ps[k].1) == PairName(ps[m].0, ps[m].1) {
      PairNameInjective(ps[k].0, ps[k].1, ps[m].0, ps[m].1);
    }
  }

  /** c is a followed by more words, which b starts with. */
  ghost predicate Recut(a: string, b: string, c: string, d: string) {
    exists x :: c == a + "_" + x && b == x + "_" + d
  }

  /** The two pairs of names are the same, or one is the other cut at another underscore. */
  ghost predicate SameJoined(a: string, b: string, c: string, d: string) {
    (a == c && b == d) || Recut(a, b, c, d) || Recut(c, d, a, b)
  }

  lemma RecutIf(a: string, b: string, c: string, d: string)
    requires a + "_" + b == c + "_" + d && |a| < |c|
    ensures Recut(a, b, c, d)
  {
    var u, x := a + "_" + b, c[|a|+1..];
    assert u[..|c|] == c && u[..|a|] == a && u[|a|] == '_';
    assert c == a + "_" + x;
    assert u[|a|+1..] == b;
    assert u == a + "_" + (x + "_" + d);
    assert (a + "_" + (x + "_" + d))[|a|+1..] == x + "_" + d;
  }

  /** Joining two names with an underscore loses exactly where the cut was. */
  lemma JoinedIff(a: string, b: string, c: string, d: string)
    ensures a + "_" + b == c + "_" + d <==> SameJoined(a, b, c, d)
  {
    if a + "_" + b == c + "_" + d {
      if |a| == |c| {
        assert (a + "_" + b)[..|a|] == a && (c + "_" + d)[..|a|] == c;
        assert (a + "_" + b)[|a|+1..] == b && (c + "_" + d)[|a|+1..] == d;
      } else if |a| < |c| {
        RecutIf(a, b, c, d);
      } else {
        RecutIf(c, d, a, b);
      }
    }
    if Recut(a, b, c, d) {
      RecutJoins(a, b, c, d);
    }
    if Recut(c, d, a, b) {
      RecutJoins(c, d, a, b);
    }
  }

  lemma RecutJoins(a: string, b: string, c: string, d: string)
    requires Recut(a, b, c, d)
    ensures a + "_" + b == c + "_" + d
  {
    var x :| c == a + "_" + x && b == x + "_" + d;
    assert a + "_" + (x + "_" + d) == (a + "_" + x) + "_" + d;
  }

  /** Two pairs of orgs of a vanity list clash. */
  ghost predicate Clash(vanity: seq<string>, p: (nat, nat), q: (nat, nat))
    requires 1 <= p.0 <= |vanity| && 1 <= p.1 <= |vanity| && 1 <= q.0 <= |vanity| && 1 <= q.1 <= |vanity|
  {
    SameJoined(vanity[p.0 - 1], vanity[p.1 - 1], vanity[q.0 - 1], vanity[q.1 - 1])
  }

  lemma VanityPairs(vanity: seq<string>)
    requires vanity != []
    ensures forall k :: 0 <= k < |Pairs(2, |vanity|)| ==>
              1 <= Pairs(2, |vanity|)[k].0 <= |vanity| && 1 <= Pairs(2, |vanity|)[k].1 <= |vanity|
  {
    PairsAre(2, |vanity|);
    forall k | 0 <= k < |Pairs(2, |vanity|)|
      ensures 1 <= Pairs(2, |vanity|)[k].0 <= |vanity| && 1 <= Pairs(2, |vanity|)[k].1 <= |vanity|
    {
      assert Pairs(2, |vanity|)[k] in Pairs(2, |vanity|);
    }
  }

  /** with nchoose2common two collections have one name exactly if their pairs
      of vanity names clash, */
  lemma CommonNamesIff(c: Counts, vanity: seq<string>, k: nat, m: nat)
    requires vanity != [] && k < |Pairs(2, |vanity|)| && m < |Pairs(2, |vanity|)|
    ensures
      var ps := Pairs(2, |vanity|);
      var cs := CollectionsOf(c, Common(vanity), ps);
      && |cs| == |ps|
      && 1 <= ps[k].0 <= |vanity| && 1 <= ps[k].1 <= |vanity| && 1 <= ps[m].0 <= |vanity| && 1 <= ps[m].1 <= |vanity|
      && (cs[k].name == cs[m].name <==> Clash(vanity, ps[k], ps[m]))
  {
    hide SameJoined, CollectionsOf, Pairs;
    var ps := Pairs(2, |vanity|);
    VanityPairs(vanity);
    CollectionsAt(c, Common(vanity), ps);
    JoinedIff(vanity[ps[k].0 - 1], vanity[ps[k].1 - 1], vanity[ps[m].0 - 1], vanity[ps[m].1 - 1]);
  }

  /** The names of a list of collections are all different. */
  ghost predicate NamesDiffer(cs: seq<Collection>) {
    forall k, m :: 0 <= k < m < |cs| ==> cs[k].name != cs[m].name
  }

  /** No two pairs of orgs of a vanity list clash. */
  ghost predicate NoClash(vanity: seq<string>) {
    var ps := Pairs(2, |vanity|);
    forall k, m :: 0 <= k < m < |ps| ==>
      && 1 <= ps[k].0 <= |vanity| && 1 <= ps[k].1 <= |vanity| && 1 <= ps[m].0 <= |vanity| && 1 <= ps[m].1 <= |vanity|
      && !Clash(vanity, ps[k], ps[m])
  }

  /** so all names differ exactly if no two pairs clash. */
  lemma CommonNamesDifferIff(c: Counts, vanity: seq<string>)
    requires vanity != []
    ensures NamesDiffer(CollectionsOf(c, Common(vanity), SharedPairs(Common(vanity), |vanity|))) <==> NoClash(vanity)
  {
    var ps := Pairs(2, |vanity|);
    var cs := CollectionsOf(c, Common(vanity), ps);
    CollectionsAt(c, Common(vanity), ps);
    hide CollectionsOf, Pairs, Clash;
    forall k, m | 0 <= k < m < |ps|
      ensures 1 <= ps[k].0 <= |vanity| && 1 <= ps[k].1 <= |vanity| && 1 <= ps[m].0 <= |vanity| && 1 <= ps[m].1 <= |vanity|
      ensures cs[k].name == cs[m].name <==> Clash(vanity, ps[k], ps[m])
    {
      CommonNamesIff(c, vanity, k, m);
    }
  }

  lemma NoUnderscore(a: string, b: string, c: string, d: string)
    requires '_' !in a && '_' !in b && '_' !in c && '_' !in d && SameJoined(a, b, c, d)
    ensures a == c && b == d
  {
    assert forall x: string, y: string :: '_' in x + "_" + y by {
      forall x: string, y: string ensures '_' in x + "_" + y {
        assert (x + "_" + y)[|x|] == '_';
      }
    }
  }

  /** None do when the vanity names differ and have no underscore, */
  lemma CommonNamesDiffer(c: Counts, vanity: seq<string>)
    requires vanity != []
    requires forall i, j :: 1 <= i < j < |vanity| ==> vanity[i] != vanity[j]
    requires forall i :: 1 <= i < |vanity| ==> '_' !in vanity[i]
    ensures NamesDiffer(CollectionsOf(c, Common(vanity), SharedPairs(Common(vanity), |vanity|)))
  {
    CommonNamesDifferIff(c, vanity);
    PlainNamesDoNotClash(vanity);
  }

  lemma PlainNamesDoNotClash(vanity: seq<string>)
    requires vanity != []
    requires forall i, j :: 1 <= i < j < |vanity| ==> vanity[i] != vanity[j]
    requires forall i :: 1 <= i < |vanity| ==> '_' !in vanity[i]
    ensures NoClash(vanity)
  {
    var ps := Pairs(2, |vanity|);
    PairsAre(2, |vanity|);
    hide Pairs, SameJoined;
    forall k, m | 0 <= k < m < |ps|
      ensures 1 <= ps[k].0 <= |vanity| && 1 <= ps[k].1 <= |vanity| && 1 <= ps[m].0 <= |vanity| && 1 <= ps[m].1 <= |vanity|
      ensures !Clash(vanity, ps[k], ps[m])
    {
      assert PairLess(ps[k], ps[m]) && ps[k] in ps && ps[m] in ps;
      var a, b, x, y := vanity[ps[k].0 - 1], vanity[ps[k].1 - 1], vanity[ps[m].0 - 1], vanity[ps[m].1 - 1];
      if SameJoined(a, b, x, y) {
        NoUnderscore(a, b, x, y);
      }
    }
  }

  /** but different names alone are not enough. */
  lemma VanityNamesCollide() returns (vanity: seq<string>)
    ensures forall i, j :: 0 <= i < j < |vanity| ==> vanity[i] != vanity[j]
    ensures CollectionName(Common(vanity), (2, 5)) == CollectionName(Common(vanity), (3, 4))
    ensures (2, 5) in SharedPairs(Common(vanity), |vanity|) && (3, 4) in SharedPairs(Common(vanity), |vanity|)
  {
    hide Pairs;
    vanity := ["x", "a", "a_b", "c", "b_c"];
    assert vanity[1] + "_" + vanity[4] == vanity[2] + "_" + vanity[3];
    PairsAre(2, |vanity|);
  }

  /******* The majority *******/

  function Majority(orgs: nat, peers: nat): nat {
    orgs * peers / 2 + 1
  }

  function Upto(lo: nat, hi: nat): (s: set<int>)
    ensures lo <= hi ==> |s| == hi - lo
    ensures forall x :: x in s <==> lo <= x < hi
    decreases hi
  {
    if hi <= lo then {} else Upto(lo, hi - 1) + {hi - 1}
  }

  /** Any two sets of k of the network's peers have a peer in common exactly
      when k is at least the majority (for k of at most all the peers). */
  lemma MajoritiesMeet(orgs: nat, peers: nat, k: nat)
    requires k <= orgs * peers
    ensures k >= Majority(orgs, peers) <==>
            forall a, b :: a <= Upto(0, orgs * peers) && b <= Upto(0, orgs * peers) && |a| == |b| == k ==> a * b != {}
  {
    var total := orgs * peers;
    if k >= Majority(orgs, peers) {
      forall a, b | a <= Upto(0, total) && b <= Upto(0, total) && |a| == |b| == k ensures a * b != {} {
        UnionSize(a, b);
        SubsetSize(a + b, Upto(0, total));
      }
    } else {
      var a, b := Upto(0, k), Upto(k, 2 * k);
      assert a <= Upto(0, total) && b <= Upto(0, total) && |a| == |b| == k && a * b == {};
    }
  }
}
