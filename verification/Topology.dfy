/** The generated network: its nodes with their ports, its policy and its collections. */
module Topology {
  import opened Wrappers
  import opened Decimal
  import opened Strings
  import opened Policies
  import Names

  datatype Options = Options(domain: string, connectDomain: string, privateStructure: string, ordererType: string,
                             orgCount: int, peerCount: int, ordererCount: int,
                             minEndorsers: int, reqPeerCount: int, maxPeerCount: int)

  datatype Orderer = Orderer(host: string, dir: string, port: string, hostPort: string, index: int)

  datatype Org = Org(index: string, caPort: string)

  datatype PeerPort = PeerPort(org: string, peer: string, bootstrap: string, prefix: string)

  datatype Error = BadOrgCount | BadPeerCount | BadOrdererCount | BadOrdererType | BadVanity

  /******* Ports *******/

  function OrdererAt(o: Options, i: nat): Orderer {
    var connect := if o.connectDomain == "" then o.domain else o.connectDomain;
    Orderer("orderer" + Itoa(i) + "." + connect, "orderer" + Itoa(i) + "." + o.domain, "7050", Itoa(7050 + 1000 * i), i)
  }

  function OrgAt(i: nat): Org {
    Org(Itoa(i), Itoa(1000 * i + 6054))
  }

  /** The peers of one org, from a port slot on. */
  function PeerRow(org: nat, peers: nat, slot: nat): seq<PeerPort> {
    if peers == 0 then []
    else PeerRow(org, peers - 1, slot) + [PeerPort(Itoa(org), Itoa(peers - 1), "0", Itoa(70 + 10 * (slot + peers - 1)))]
  }

  function PeerRows(orgs: nat, peers: nat): seq<PeerPort> {
    if orgs == 0 then [] else PeerRows(orgs - 1, peers) + PeerRow(orgs, peers, |PeerRows(orgs - 1, peers)|)
  }

  lemma {:induction false} PeerRowIs(org: nat, peers: nat, slot: nat)
    ensures |PeerRow(org, peers, slot)| == peers
    ensures forall j :: 0 <= j < peers ==>
              PeerRow(org, peers, slot)[j] == PeerPort(Itoa(org), Itoa(j), "0", Itoa(70 + 10 * (slot + j)))
    decreases peers
  {
    hide Itoa;
    if peers > 0 {
      PeerRowIs(org, peers - 1, slot);
    }
  }

  lemma PeerRowMore(org: nat, peers: nat, slot: nat)
    ensures PeerRow(org, 0, slot) == []
    ensures PeerRow(org, peers + 1, slot) ==
            PeerRow(org, peers, slot) + [PeerPort(Itoa(org), Itoa(peers), "0", Itoa(70 + 10 * (slot + peers)))]
  {
  }

  lemma NoPeerRows(peers: nat)
    ensures PeerRows(0, peers) == [] && forall org, slot :: PeerRow(org, 0, slot) == []
  {
  }

  lemma PeerRowsMore(orgs: nat, peers: nat)
    ensures PeerRows(orgs + 1, peers) == PeerRows(orgs, peers) + PeerRow(orgs + 1, peers, |PeerRows(orgs, peers)|)
  {
  }

  lemma {:induction false} PeerRowsLength(orgs: nat, peers: nat)
    ensures |PeerRows(orgs, peers)| == orgs * peers
    decreases orgs
  {
    if orgs > 0 {
      PeerRowsLength(orgs - 1, peers);
      PeerRowIs(orgs, peers, |PeerRows(orgs - 1, peers)|);
      assert orgs * peers == (orgs - 1) * peers + peers;
    }
  }

  /** The place of peer j of org i in the allocation. */
  function Slot(peers: nat, i: nat, j: nat): nat
    requires i >= 1
  {
    (i - 1) * peers + j
  }

  /** Adding orgs keeps the earlier allocation. */
  lemma {:induction false} OrgsKeepPorts(orgs: nat, more: nat, peers: nat)
    ensures PeerRows(orgs, peers) <= PeerRows(orgs + more, peers)
    decreases more
  {
    if more > 0 {
      OrgsKeepPorts(orgs, more - 1, peers);
    }
  }

  /** Peer j of org i has port prefix 70 + 10 * ((i-1) * peers + j). */
  lemma {:induction false} PeerHasSlot(orgs: nat, peers: nat, i: nat, j: nat)
    requires 1 <= i <= orgs && j < peers
    ensures Slot(peers, i, j) < |PeerRows(orgs, peers)| == orgs * peers
    ensures PeerRows(orgs, peers)[Slot(peers, i, j)] ==
            PeerPort(Itoa(i), Itoa(j), "0", Itoa(70 + 10 * Slot(peers, i, j)))
  {
    hide Itoa, PeerRow, PeerRows;
    PeerRowsLength(i - 1, peers);
    PeerRowsLength(i, peers);
    PeerRowsLength(orgs, peers);
    PeerRowIs(i, peers, (i - 1) * peers);
    PeerRowsMore(i - 1, peers);
    OrgsKeepPorts(i, orgs - i, peers);
    assert PeerRows(i, peers)[Slot(peers, i, j)] == PeerRow(i, peers, (i - 1) * peers)[j];
  }

  /** Adding peers moves the ports of every org but the first. */
  lemma PeersMovePorts(peers: nat, peers': nat, i: nat, j: nat)
    requires i >= 1
    ensures Slot(peers, i, j) == Slot(peers', i, j) <==> i == 1 || peers == peers'
  {
    assert (i - 1) * peers - (i - 1) * peers' == (i - 1) * (peers - peers');
  }

  lemma {:induction false} SlotPrefix(orgs: nat, peers: nat, k: nat)
    requires k < |PeerRows(orgs, peers)|
    ensures PeerRows(orgs, peers)[k].prefix == Itoa(70 + 10 * k)
    decreases orgs
  {
    hide Itoa, PeerRow;
    var init := PeerRows(orgs - 1, peers);
    PeerRowIs(orgs, peers, |init|);
    if k < |init| {
      SlotPrefix(orgs - 1, peers, k);
    } else {
      assert PeerRows(orgs, peers)[k] == PeerRow(orgs, peers, |init|)[k - |init|];
    }
  }

  /** A port that the compose files publish on the host. */
  datatype Published = OrdererPort(i: nat) | CaPort(i: nat) | GrpcPort(k: nat) | EventPort(k: nat)

  predicate InNetwork(o: Options, x: Published) {
    match x
    case OrdererPort(i) => i < o.ordererCount
    case CaPort(i) => 1 <= i <= o.orgCount
    case GrpcPort(k) => o.orgCount >= 0 && o.peerCount >= 0 && k < |PeerRows(o.orgCount, o.peerCount)|
    case EventPort(k) => o.orgCount >= 0 && o.peerCount >= 0 && k < |PeerRows(o.orgCount, o.peerCount)|
  }

  /** Its text: a peer's is its prefix and 51 or 53. */
  function HostPort(o: Options, x: Published): string
    requires InNetwork(o, x)
  {
    match x
    case OrdererPort(i) => OrdererAt(o, i).hostPort
    case CaPort(i) => OrgAt(i).caPort
    case GrpcPort(k) => PeerRows(o.orgCount, o.peerCount)[k].prefix + "51"
    case EventPort(k) => PeerRows(o.orgCount, o.peerCount)[k].prefix + "53"
  }

  function PortNumber(x: Published): nat {
    match x
    case OrdererPort(i) => 7050 + 1000 * i
    case CaPort(i) => 6054 + 1000 * i
    case GrpcPort(k) => 7051 + 1000 * k
    case EventPort(k) => 7053 + 1000 * k
  }

  lemma NumberText(n: nat)
    ensures AllDigits(Itoa(n)) && NatValue(Itoa(n)) == n
  {
    NatRoundTrip(n);
  }

  lemma TwoDigits(n: nat, u: string)
    requires |u| == 2 && AllDigits(u)
    ensures AllDigits(Itoa(n) + u) && NatValue(Itoa(n) + u) == 100 * n + NatValue(u)
  {
    NatValueConcat(Itoa(n), u);
    NatRoundTrip(n);
    assert Power10(2) == 100 by {
      assert Power10(1) == 10 && Power10(2) == 10 * Power10(1);
    }
  }

  lemma Digits5153()
    ensures AllDigits("51") && NatValue("51") == 51 && AllDigits("53") && NatValue("53") == 53
  {
    assert "51"[..1] == "5" && "53"[..1] == "5" && "5"[..0] == "";
    assert NatValue("5") == 5;
  }

  lemma PortTextIs(o: Options, x: Published)
    requires InNetwork(o, x)
    ensures AllDigits(HostPort(o, x)) && NatValue(HostPort(o, x)) == PortNumber(x)
  {
    hide Itoa, NatText, NatValue, PeerRows, AllDigits;
    match x
    case OrdererPort(i) => NumberText(7050 + 1000 * i);
    case CaPort(i) => NumberText(1000 * i + 6054);
    case GrpcPort(k) =>
      SlotPrefix(o.orgCount, o.peerCount, k);
      Digits5153();
      TwoDigits(70 + 10 * k, "51");
    case EventPort(k) =>
      SlotPrefix(o.orgCount, o.peerCount, k);
      Digits5153();
      TwoDigits(70 + 10 * k, "53");
  }

  /** No two published ports are the same number, for any counts. */
  lemma PortsDiffer(o: Options, x: Published, y: Published)
    requires InNetwork(o, x) && InNetwork(o, y) && x != y
    ensures AllDigits(HostPort(o, x)) && AllDigits(HostPort(o, y))
    ensures NatValue(HostPort(o, x)) != NatValue(HostPort(o, y))
  {
    hide HostPort, AllDigits, NatValue, InNetwork;
    PortTextIs(o, x);
    PortTextIs(o, y);
  }

  ghost predicate PortsFit(o: Options) {
    forall x :: InNetwork(o, x) ==> AllDigits(HostPort(o, x)) && NatValue(HostPort(o, x)) <= 65535
  }

  /** They all are port numbers exactly when no count is above 59. */
  lemma {:induction false} PortsFitIff(o: Options)
    requires o.orgCount >= 1 && o.peerCount >= 1 && o.ordererCount >= 1
    ensures PortsFit(o) <==> o.ordererCount <= 59 && o.orgCount <= 59 && o.orgCount * o.peerCount <= 59
  {
    PeerRowsLength(o.orgCount, o.peerCount);
    forall x | InNetwork(o, x) ensures AllDigits(HostPort(o, x)) && NatValue(HostPort(o, x)) == PortNumber(x) {
      PortTextIs(o, x);
    }
    hide HostPort, AllDigits, NatValue, PeerRows;
    if o.ordererCount > 59 {
      assert InNetwork(o, OrdererPort(59));
    } else if o.orgCount > 59 {
      assert InNetwork(o, CaPort(60));
    } else if o.orgCount * o.peerCount > 59 {
      assert InNetwork(o, GrpcPort(59));
    }
  }

  /** The host port of the k-th chaincode service. */
  function ChaincodePort(k: nat): nat {
    9080 + k
  }

  /** n chaincode services are clear of every network's ports exactly up to 970. */
  lemma ChaincodePortsClear(n: nat)
    ensures n <= 970 <==> forall x, k: nat :: k < n ==> ChaincodePort(k) != PortNumber(x)
  {
    if n > 970 {
      assert ChaincodePort(970) == PortNumber(OrdererPort(3));
    }
  }

  /** Of one network's they are clear exactly up to 970, or 971 if it has at most
      three orderers, or always if it has at most three peers too. */
  lemma ChaincodePortsClearOf(o: Options, n: nat)
    requires o.orgCount >= 1 && o.peerCount >= 1 && o.ordererCount >= 1
    ensures (forall x, k: nat :: InNetwork(o, x) && k < n ==> ChaincodePort(k) != PortNumber(x)) <==>
            (n <= 970 || o.ordererCount <= 3) && (n <= 971 || o.orgCount * o.peerCount <= 3)
  {
    hide PeerRows;
    PeerRowsLength(o.orgCount, o.peerCount);
    assert o.orgCount * o.peerCount >= o.orgCount;
    if n > 970 && o.ordererCount > 3 {
      assert InNetwork(o, OrdererPort(3)) && ChaincodePort(970) == PortNumber(OrdererPort(3));
    } else if n > 971 && o.orgCount * o.peerCount > 3 {
      assert InNetwork(o, GrpcPort(3)) && ChaincodePort(971) == PortNumber(GrpcPort(3));
    }
  }

  /******* New *******/

  function Check(o: Options): Option<Error> {
    if o.orgCount < 1 then Some(BadOrgCount)
    else if o.peerCount < 1 then Some(BadPeerCount)
    else if o.ordererCount < 1 then Some(BadOrdererCount)
    else if o.ordererType != "etcdraft" then Some(BadOrdererType)
    else
      match StructureOf(o.privateStructure)
      case Common(vanity) => if |vanity| != o.orgCount then Some(BadVanity) else None
      case _ => None
  }

  /** The defaults of a collection's peer counts, for -1. */
  function CountsOf(o: Options): Counts {
    var total := o.orgCount * o.peerCount;
    Counts(if o.reqPeerCount == -1 then total / 2 else o.reqPeerCount,
           if o.maxPeerCount == -1 then total - 1 else o.maxPeerCount)
  }

  /** By default a collection never requires more peers than it allows, allows
      all peers but the one that endorses, and requires less than a majority. */
  lemma DefaultCountsFit(o: Options)
    requires o.orgCount >= 1 && o.peerCount >= 1 && o.reqPeerCount == -1 && o.maxPeerCount == -1
    ensures 0 <= CountsOf(o).required <= CountsOf(o).max < o.orgCount * o.peerCount
    ensures CountsOf(o).required < Majority(o.orgCount, o.peerCount) <= CountsOf(o).max + 1
  {
    assert o.orgCount * o.peerCount >= 1;
  }

  function AllCollections(o: Options): seq<Collection>
    requires o.orgCount >= 1
  {
    var s := StructureOf(o.privateStructure);
    if s == Shared then [Collection("private", PolicyText(Endorsement(Shared, o.orgCount)), CountsOf(o).required, CountsOf(o).max)]
    else CollectionsOf(CountsOf(o), s, SharedPairs(s, o.orgCount))
  }

  /** A collection, by its name and the orgs whose members may see it. */
  ghost predicate Shares(o: Options, c: Collection, name: string, orgs: set<nat>) {
    && c.name == name && SignedBy(c.policy, orgs, 1, 0)
    && c.required == (if o.reqPeerCount == -1 then o.orgCount * o.peerCount / 2 else o.reqPeerCount)
    && c.max == (if o.maxPeerCount == -1 then o.orgCount * o.peerCount - 1 else o.maxPeerCount)
  }

  /** A policy names an org by its MSP ID. */
  lemma MemberIsMsp(org: nat)
    ensures PolicyText(Member(org)) == "'" + Names.MspId(org) + ".member'"
  {
    hide Itoa;
    assert "'" + ("Org" + Itoa(org) + "MSP") + ".member'" == "'Org" + Itoa(org) + "MSP.member'" by {
      assert "'" + "Org" == "'Org" && "MSP" + ".member'" == "MSP.member'";
    }
  }

  /** What --private-structure asks for, on its text. */
  ghost predicate PoliciesAsked(o: Options, policy: string, cs: seq<Collection>)
    requires o.orgCount >= 1
  {
    && (o.privateStructure == "nchoose2" ==> Choose2Asked(o, policy, cs))
    && (forall vanity :: VanityText(o.privateStructure, vanity) ==> CommonAsked(o, vanity, policy, cs))
    && (o.privateStructure != "nchoose2" && !HasPrefix(o.privateStructure, "nchoose2common,") ==>
          && SignedBy(policy, OrgSet(o.orgCount), 1, 0)
          && |cs| == 1 && Shares(o, cs[0], "private", OrgSet(o.orgCount)))
  }

  /** Any two orgs endorse, and each pair of orgs has a collection. */
  ghost predicate Choose2Asked(o: Options, policy: string, cs: seq<Collection>)
    requires o.orgCount >= 1
  {
    var pairs := Pairs(1, o.orgCount);
    && SignedBy(policy, {}, 1, o.orgCount) && |cs| == |pairs|
    && forall k :: 0 <= k < |cs| ==>
         Shares(o, cs[k], "org" + Itoa(pairs[k].0) + "org" + Itoa(pairs[k].1), {pairs[k].0, pairs[k].1})
  }

  /** Org1 endorses, or two of the others, and Org1 has a collection with each pair of them. */
  ghost predicate CommonAsked(o: Options, vanity: seq<string>, policy: string, cs: seq<Collection>)
    requires o.orgCount >= 1
  {
    var pairs := Pairs(2, o.orgCount);
    && |vanity| == o.orgCount && SignedBy(policy, {1}, 2, o.orgCount) && |cs| == |pairs|
    && forall k :: 0 <= k < |cs| ==>
         && 1 <= pairs[k].0 <= |vanity| && 1 <= pairs[k].1 <= |vanity|
         && Shares(o, cs[k], vanity[pairs[k].0 - 1] + "_" + vanity[pairs[k].1 - 1], {1, pairs[k].0, pairs[k].1})
  }

  lemma PairShares(o: Options, s: Structure, p: (nat, nat))
    requires s == Choose2 || (s.Common? && 1 <= p.0 <= |s.vanity| && 1 <= p.1 <= |s.vanity|)
    ensures Shares(o, CollectionOf(CountsOf(o), s, p),
                   if s.Common? then s.vanity[p.0 - 1] + "_" + s.vanity[p.1 - 1] else "org" + Itoa(p.0) + "org" + Itoa(p.1),
                   if s.Common? then {1, p.0, p.1} else {p.0, p.1})
  {
    hide Meaning, PolicyText, CollectionRule, Itoa;
    CollectionMeans(s, p.0, p.1);
  }

  lemma PairsShare(o: Options, s: Structure, lo: nat, k: nat)
    requires o.orgCount >= 1 && (lo == 1 || lo == 2) && k < |Pairs(lo, o.orgCount)|
    requires s == Choose2 || (s.Common? && |s.vanity| == o.orgCount)
    ensures |CollectionsOf(CountsOf(o), s, Pairs(lo, o.orgCount))| == |Pairs(lo, o.orgCount)|
    ensures
      var p := Pairs(lo, o.orgCount)[k];
      && 1 <= p.0 <= o.orgCount && 1 <= p.1 <= o.orgCount
      && Shares(o, CollectionsOf(CountsOf(o), s, Pairs(lo, o.orgCount))[k],
                if s.Common? then s.vanity[p.0 - 1] + "_" + s.vanity[p.1 - 1] else "org" + Itoa(p.0) + "org" + Itoa(p.1),
                if s.Common? then {1, p.0, p.1} else {p.0, p.1})
  {
    hide Shares, CollectionOf, CollectionsOf, Pairs, CountsOf;
    var ps := Pairs(lo, o.orgCount);
    CollectionsAt(CountsOf(o), s, ps);
    PairsAre(lo, o.orgCount);
    assert ps[k] in ps;
    PairShares(o, s, ps[k]);
  }

  lemma ComputedAsAsked(o: Options, policy: string, cs: seq<Collection>)
    requires o.orgCount >= 1 && var s := StructureOf(o.privateStructure); s.Common? ==> |s.vanity| == o.orgCount
    requires policy == PolicyText(Endorsement(StructureOf(o.privateStructure), o.orgCount)) && cs == AllCollections(o)
    ensures PoliciesAsked(o, policy, cs)
  {
    hide Meaning, PolicyText, Endorsement, CollectionsOf, CollectionOf, Pairs, OrgSet, VanityText, CountsOf;
    var s := StructureOf(o.privateStructure);
    StructureIs(o.privateStructure);
    hide StructureOf;
    EndorsementMeans(s, o.orgCount);
    match s
    case Choose2 =>
      hide Shares;
      NoCollections(o, s, 1);
      forall k: nat | k < |Pairs(1, o.orgCount)| ensures k < |cs| ==>
        Shares(o, cs[k], "org" + Itoa(Pairs(1, o.orgCount)[k].0) + "org" + Itoa(Pairs(1, o.orgCount)[k].1),
               {Pairs(1, o.orgCount)[k].0, Pairs(1, o.orgCount)[k].1})
      {
        PairsShare(o, s, 1, k);
      }
    case Common(vanity) =>
      hide Shares;
      NoCollections(o, s, 2);
      forall k: nat | k < |Pairs(2, o.orgCount)| {
        PairsShare(o, s, 2, k);
      }
    case Shared =>
      CountsAsked(o);
  }

  lemma NoCollections(o: Options, s: Structure, lo: nat)
    requires o.orgCount >= 1
    ensures |CollectionsOf(CountsOf(o), s, Pairs(lo, o.orgCount))| == |Pairs(lo, o.orgCount)|
  {
    CollectionsAt(CountsOf(o), s, Pairs(lo, o.orgCount));
  }

  lemma CountsAsked(o: Options)
    ensures CountsOf(o).required == (if o.reqPeerCount == -1 then o.orgCount * o.peerCount / 2 else o.reqPeerCount)
    ensures CountsOf(o).max == (if o.maxPeerCount == -1 then o.orgCount * o.peerCount - 1 else o.maxPeerCount)
  {
  }

  class Network {
    const options: Options
    var orderers: seq<Orderer>
    var orgs: seq<Org>
    var peerIndices: seq<string>
    var peerPorts: seq<PeerPort>
    var policy: string
    var collections: seq<Collection>
    var minEndorsers: int

    constructor (o: Options)
      ensures options == o && minEndorsers == o.minEndorsers
      ensures orderers == [] && orgs == [] && peerIndices == [] && peerPorts == [] && collections == []
    {
      options, minEndorsers := o, o.minEndorsers;
      orderers, orgs, peerIndices, peerPorts, policy, collections := [], [], [], [], "", [];
    }

    ghost predicate NodesComputed()
      reads this
    {
      && |orderers| == options.ordererCount && (forall i :: 0 <= i < |orderers| ==> orderers[i] == OrdererAt(options, i))
      && |orgs| == options.orgCount && (forall i :: 0 <= i < |orgs| ==> orgs[i] == OrgAt(i + 1))
      && |peerIndices| == options.peerCount && (forall j :: 0 <= j < |peerIndices| ==> peerIndices[j] == Itoa(j))
      && peerPorts == PeerRows(|orgs|, |peerIndices|)
    }

    ghost predicate PoliciesComputed()
      reads this
    {
      && options.orgCount >= 1
      && policy == PolicyText(Endorsement(StructureOf(options.privateStructure), options.orgCount))
      && collections == AllCollections(options)
    }

    method MemberList(from: nat) returns (text: string)
      requires 1 <= from <= options.orgCount + 1
      ensures text == Join(RuleTexts(Members(from, options.orgCount)), ", ")
    {
      var texts: seq<string> := [];
      var i := from;
      while i <= options.orgCount
        invariant from <= i <= options.orgCount + 1 && texts == RuleTexts(Members(from, i - 1))
      {
        assert Members(from, i)[..|Members(from, i)| - 1] == Members(from, i - 1);
        texts := texts + [MemberText(i)];
        i := i + 1;
      }
      text := Join(texts, ", ");
    }

    /** The collections of the pairs from org lo on. */
    method AddCollections(lo: nat)
      requires (lo == 1 || lo == 2) && options.orgCount >= 1 && collections == []
      requires var s := StructureOf(options.privateStructure); if lo == 1 then s == Choose2 else s.Common? && |s.vanity| == options.orgCount
      modifies this`collections
      ensures collections == CollectionsOf(CountsOf(options), StructureOf(options.privateStructure), Pairs(lo, options.orgCount))
    {
      hide CollectionsOf, PairRows, Itoa, PolicyText, MemberText;
      var s, n := StructureOf(options.privateStructure), options.orgCount;
      assert collections == CollectionsOf(CountsOf(options), s, PairRows(lo, lo, n)) by {
        NoPairs(s, lo, n);
      }
      for i := lo to n + 1
        invariant collections == CollectionsOf(CountsOf(options), s, PairRows(lo, i, n))
      {
        ghost var rows := PairRows(lo, i, n);
        assert rows + PairRow(i, i + 1, i) == rows;
        for j := i + 1 to n + 1
          invariant collections == CollectionsOf(CountsOf(options), s, rows + PairRow(i, i + 1, j - 1))
        {
          CollectionsMore(CountsOf(options), s, rows + PairRow(i, i + 1, j - 1), (i, j));
          assert rows + PairRow(i, i + 1, j - 1) + [(i, j)] == rows + PairRow(i, i + 1, j);
          PairText(i, j);
          TripleText(1, i, j);
          var c;
          if s.Common? {
            c := Collection(s.vanity[i-1] + "_" + s.vanity[j-1],
                            "OR(" + (MemberText(1) + "," + (MemberText(i) + "," + MemberText(j))) + ")",
                            CountsOf(options).required, CountsOf(options).max);
          } else {
            c := Collection("org" + Itoa(i) + "org" + Itoa(j),
                            "OR(" + (MemberText(i) + ", " + MemberText(j)) + ")",
                            CountsOf(options).required, CountsOf(options).max);
          }
          assert c == CollectionOf(CountsOf(options), s, (i, j));
          collections := collections + [c];
        }
        RowDone(lo, i, n);
      }
    }

    lemma NoPairs(s: Structure, lo: nat, n: nat)
      ensures CollectionsOf(CountsOf(options), s, PairRows(lo, lo, n)) == []
    {
    }

    lemma RowDone(lo: nat, i: nat, n: nat)
      requires lo <= i
      ensures PairRows(lo, i + 1, n) == PairRows(lo, i, n) + PairRow(i, i + 1, n)
    {
    }

    method ComputePolicies() returns (r: Option<Error>)
      requires options.orgCount >= 1 && collections == []
      modifies this`policy, this`collections
      ensures
        var s := StructureOf(options.privateStructure);
        r == if s.Common? && |s.vanity| != options.orgCount then Some(BadVanity) else None
      ensures r.None? ==> PoliciesComputed() && PoliciesAsked(options, policy, collections)
      ensures r.Some? <==> exists vanity :: VanityText(options.privateStructure, vanity) && |vanity| != options.orgCount
    {
      hide Itoa, PolicyText, MemberText, RuleTexts, Members, Endorsement, CollectionsOf, Pairs, Split, Join;
      hide StructureOf, PoliciesAsked, VanityText, CountsOf;
      var s := StructureOf(options.privateStructure);
      StructureIs(options.privateStructure);
      match s {
        case Common(vanity) =>
          if |vanity| != options.orgCount {
            return Some(BadVanity);
          }
          var others := MemberList(2);
          policy := "Or(" + (MemberText(1) + ", " + ("OutOf(2, " + others + ")")) + ")";
          CommonText(vanity, options.orgCount);
          AddCollections(2);
        case Choose2 =>
          var all := MemberList(1);
          policy := "OutOf(2, " + all + ")";
          Choose2Text(options.orgCount);
          AddCollections(1);
        case Shared =>
          var all := MemberList(1);
          SharedText(options.orgCount);
          policy := "OR(" + all + ")";
          collections := [Collection("private", "OR(" + all + ")", CountsOf(options).required, CountsOf(options).max)];
      }
      ComputedAsAsked(options, policy, collections);
      return None;
    }

    lemma SharedText(orgs: nat)
      ensures PolicyText(Endorsement(Shared, orgs)) == "OR(" + Join(RuleTexts(Members(1, orgs)), ", ") + ")"
    {
    }

    method AddOrderers()
      requires options.ordererCount >= 1 && orderers == []
      modifies this`orderers
      ensures |orderers| == options.ordererCount && forall i :: 0 <= i < |orderers| ==> orderers[i] == OrdererAt(options, i)
    {
      hide Itoa;
      var connect := if options.connectDomain == "" then options.domain else options.connectDomain;
      for i := 0 to options.ordererCount
        invariant |orderers| == i && forall k :: 0 <= k < i ==> orderers[k] == OrdererAt(options, k)
      {
        orderers := orderers + [Orderer("orderer" + Itoa(i) + "." + connect, "orderer" + Itoa(i) + "." + options.domain,
                                        "7050", Itoa(7050 + 1000 * i), i)];
      }
    }

    method AddOrgs()
      requires options.orgCount >= 1 && options.peerCount >= 1 && orgs == [] && peerIndices == []
      modifies this`orgs, this`peerIndices
      ensures |orgs| == options.orgCount && forall i :: 0 <= i < |orgs| ==> orgs[i] == OrgAt(i + 1)
      ensures |peerIndices| == options.peerCount && forall j :: 0 <= j < |peerIndices| ==> peerIndices[j] == Itoa(j)
    {
      hide Itoa;
      for i := 1 to options.orgCount + 1
        invariant |orgs| == i - 1 && forall k :: 0 <= k < i - 1 ==> orgs[k] == OrgAt(k + 1)
        invariant peerIndices == []
      {
        orgs := orgs + [Org(Itoa(i), Itoa(1000 * i + 6054))];
      }
      for j := 0 to options.peerCount
        invariant |orgs| == options.orgCount && forall k :: 0 <= k < |orgs| ==> orgs[k] == OrgAt(k + 1)
        invariant |peerIndices| == j && forall k :: 0 <= k < j ==> peerIndices[k] == Itoa(k)
      {
        peerIndices := peerIndices + [Itoa(j)];
      }
    }

    /** Each peer takes the next port prefix, in org and then peer order. */
    method AddPeerPorts()
      requires peerPorts == []
      requires forall i :: 0 <= i < |orgs| ==> orgs[i] == OrgAt(i + 1)
      requires forall j :: 0 <= j < |peerIndices| ==> peerIndices[j] == Itoa(j)
      modifies this`peerPorts
      ensures peerPorts == PeerRows(|orgs|, |peerIndices|)
    {
      hide Itoa, PeerRow, PeerRows;
      NoPeerRows(|peerIndices|);
      var p := 70;
      for i := 0 to |orgs|
        invariant peerPorts == PeerRows(i, |peerIndices|) && p == 70 + 10 * |peerPorts|
      {
        ghost var start := peerPorts;
        assert orgs[i] == OrgAt(i + 1);
        for j := 0 to |peerIndices|
          invariant peerPorts == start + PeerRow(i + 1, j, |start|) && p == 70 + 10 * |peerPorts|
        {
          PeerRowIs(i + 1, j, |start|);
          PeerRowMore(i + 1, j, |start|);
          peerPorts := peerPorts + [PeerPort(orgs[i].index, peerIndices[j], "0", Itoa(p))];
          p := p + 10;
        }
        PeerRowsMore(i, |peerIndices|);
      }
    }
  }

  /** The published ports are those of the network's orderers, orgs and peers. */
  lemma PublishedPorts(n: Network)
    requires n.options.orgCount >= 1 && n.options.peerCount >= 1 && n.options.ordererCount >= 1 && n.NodesComputed()
    ensures forall i :: 0 <= i < |n.orderers| ==>
              InNetwork(n.options, OrdererPort(i)) && HostPort(n.options, OrdererPort(i)) == n.orderers[i].hostPort
    ensures forall i :: 1 <= i <= |n.orgs| ==>
              InNetwork(n.options, CaPort(i)) && HostPort(n.options, CaPort(i)) == n.orgs[i-1].caPort
    ensures forall k :: 0 <= k < |n.peerPorts| ==>
              && InNetwork(n.options, GrpcPort(k)) && HostPort(n.options, GrpcPort(k)) == n.peerPorts[k].prefix + "51"
              && InNetwork(n.options, EventPort(k)) && HostPort(n.options, EventPort(k)) == n.peerPorts[k].prefix + "53"
    ensures forall x :: InNetwork(n.options, x) ==>
              match x
              case OrdererPort(i) => i < |n.orderers|
              case CaPort(i) => 1 <= i <= |n.orgs|
              case GrpcPort(k) => k < |n.peerPorts|
              case EventPort(k) => k < |n.peerPorts|
  {
    hide Itoa, PeerRows;
    assert forall i :: 1 <= i <= |n.orgs| ==> n.orgs[i-1] == OrgAt(i);
  }

  /** The network for these options: the nodes with their ports, the policies,
      and -1 endorsers for a majority of the peers. */
  method New(o: Options) returns (r: Result<Network, Error>)
    ensures r.Failure? <==> Check(o).Some?
    ensures r.Failure? ==> Some(r.error) == Check(o)
    ensures r.Success? ==> fresh(r.value) && r.value.options == o && r.value.NodesComputed() && r.value.PoliciesComputed()
    // On the text of --private-structure.
    ensures r == Failure(BadVanity) <==>
            && o.orgCount >= 1 && o.peerCount >= 1 && o.ordererCount >= 1 && o.ordererType == "etcdraft"
            && exists vanity :: VanityText(o.privateStructure, vanity) && |vanity| != o.orgCount
    ensures r.Success? ==> o.orgCount >= 1 && PoliciesAsked(o, r.value.policy, r.value.collections)
    ensures r.Success? ==> o.orgCount >= 1 && o.peerCount >= 1 &&
                           r.value.minEndorsers == if o.minEndorsers == -1 then Majority(o.orgCount, o.peerCount) else o.minEndorsers
  {
    hide Itoa, Split, PolicyText, Endorsement, AllCollections, PeerRows, OrdererAt, OrgAt, PoliciesAsked, VanityText, StructureOf;
    if o.orgCount < 1 {
      return Failure(BadOrgCount);
    }
    if o.peerCount < 1 {
      return Failure(BadPeerCount);
    }
    if o.ordererCount < 1 {
      return Failure(BadOrdererCount);
    }
    if o.ordererType != "etcdraft" {
      return Failure(BadOrdererType);
    }
    var n := new Network(o);
    n.AddOrderers();
    n.AddOrgs();
    n.AddPeerPorts();
    var e := n.ComputePolicies();
    if e.Some? {
      return Failure(e.value);
    }
    if n.minEndorsers == -1 {
      n.minEndorsers := o.orgCount * o.peerCount / 2 + 1;
    }
    return Success(n);
  }
}
