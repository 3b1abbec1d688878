/**
 The network as the admin client sees it: what the peers, the orderers and the
 channel's ledger hold, and what one attempt of one retried step may do to it.

 A call may fail with no effect, take effect although the reply is lost, or
 succeed.  A peer answers from its own copy of the ledger, a prefix of the
 ordered one that only grows.  A node may refuse a call for any further reason
 of its own: that is the call that fails with no effect.
 */
module Fabric {
  import opened Wrappers

  datatype PeerRef = PeerRef(org: int, peer: int)

  /** <label>:<digest of the package file>. */
  datatype PackageId = PackageId(tag: string, digest: string)

  /** The parts of a definition that one run gives every chaincode. */
  datatype Terms = Terms(policy: string, collections: string, initRequired: bool)

  /** A chaincode definition.  The package is each org's own choice and is not
      part of what is committed. */
  datatype Definition = Definition(name: string, version: string, number: nat, terms: Terms)

  datatype Tx = Approval(org: int, def: Definition, pkg: PackageId) | Commitment(def: Definition)

  type Block = string

  /** An orderer that has the channel is not active in it at once. */
  datatype Membership = Onboarding(block: Block) | Active(block: Block)

  /** orgs to views: the lifecycle.  orderers, peers: which node has the channel,
      and with which genesis block.  channel, anchors: the channel of a network
      whose orderers run the system channel, and the orgs whose anchor peer
      update has been ordered. */
  datatype World = World(
    orgs: set<int>,
    installed: map<PeerRef, seq<PackageId>>,
    ledger: seq<Tx>,
    views: map<PeerRef, seq<Tx>>,
    orderers: map<int, Membership>,
    peers: map<PeerRef, Block>,
    channel: Option<Block>,
    anchors: set<int>)

  /******* What the ledger says *******/

  function Committed(l: seq<Tx>, name: string): Option<Definition> {
    if l == [] then None
    else if l[|l|-1].Commitment? && l[|l|-1].def.name == name then Some(l[|l|-1].def)
    else Committed(l[..|l|-1], name)
  }

  function SeqOf(l: seq<Tx>, name: string): nat {
    match Committed(l, name)
    case None => 0
    case Some(d) => d.number
  }

  /** The last definition org approved for a chaincode and sequence, and the package it named. */
  function Approved(l: seq<Tx>, org: int, name: string, n: nat): Option<(Definition, PackageId)> {
    if l == [] then None
    else
      var x := l[|l|-1];
      if x.Approval? && x.org == org && x.def.name == name && x.def.number == n then Some((x.def, x.pkg))
      else Approved(l[..|l|-1], org, name, n)
  }

  /** The commit readiness of an org: it looks at the definition, not at the package. */
  predicate Ready(l: seq<Tx>, org: int, def: Definition) {
    var a := Approved(l, org, def.name, def.number);
    a.Some? && a.value.0 == def
  }

  /** The ledger's own guard: a definition commits only at the next sequence. */
  predicate Accepts(l: seq<Tx>, x: Tx) {
    x.Commitment? ==> x.def.number == SeqOf(l, x.def.name) + 1
  }

  predicate ValidLedger(l: seq<Tx>) {
    l == [] || (ValidLedger(l[..|l|-1]) && Accepts(l[..|l|-1], l[|l|-1]))
  }

  /** A peer's copy of the ledger. */
  function View(views: map<PeerRef, seq<Tx>>, p: PeerRef): seq<Tx> {
    if p in views then views[p] else []
  }

  function Packages(installed: map<PeerRef, seq<PackageId>>, p: PeerRef): seq<PackageId> {
    if p in installed then installed[p] else []
  }

  ghost predicate ValidWorld(w: World) {
    ValidLedger(w.ledger) && forall p :: View(w.views, p) <= w.ledger
  }

  /******* One attempt of one step *******/

  /** The functions that the client hands to its retry loop. */
  datatype Step =
    | InstallOn(peer: PeerRef, pkg: PackageId)
    | NextSequence(peer: PeerRef, name: string)
    | ApproveOn(peer: PeerRef, def: Definition, pkg: PackageId)
    | WaitReady(peer: PeerRef, def: Definition)
    | CommitOn(peer: PeerRef, def: Definition)
    | WaitCommitted(peer: PeerRef, def: Definition)
    | JoinOrderer(orderer: int, block: Block)
    | JoinPeer(peer: PeerRef, block: Block)
    | CreateFrom(path: string)
    | FetchGenesis
    | UpdateAnchors(org: int, update: string)

  /** asked: the query that the attempt starts with was answered.  sent: it made
      its state-changing call.  number: the sequence that NextSequence read.
      block: what FetchGenesis got. */
  datatype Attempt = Attempt(before: World, step: Step, after: World, ok: bool, asked: bool, sent: bool, number: nat, block: Block)

  /** This copy of the ledger has a definition of def's name at def's sequence. */
  predicate Shows(l: seq<Tx>, def: Definition) {
    var c := Committed(l, def.name);
    c.Some? && c.value.number == def.number
  }

  /** p's copy of the ledger may have caught up. */
  ghost predicate CaughtUp(w: World, p: PeerRef, w': World) {
    && View(w.views, p) <= View(w'.views, p) <= w.ledger
    && w'.views == w.views[p := View(w'.views, p)]
  }

  /** p caught up and answered; nothing else changed. */
  ghost predicate Answered(w: World, p: PeerRef, w': World) {
    CaughtUp(w, p, w') && w' == w.(views := w'.views)
  }

  /** p caught up and answered, and then x may have been ordered. */
  ghost predicate Ordered(w: World, p: PeerRef, x: Tx, w': World, sent: bool) {
    && CaughtUp(w, p, w') && w' == w.(views := w'.views, ledger := w'.ledger)
    && (w'.ledger == w.ledger || (sent && Accepts(w.ledger, x) && w'.ledger == w.ledger + [x]))
  }

  ghost predicate Attempted(a: Attempt) {
    var w, w' := a.before, a.after;
    match a.step
    case InstallOn(p, pkg) =>
      && (a.sent <==> a.asked && pkg !in Packages(w.installed, p))
      && (!a.sent ==> (a.ok <==> a.asked))
      && (w' == w || (a.sent && w' == w.(installed := w.installed[p := Packages(w.installed, p) + [pkg]])))
      && (a.ok ==> pkg in Packages(w'.installed, p))
    case NextSequence(p, name) =>
      && Answered(w, p, w') && !a.sent
      && (a.ok <==> a.asked)
      && (a.ok ==> a.number == SeqOf(View(w'.views, p), name) + 1)
    case ApproveOn(p, def, pkg) =>
      && Ordered(w, p, Approval(p.org, def, pkg), w', a.sent)
      && (a.sent <==> !(a.asked && Ready(View(w'.views, p), p.org, def)))
      && (a.ok <== !a.sent)
      && (a.ok && a.sent ==> w'.ledger != w.ledger)
    case WaitReady(p, def) =>
      && Answered(w, p, w') && !a.sent
      && (a.ok <==> a.asked && forall org :: org in w.orgs ==> Ready(View(w'.views, p), org, def))
    case CommitOn(p, def) =>
      && Ordered(w, p, Commitment(def), w', a.sent)
      && (a.sent <==> !(a.asked && Shows(View(w'.views, p), def)))
      && (a.ok <== !a.sent)
      && (a.ok && a.sent ==> w'.ledger != w.ledger)
    case WaitCommitted(p, def) =>
      && Answered(w, p, w') && !a.sent
      && (a.ok <==> a.asked && Shows(View(w'.views, p), def) && Committed(View(w'.views, p), def.name).value.version == def.version)
    case JoinOrderer(i, block) =>
      && (!a.sent ==> (a.ok <==> a.asked))
      && (a.ok ==> i in w'.orderers)
      && exists m: map<int, Membership> :: Settled(w.orderers, m) && w' == w.(orderers := w'.orderers) &&
           (a.sent <==> a.asked && !(i in m && m[i].Active?)) &&
           (w'.orderers == m || (a.sent && i !in m && w'.orderers == m[i := Onboarding(block)]))
    case JoinPeer(p, block) =>
      && (a.sent <==> a.asked && p !in w.peers)
      && (!a.sent ==> (a.ok <==> a.asked))
      && (a.ok ==> p in w'.peers)
      && (w' == w || (a.sent && w' == w.(peers := w.peers[p := block])))
    case CreateFrom(_) =>
      && (a.sent ==> a.asked)
      && (w' == w || (a.sent && w.channel.None? && w'.channel.Some? && w' == w.(channel := w'.channel)))
      && (a.ok ==> if a.sent then w'.channel != w.channel else w.channel.Some?)
    case FetchGenesis =>
      && w' == w && !a.sent
      && (a.ok <==> a.asked)
      && (a.ok ==> w.channel == Some(a.block))
    case UpdateAnchors(org, _) =>
      && (w' == w || (a.sent && w' == w.(anchors := w.anchors + {org})))
      && a.sent
      && (a.ok ==> org in w'.anchors)
  }

  /** An orderer that is taking in the channel may have become active. */
  ghost predicate Settled(m: map<int, Membership>, m': map<int, Membership>) {
    && m'.Keys == m.Keys
    && forall i :: i in m ==> m'[i] == m[i] || m'[i] == Active(m[i].block)
  }

  /** A run: each attempt starts in the world the one before it left. */
  ghost predicate Chained(w: World, t: seq<Attempt>, w': World)
    decreases |t|
  {
    if t == [] then w == w'
    else t[0].before == w && Attempted(t[0]) && Chained(t[0].after, t[1..], w')
  }

  lemma {:induction false} ChainedConcat(w: World, t: seq<Attempt>, m: World, u: seq<Attempt>, w': World)
    requires Chained(w, t, m) && Chained(m, u, w')
    ensures Chained(w, t + u, w')
    decreases |t|
  {
    if t == [] {
      assert t + u == u;
    } else {
      ChainedConcat(t[0].after, t[1..], m, u, w');
      assert (t + u)[1..] == t[1..] + u;
    }
  }

  lemma ChainedNone(w: World)
    ensures Chained(w, [], w)
  {
  }

  lemma ChainedMore(w: World, t: seq<Attempt>, a: Attempt)
    requires Chained(w, t, a.before) && Attempted(a)
    ensures Chained(w, t + [a], a.after)
  {
    hide Attempted;
    assert [a][1..] == [];
    ChainedConcat(w, t, a.before, [a], a.after);
  }

  /******* What every attempt keeps *******/

  predicate Later(m: Membership, m': Membership) {
    m'.block == m.block && (m.Active? ==> m'.Active?)
  }

  /** Nothing a node holds is lost. */
  ghost predicate Grown(w: World, w': World) {
    && w'.orgs == w.orgs
    && w.ledger <= w'.ledger
    && (forall p :: Packages(w.installed, p) <= Packages(w'.installed, p))
    && (forall p :: View(w.views, p) <= View(w'.views, p))
    && (forall i :: i in w.orderers ==> i in w'.orderers && Later(w.orderers[i], w'.orderers[i]))
    && (forall p :: p in w.peers ==> p in w'.peers && w'.peers[p] == w.peers[p])
    && (w.channel.Some? ==> w'.channel == w.channel)
    && w.anchors <= w'.anchors
  }

  lemma GrownReflexive(w: World)
    ensures Grown(w, w)
  {
  }

  lemma GrownTransitive(w: World, m: World, w': World)
    requires Grown(w, m) && Grown(m, w')
    ensures Grown(w, w')
  {
    forall p ensures View(w.views, p) <= View(w'.views, p) && Packages(w.installed, p) <= Packages(w'.installed, p) {
      assert View(w.views, p) <= View(m.views, p) && Packages(w.installed, p) <= Packages(m.installed, p);
    }
  }

  lemma LedgerAppend(l: seq<Tx>, x: Tx, name: string)
    ensures (l + [x])[..|l|] == l
    ensures Committed(l + [x], name) == if x.Commitment? && x.def.name == name then Some(x.def) else Committed(l, name)
    ensures ValidLedger(l) && Accepts(l, x) ==> ValidLedger(l + [x])
  {
    assert (l + [x])[..|l|] == l;
  }

  lemma LedgerKept(a: Attempt)
    requires ValidLedger(a.before.ledger) && Attempted(a)
    ensures a.before.ledger <= a.after.ledger && ValidLedger(a.after.ledger)
  {
    hide ValidLedger, Accepts, Committed, Approved;
    if a.after.ledger != a.before.ledger {
      var x := a.after.ledger[|a.before.ledger|];
      assert a.after.ledger == a.before.ledger + [x];
      LedgerAppend(a.before.ledger, x, "");
    }
  }

  lemma ViewsKept(a: Attempt, p: PeerRef)
    requires ValidWorld(a.before) && Attempted(a)
    ensures View(a.before.views, p) <= View(a.after.views, p) <= a.after.ledger
  {
    hide ValidLedger, Accepts, Committed, Approved, Ready, Shows;
    assert View(a.before.views, p) <= a.before.ledger;
  }

  lemma OrderersKept(a: Attempt)
    requires Attempted(a)
    ensures forall i :: i in a.before.orderers ==> i in a.after.orderers && Later(a.before.orderers[i], a.after.orderers[i])
  {
    hide ValidLedger, Accepts, Committed, Approved, Ready, Shows, View, Packages;
  }

  /** The other parts of the world that hold no ledger. */
  lemma OthersKept(a: Attempt)
    requires Attempted(a)
    ensures a.after.orgs == a.before.orgs
    ensures forall p :: Packages(a.before.installed, p) <= Packages(a.after.installed, p)
    ensures forall p :: p in a.before.peers ==> p in a.after.peers && a.after.peers[p] == a.before.peers[p]
    ensures a.before.channel.Some? ==> a.after.channel == a.before.channel
    ensures a.before.anchors <= a.after.anchors
  {
    hide ValidLedger, Accepts, Committed, Approved, Ready, Shows, View, Settled;
  }

  lemma AttemptKeeps(a: Attempt)
    requires ValidWorld(a.before) && Attempted(a)
    ensures ValidWorld(a.after) && Grown(a.before, a.after)
  {
    hide Attempted, ValidLedger, Accepts;
    LedgerKept(a);
    OrderersKept(a);
    OthersKept(a);
    forall p ensures View(a.before.views, p) <= View(a.after.views, p) <= a.after.ledger {
      ViewsKept(a, p);
    }
  }

  lemma {:induction false} ChainKeeps(w: World, t: seq<Attempt>, w': World)
    requires ValidWorld(w) && Chained(w, t, w')
    ensures ValidWorld(w') && Grown(w, w')
    decreases |t|
  {
    hide Attempted;
    if t != [] {
      AttemptKeeps(t[0]);
      ChainKeeps(t[0].after, t[1..], w');
      GrownTransitive(w, t[0].after, w');
    }
  }

  /** A peer that lags never shows a later definition than the ledger has, and
      two ledgers at the same sequence hold the same definition. */
  lemma {:induction false} LaggingView(v: seq<Tx>, l: seq<Tx>, name: string)
    requires v <= l && ValidLedger(l)
    ensures SeqOf(v, name) <= SeqOf(l, name)
    ensures SeqOf(v, name) == SeqOf(l, name) ==> Committed(v, name) == Committed(l, name)
    ensures Committed(l, name).Some? ==> SeqOf(l, name) > 0 && Committed(l, name).value.name == name
  {
    if v == l {
      if l != [] {
        LaggingView(l[..|l|-1], l[..|l|-1], name);
      }
    } else {
      assert v <= l[..|l|-1];
      LaggingView(v, l[..|l|-1], name);
    }
  }

  /** An approval that a ledger shows is one of its transactions, and stays one. */
  lemma {:induction false} ApprovalStays(v: seq<Tx>, l: seq<Tx>, org: int, def: Definition)
    requires v <= l && Ready(v, org, def)
    ensures Approval(org, def, Approved(v, org, def.name, def.number).value.1) in l
  {
    var x := v[|v|-1];
    if x.Approval? && x.org == org && x.def.name == def.name && x.def.number == def.number {
      assert x == l[|v|-1];
    } else {
      ApprovalStays(v[..|v|-1], l, org, def);
    }
  }
}
