/**
 The admin client: it drives the network of module Fabric through retried
 steps.  Every call to a node has an unknown outcome, so what a method promises
 holds for every pattern of failures, lost replies and lag.
 */
module Admin {
  import opened Wrappers
  import opened Fabric
  import opened Lifecycle
  import opened Channels
  import opened Deliver
  import opened Retries
  import opened Decimal

  /** What a query got: an answer, or an error. */
  datatype Reply<+T> = Failed | Answer(value: T)

  datatype InstallOptions = InstallOptions(version: string, packageDir: string, names: seq<string>, initRequired: bool)

  function Label(name: string, version: string): string {
    name + "-" + version
  }

  /** The digest is taken to be injective: the package itself. */
  function PackageIdOf(tag: string, pkg: string): PackageId {
    PackageId(tag, pkg)
  }

  /** The first phase, made before the sequence is known. */
  lemma FirstAdvance(c: Topology, plan: Plan, read: nat, number: nat, p: Project, n: int, start: World, t: seq<Attempt>, w: World, ok: bool, cancelled: bool)
    requires ValidTopology(c) && Chained(start, t, w) && InTurn(p, n, t, PhaseSteps(c, plan, read, 0), ok, cancelled)
    ensures Staged(c, plan, number, t) && InTurn(p, n, t, StepsTo(c, plan, number, 1), ok, cancelled)
    ensures ok ==> Underway(c, plan, number, start, t, w, 1)
  {
    hide Attempted, Chained, InTurn, PhaseSteps, Staged, PhaseDone, OfPhase, Underway;
    FirstPhase(c, plan, read, number);
    SweptPhase(c, plan, number, 0, p, n, t, ok, cancelled);
    Underway0(c, plan, number, start);
    Advance(c, plan, number, start, [], start, t, w, 0);
    NoSteps(c, plan, number);
    StepsMore(c, plan, number, 0);
    assert [] + t == t && [] + PhaseSteps(c, plan, number, 0) == PhaseSteps(c, plan, number, 0);
  }

  /** A phase after those that are done. */
  lemma NextPhase(c: Topology, plan: Plan, number: nat, p: Project, n: int, start: World, t: seq<Attempt>, m: World, was: bool,
                  u: seq<Attempt>, w: World, phase: nat, ok: bool, cancelled: bool)
    requires ValidTopology(c) && phase < 6 && Underway(c, plan, number, start, t, m, phase) && Chained(m, u, w)
    requires OfPhase(c, plan, number, u, phase) && (ok ==> PhaseDone(c, plan, number, phase, u, |u|))
    requires InTurn(p, n, t, StepsTo(c, plan, number, phase), true, was) && (was ==> cancelled)
    requires InTurn(p, n, u, PhaseSteps(c, plan, number, phase), ok, cancelled)
    ensures Chained(start, t + u, w) && Staged(c, plan, number, t + u)
    ensures InTurn(p, n, t + u, StepsTo(c, plan, number, phase + 1), ok, cancelled)
    ensures ok ==> Underway(c, plan, number, start, t + u, w, phase + 1)
  {
    hide Attempted, Chained, InTurn, PhaseSteps, Staged, PhaseDone, OfPhase, Underway, StepsTo;
    Advance(c, plan, number, start, t, m, u, w, phase);
    StepsMore(c, plan, number, phase);
    TurnsNext(p, n, t, StepsTo(c, plan, number, phase), was, u, PhaseSteps(c, plan, number, phase), ok, cancelled);
  }

  /** One step that is retried is a phase of its own. */
  lemma OneStep(c: Topology, plan: Plan, number: nat, phase: nat, u: seq<Attempt>, ok: bool)
    requires ValidTopology(c) && (phase == 1 || phase == 4)
    requires forall i :: 0 <= i < |u| ==> u[i].step == StepFor(plan, number, phase, Committer(c))
    requires ok ==> u != [] && u[|u|-1].ok && (phase == 1 ==> u[|u|-1].number == number)
    requires forall i :: 0 <= i < |u| && u[i].ok ==> ok && i == |u| - 1
    ensures OfPhase(c, plan, number, u, phase) && (ok ==> PhaseDone(c, plan, number, phase, u, |u|))
  {
  }

  /** up's run: the orderers' joins, and after them the peers'. */
  lemma UpRun(orderers: seq<int>, w: World, t: seq<Attempt>, m: World, u: seq<Attempt>, w': World, block: Block)
    requires ValidWorld(w) && Chained(w, t, m) && Chained(m, u, w')
    requires forall i :: 0 <= i < |t| ==> t[i].step.JoinOrderer? && t[i].step.block == block
    requires forall i :: 0 <= i < |u| ==> u[i].step.JoinPeer? && u[i].step.block == block
    requires forall i :: i in orderers ==> Succeeded(t, |t|, JoinOrderer(i, block))
    ensures Chained(w, t + u, w') && UpShaped(orderers, t + u, block)
    ensures forall i :: i in orderers ==> OrdererIn(w, w', i, block)
    ensures forall p :: PeerIn(m, w', p, block) ==> PeerIn(w, w', p, block)
  {
    hide Attempted, Chained, ValidWorld, Succeeded;
    ChainedConcat(w, t, m, u, w');
    forall k, i | |t| <= k < |t + u| && i in orderers ensures Succeeded(t + u, k, JoinOrderer(i, block)) {
      SucceededMore(t, |t|, t + u, k, JoinOrderer(i, block));
    }
    assert forall k :: |t| <= k < |t + u| ==> AfterOrderers(orderers, t + u, k, block);
    forall i | i in orderers ensures Succeeded(t + u, |t + u|, JoinOrderer(i, block)) {
      SucceededMore(t, |t|, t + u, |t + u|, JoinOrderer(i, block));
    }
    AllJoined(w, t + u, w', block);
    OrderersLeavePeers(w, t, m);
  }

  lemma {:induction false} OrderersLeavePeers(w: World, t: seq<Attempt>, w': World)
    requires Chained(w, t, w') && forall i :: 0 <= i < |t| ==> t[i].step.JoinOrderer?
    ensures w'.peers == w.peers
    decreases |t|
  {
    if t != [] {
      OrderersLeavePeers(t[0].after, t[1..], w');
    }
  }

  lemma CreatedChannel(c: Topology, t: seq<Attempt>, block: Block, created: bool)
    requires forall i :: 0 <= i < |t| ==> t[i].step.CreateFrom? && (t[i].ok ==> i == |t| - 1)
    requires created <==> t != [] && t[|t|-1].ok && t[|t|-1].sent
    ensures SystemShaped(c, t, block) && forall i :: 0 <= i < |t| ==> SystemPhase(t[i].step) <= 1
    ensures created <==> Acknowledged(t, |t|)
  {
    hide Succeeded, Fetched, Acknowledged;
    assert forall i :: 0 <= i < |t| ==> SystemGate(c, t, block, i);
    AcknowledgedLast(t, created);
  }

  lemma AcknowledgedLast(t: seq<Attempt>, created: bool)
    requires forall i :: 0 <= i < |t| ==> t[i].step.CreateFrom? && (t[i].ok ==> i == |t| - 1)
    requires created <==> t != [] && t[|t|-1].ok && t[|t|-1].sent
    ensures created <==> Acknowledged(t, |t|)
  {
  }

  lemma FoundChannel(c: Topology, t: seq<Attempt>, u: seq<Attempt>, block: Block, created: bool, ok: bool)
    requires SystemShaped(c, t, block) && forall i :: 0 <= i < |t| ==> t[i].step.CreateFrom?
    requires forall i :: 0 <= i < |u| ==> u[i].step.FetchGenesis?
    requires created <==> Acknowledged(t, |t|)
    requires ok ==> u != [] && u[|u|-1].ok && u[|u|-1].block == block
    ensures SystemShaped(c, t + u, block) && forall i :: 0 <= i < |t + u| ==> SystemPhase((t + u)[i].step) <= 1
    ensures created <==> Acknowledged(t + u, |t + u|)
    ensures ok ==> Fetched(t + u, |t + u|, block)
  {
    hide SystemShaped, Acknowledged, Fetched;
    SystemAppend(c, t, u, block, 1);
    NoMoreCreated(t, u);
    if ok {
      FetchedLast(t, u, block);
    }
  }

  lemma NoMoreCreated(t: seq<Attempt>, u: seq<Attempt>)
    requires forall i :: 0 <= i < |u| ==> !u[i].step.CreateFrom?
    ensures Acknowledged(t + u, |t + u|) <==> Acknowledged(t, |t|)
  {
    if Acknowledged(t, |t|) {
      var i :| 0 <= i < |t| && t[i].step.CreateFrom? && t[i].ok && t[i].sent;
      assert (t + u)[i] == t[i];
    }
  }

  lemma FetchedLast(t: seq<Attempt>, u: seq<Attempt>, block: Block)
    requires u != [] && u[|u|-1].step.FetchGenesis? && u[|u|-1].ok && u[|u|-1].block == block
    ensures Fetched(t + u, |t + u|, block)
  {
    assert (t + u)[|t + u| - 1] == u[|u|-1];
  }

  lemma JoinedWith(c: Topology, t: seq<Attempt>, u: seq<Attempt>, block: Block, ok: bool)
    requires SystemShaped(c, t, block) && forall i :: 0 <= i < |t| ==> SystemPhase(t[i].step) <= 1
    requires forall i :: 0 <= i < |u| ==> u[i].step.JoinPeer? && u[i].step.block == block
    requires Fetched(t, |t|, block) && (ok ==> PeersIn(c, u, block))
    ensures SystemShaped(c, t + u, block) && forall i :: 0 <= i < |t + u| ==> SystemPhase((t + u)[i].step) <= 2
    ensures Acknowledged(t + u, |t + u|) <==> Acknowledged(t, |t|)
    ensures Fetched(t + u, |t + u|, block) && (ok ==> PeersIn(c, t + u, block))
  {
    SystemAppend(c, t, u, block, 2);
    GateMore(c, t, |t|, t + u, |t + u|, block);
    if ok {
      forall o, j | o in c.orgs && j in c.peers ensures Succeeded(t + u, |t + u|, JoinPeer(PeerRef(o, j), block)) {
        SucceededLater(t, u, JoinPeer(PeerRef(o, j), block));
      }
    }
  }

  lemma AnchorsMore(c: Topology, start: World, t: seq<Attempt>, m: World, u: seq<Attempt>, w: World, block: Block, org: int, ok: bool)
    requires ValidWorld(m) && Chained(start, t, m) && Chained(m, u, w) && SystemShaped(c, t, block) && org in c.orgs
    requires forall i :: 0 <= i < |t| ==> SystemPhase(t[i].step) <= 3
    requires forall i :: 0 <= i < |u| ==> u[i].step.UpdateAnchors? && u[i].step.org == org
    requires Acknowledged(t, |t|) && PeersIn(c, t, block) && Fetched(t, |t|, block)
    requires ok ==> u != [] && u[|u|-1].ok
    ensures Chained(start, t + u, w) && SystemShaped(c, t + u, block) && m.anchors <= w.anchors
    ensures forall i :: 0 <= i < |t + u| ==> SystemPhase((t + u)[i].step) <= 3
    ensures Acknowledged(t + u, |t + u|) && PeersIn(c, t + u, block) && Fetched(t + u, |t + u|, block)
    ensures ok ==> org in w.anchors
  {
    hide Attempted, Chained, ValidWorld;
    ChainedConcat(start, t, m, u, w);
    SystemAppend(c, t, u, block, 3);
    GateMore(c, t, |t|, t + u, |t + u|, block);
    ChainKeeps(m, u, w);
    if ok {
      ChainAt(m, u, w, |u| - 1);
      AnchorsAnswer(u[|u|-1]);
    }
  }

  lemma AnchorsAnswer(a: Attempt)
    requires Attempted(a) && a.step.UpdateAnchors? && a.ok
    ensures a.step.org in a.after.anchors
  {
  }

  lemma OrdererTurn(p: Project, n: int, i: int, block: Block, u: seq<Attempt>, ok: bool, cancelled: bool)
    requires if i in p.orderers then Retried(u, JoinOrderer(i, block), n, ok, cancelled) else u == [] && !ok
    ensures InTurn(p, n, u, [JoinOrderer(i, block)], ok, cancelled)
  {
    hide Retried, InTurn;
    OneTurn(p, n, u, JoinOrderer(i, block), ok, cancelled);
  }

  lemma OrderersInTurn(orderers: seq<int>, block: Block, p: Project, n: int, t: seq<Attempt>, ok: bool, cancelled: bool)
    requires InTurn(p, n, t, OrdererSteps(orderers, block), ok, cancelled)
    ensures forall i :: 0 <= i < |t| ==> t[i].step.JoinOrderer? && t[i].step.block == block
    ensures ok ==> forall i :: i in orderers ==> Succeeded(t, |t|, JoinOrderer(i, block))
  {
    hide InTurn, Succeeded;
    var ss := OrdererSteps(orderers, block);
    TurnsMake(p, n, t, ss, ok, cancelled);
    assert forall i :: 0 <= i < |t| ==> t[i].step in ss;
    forall i | i in orderers && ok ensures Succeeded(t, |t|, JoinOrderer(i, block)) {
      var k :| 0 <= k < |orderers| && orderers[k] == i;
      assert ss[k] == JoinOrderer(i, block);
    }
  }

  lemma PeersInTurn(c: Topology, block: Block, p: Project, n: int, t: seq<Attempt>, ok: bool, cancelled: bool)
    requires InTurn(p, n, t, SweepSteps(c.orgs, c.peers, JoinWith(block)), ok, cancelled)
    ensures forall i :: 0 <= i < |t| ==> t[i].step.JoinPeer? && t[i].step.block == block
    ensures ok ==> PeersIn(c, t, block)
  {
    hide InTurn, SweepSteps, Succeeded;
    var ss := SweepSteps(c.orgs, c.peers, JoinWith(block));
    TurnsMake(p, n, t, ss, ok, cancelled);
    SweepMembers(c.orgs, c.peers, JoinWith(block));
    forall i | 0 <= i < |t| ensures t[i].step.JoinPeer? && t[i].step.block == block {
      assert t[i].step in ss;
    }
    forall o, j | o in c.orgs && j in c.peers && ok ensures Succeeded(t, |t|, JoinPeer(PeerRef(o, j), block)) {
      assert JoinWith(block)(PeerRef(o, j)) in ss;
    }
  }

  lemma OneMoreRun(c: Topology, before: World, first: seq<Call>, h: seq<Segment>, mid: World, logged: seq<Call>, s: Segment, now: seq<Call>)
    requires ValidTopology(c) && History(c, before, h, mid) && Shaped(c, s) && s.start == mid
    requires logged == first + CallsOfRuns(h) && Logged(logged, s.t, now)
    ensures History(c, before, h + [s], s.end) && Attempts(h + [s]) == Attempts(h) + |s.t|
    ensures now == first + CallsOfRuns(h + [s])
  {
    hide Shaped, CallsOf, History, Attempts, CallsOfRuns;
    OneRun(c, s);
    HistoryConcat(c, before, h, mid, [s], s.end);
    RunsMore(h, s);
  }

  lemma OneRun(c: Topology, s: Segment)
    requires ValidTopology(c) && Shaped(c, s)
    ensures History(c, s.start, [s], s.end)
  {
    hide Shaped;
    assert [s][1..] == [];
  }

  lemma RunsMore(h: seq<Segment>, s: Segment)
    ensures Attempts(h + [s]) == Attempts(h) + |s.t| && CallsOfRuns(h + [s]) == CallsOfRuns(h) + CallsOf(s.t)
  {
    hide CallsOf;
    assert (h + [s])[..|h|] == h;
  }

  lemma CostRow(k: nat, n: nat, cost: nat)
    requires k < n
    ensures k * cost + cost == (k + 1) * cost <= n * cost
  {
    assert n * cost == (k + 1) * cost + (n - k - 1) * cost;
  }

  lemma UnderwayIs(c: Topology, plan: Plan, number: nat, start: World, t: seq<Attempt>, w: World, ok: bool)
    requires ValidTopology(c) && (ok ==> Underway(c, plan, number, start, t, w, 6))
    ensures ok ==> Ripe(c, plan, number, 6, t, |t|)
  {
  }

  class Network {
    const orgs: seq<int>
    const peers: seq<int>
    const orderers: seq<int>
    const project: Project
    const retries: int

    var w: World
    var conns: set<PeerRef>
    var cancelled: bool
    /** The calls made so far, in their order. */
    ghost var calls: seq<Call>

    constructor (orgs: seq<int>, peers: seq<int>, orderers: seq<int>, project: Project, retries: int, w: World)
      requires orgs != [] && peers != [] && orderers != []
      requires ValidWorld(w) && w.orgs == (set o | o in orgs)
      ensures Valid() && this.w == w && !cancelled && calls == []
      ensures this.orgs == orgs && this.peers == peers && this.orderers == orderers
      ensures this.project == project && this.retries == retries
    {
      this.orgs, this.peers, this.orderers := orgs, peers, orderers;
      this.project, this.retries, this.w := project, retries, w;
      conns, cancelled, calls := {}, false, [];
    }

    ghost predicate Valid()
      reads this
    {
      && orgs != [] && peers != [] && orderers != []
      && ValidWorld(w) && w.orgs == (set o | o in orgs) && conns <= project.peers
    }

    function Shape(): Topology {
      Topology(orgs, peers)
    }

    /******* Calls to the nodes *******/

    method CatchUp(p: PeerRef)
      requires Valid()
      modifies this`w
      ensures Valid() && Answered(old(w), p, w)
    {
      assert View(w.views, p) <= w.ledger;
      var height: int := *;
      var view := if |View(w.views, p)| <= height <= |w.ledger| then w.ledger[..height] else w.ledger;
      w := w.(views := w.views[p := view]);
      assert forall q :: q != p ==> View(w.views, q) == View(old(w).views, q);
    }

    method QueryInstalled(p: PeerRef) returns (r: Reply<seq<PackageId>>)
      modifies this`calls
      ensures r.Answer? ==> r.value == Packages(w.installed, p)
      ensures calls == old(calls) + [Query(ToPeer(p), r.Answer?)]
    {
      var lost: bool := *;
      calls := calls + [Query(ToPeer(p), !lost)];
      r := if lost then Failed else Answer(Packages(w.installed, p));
    }

    method SendInstall(p: PeerRef, pkg: PackageId) returns (ok: bool)
      requires Valid()
      modifies this`w, this`calls
      ensures Valid()
      ensures w == old(w) || w == old(w).(installed := old(w).installed[p := Packages(old(w).installed, p) + [pkg]])
      ensures ok ==> w != old(w) && pkg in Packages(w.installed, p)
      ensures calls == old(calls) + [Change(ToPeer(p), ok)]
    {
      ok := *;
      calls := calls + [Change(ToPeer(p), ok)];
      var effect: bool := *;
      if ok || effect {
        w := w.(installed := w.installed[p := Packages(w.installed, p) + [pkg]]);
        assert |Packages(w.installed, p)| == |Packages(old(w).installed, p)| + 1;
      }
    }

    /** None: the peer says that the name is not defined. */
    method QueryCommitted(p: PeerRef, name: string) returns (r: Reply<Option<Definition>>)
      requires Valid()
      modifies this`w, this`calls
      ensures Valid() && Answered(old(w), p, w)
      ensures r.Answer? ==> r.value == Committed(View(w.views, p), name)
      ensures calls == old(calls) + [Query(ToPeer(p), r.Answer?)]
    {
      CatchUp(p);
      var lost: bool := *;
      calls := calls + [Query(ToPeer(p), !lost)];
      r := if lost then Failed else Answer(Committed(View(w.views, p), name));
    }

    method Readiness(p: PeerRef, def: Definition) returns (r: Reply<map<int, bool>>)
      requires Valid()
      modifies this`w, this`calls
      ensures Valid() && Answered(old(w), p, w)
      ensures r.Answer? ==> r.value.Keys == w.orgs
      ensures r.Answer? ==> forall org :: org in w.orgs ==> r.value[org] == Ready(View(w.views, p), org, def)
      ensures calls == old(calls) + [Query(ToPeer(p), r.Answer?)]
    {
      CatchUp(p);
      var lost: bool := *;
      calls := calls + [Query(ToPeer(p), !lost)];
      r := if lost then Failed else Answer(map org | org in w.orgs :: Ready(View(w.views, p), org, def));
    }

    /** Submits a transaction at p.  The ledger decides whether it takes it. */
    method Submit(p: PeerRef, x: Tx) returns (ok: bool)
      requires Valid()
      modifies this`w, this`calls
      ensures Valid()
      ensures w == old(w) || (Accepts(old(w).ledger, x) && w == old(w).(ledger := old(w).ledger + [x]))
      ensures ok ==> w.ledger == old(w).ledger + [x]
      ensures calls == old(calls) + [Change(ToPeer(p), ok)]
    {
      hide ValidLedger, Committed, Accepts;
      ok := *;
      var effect: bool := *;
      if (ok || effect) && Accepts(w.ledger, x) {
        LedgerAppend(w.ledger, x, "");
        assert forall q :: View(w.views, q) <= w.ledger;
        w := w.(ledger := w.ledger + [x]);
      } else {
        ok := false;
      }
      calls := calls + [Change(ToPeer(p), ok)];
    }

    /** None: the orderer does not have the channel. */
    method ChannelInfo(i: int) returns (r: Reply<Option<Membership>>)
      requires Valid()
      modifies this`w, this`calls
      ensures Valid() && w == old(w).(orderers := w.orderers) && Settled(old(w).orderers, w.orderers)
      ensures r.Answer? ==> r.value == if i in w.orderers then Some(w.orderers[i]) else None
      ensures calls == old(calls) + [Query(ToOrderer(i), r.Answer?)]
    {
      var settled: bool := *;
      if settled && i in w.orderers {
        w := w.(orderers := w.orderers[i := Active(w.orderers[i].block)]);
      }
      var lost: bool := *;
      calls := calls + [Query(ToOrderer(i), !lost)];
      r := if lost then Failed else Answer(if i in w.orderers then Some(w.orderers[i]) else None);
    }

    /** An orderer that has the channel in any state refuses a join. */
    method SendOrdererJoin(i: int, block: Block) returns (ok: bool)
      requires Valid()
      modifies this`w, this`calls
      ensures Valid()
      ensures w == old(w) || (i !in old(w).orderers && w == old(w).(orderers := old(w).orderers[i := Onboarding(block)]))
      ensures ok ==> i in w.orderers
      ensures calls == old(calls) + [Change(ToOrderer(i), ok)]
    {
      ok := *;
      var effect: bool := *;
      if (ok || effect) && i !in w.orderers {
        w := w.(orderers := w.orderers[i := Onboarding(block)]);
      } else {
        ok := false;
      }
      calls := calls + [Change(ToOrderer(i), ok)];
    }

    method ListChannels(p: PeerRef) returns (r: Reply<bool>)
      modifies this`calls
      ensures r.Answer? ==> r.value == (p in w.peers)
      ensures calls == old(calls) + [Query(ToPeer(p), r.Answer?)]
    {
      var lost: bool := *;
      calls := calls + [Query(ToPeer(p), !lost)];
      r := if lost then Failed else Answer(p in w.peers);
    }

    method SendPeerJoin(p: PeerRef, block: Block) returns (ok: bool)
      requires Valid() && p !in w.peers
      modifies this`w, this`calls
      ensures Valid() && (w == old(w) || w == old(w).(peers := old(w).peers[p := block]))
      ensures ok ==> p in w.peers
      ensures calls == old(calls) + [Change(ToPeer(p), ok)]
    {
      ok := *;
      calls := calls + [Change(ToPeer(p), ok)];
      var effect: bool := *;
      if ok || effect {
        w := w.(peers := w.peers[p := block]);
      }
    }

    /******* One attempt of each step *******/

    /** hasPackage: a package counts as installed by its ID, not by its label. */
    method HasPackage(list: seq<PackageId>, pkg: PackageId) returns (found: bool)
      ensures found <==> pkg in list
    {
      for i := 0 to |list|
        invariant pkg !in list[..i]
      {
        if list[i] == pkg {
          return true;
        }
      }
      return false;
    }

    method InstallOnce(p: PeerRef, pkg: PackageId) returns (ok: bool, ghost asked: bool, sent: bool)
      requires Valid()
      modifies this`w, this`calls
      ensures Valid() && Attempted(Attempt(old(w), InstallOn(p, pkg), w, ok, asked, sent, 0, ""))
      ensures calls == old(calls) + CallsOfOne(InstallOn(p, pkg), ok, asked, sent)
    {
      hide Ready, Approved, Committed, ValidLedger, Accepts;
      ok, asked, sent := false, false, false;
      var r := QueryInstalled(p);
      if r.Failed? {
        return;
      }
      asked := true;
      var found := HasPackage(r.value, pkg);
      if found {
        return true, true, false;
      }
      sent := true;
      ok := SendInstall(p, pkg);
    }

    method ReadOnce(p: PeerRef, name: string) returns (ok: bool, number: nat)
      requires Valid()
      modifies this`w, this`calls
      ensures Valid() && Attempted(Attempt(old(w), NextSequence(p, name), w, ok, ok, false, number, ""))
      ensures calls == old(calls) + CallsOfOne(NextSequence(p, name), ok, ok, false)
    {
      hide Ready, Approved, Committed, ValidLedger, Accepts;
      ok, number := false, 0;
      var r := QueryCommitted(p, name);
      match r {
        case Answer(Some(d)) => ok, number := true, d.number + 1;
        case Answer(None) => ok, number := true, 1;
        case Failed =>
      }
    }

    method ApproveOnce(p: PeerRef, def: Definition, pkg: PackageId) returns (ok: bool, ghost asked: bool, sent: bool)
      requires Valid() && p.org in orgs
      modifies this`w, this`calls
      ensures Valid() && Attempted(Attempt(old(w), ApproveOn(p, def, pkg), w, ok, asked, sent, 0, ""))
      ensures calls == old(calls) + CallsOfOne(ApproveOn(p, def, pkg), ok, asked, sent)
    {
      hide Ready, Approved, Committed, ValidLedger, Accepts;
      var r := Readiness(p, def);
      asked := r.Answer?;
      if r.Answer? && r.value[p.org] {
        return true, true, false;
      }
      sent := true;
      ok := Submit(p, Approval(p.org, def, pkg));
    }

    method ReadyOnce(p: PeerRef, def: Definition) returns (ok: bool, ghost asked: bool)
      requires Valid()
      modifies this`w, this`calls
      ensures Valid() && Attempted(Attempt(old(w), WaitReady(p, def), w, ok, asked, false, 0, ""))
      ensures calls == old(calls) + CallsOfOne(WaitReady(p, def), ok, asked, false)
    {
      hide Ready, Approved, Committed, ValidLedger, Accepts;
      ok := false;
      var r := Readiness(p, def);
      asked := r.Answer?;
      if r.Failed? {
        return;
      }
      ok := AllApproved(r.value);
    }

    lemma SomeOrg(left: set<int>)
      ensures left == {} || exists org :: org in left
    {
      if forall org :: org !in left {
        assert left == {};
      }
    }

    method AllApproved(approvals: map<int, bool>) returns (ok: bool)
      ensures ok <==> forall org :: org in approvals ==> approvals[org]
    {
      var left := approvals.Keys;
      while left != {}
        invariant left <= approvals.Keys
        invariant forall org :: org in approvals && org !in left ==> approvals[org]
        decreases |left|
      {
        SomeOrg(left);
        var org :| org in left;
        if !approvals[org] {
          return false;
        }
        left := left - {org};
      }
      return true;
    }

    method CommitOnce(p: PeerRef, def: Definition) returns (ok: bool, ghost asked: bool, sent: bool)
      requires Valid()
      modifies this`w, this`calls
      ensures Valid() && Attempted(Attempt(old(w), CommitOn(p, def), w, ok, asked, sent, 0, ""))
      ensures calls == old(calls) + CallsOfOne(CommitOn(p, def), ok, asked, sent)
    {
      hide Ready, Approved, Committed, ValidLedger, Accepts;
      var r := QueryCommitted(p, def.name);
      asked := r.Answer?;
      if r.Answer? && r.value.Some? && r.value.value.number == def.number {
        return true, true, false;
      }
      sent := true;
      ok := Submit(p, Commitment(def));
    }

    method CommittedOnce(p: PeerRef, def: Definition) returns (ok: bool, ghost asked: bool)
      requires Valid()
      modifies this`w, this`calls
      ensures Valid() && Attempted(Attempt(old(w), WaitCommitted(p, def), w, ok, asked, false, 0, ""))
      ensures calls == old(calls) + CallsOfOne(WaitCommitted(p, def), ok, asked, false)
    {
      hide Ready, Approved, Committed, ValidLedger, Accepts;
      var r := QueryCommitted(p, def.name);
      asked := r.Answer?;
      if r.Failed? || r.value.None? {
        return false, asked;
      }
      ok := r.value.value.version == def.version && r.value.value.number == def.number;
    }

    method JoinOrdererOnce(i: int, block: Block) returns (ok: bool, ghost asked: bool, sent: bool)
      requires Valid()
      modifies this`w, this`calls
      ensures Valid() && Attempted(Attempt(old(w), JoinOrderer(i, block), w, ok, asked, sent, 0, ""))
      ensures calls == old(calls) + CallsOfOne(JoinOrderer(i, block), ok, asked, sent)
    {
      hide Ready, Approved, Committed, ValidLedger, Accepts;
      ok, asked, sent := false, false, false;
      var r := ChannelInfo(i);
      assert Settled(old(w).orderers, w.orderers);
      if r.Failed? {
        return;
      }
      asked := true;
      if r.value.Some? && r.value.value.Active? {
        return true, true, false;
      }
      sent := true;
      ok := SendOrdererJoin(i, block);
    }

    method JoinPeerOnce(p: PeerRef, block: Block) returns (ok: bool, ghost asked: bool, sent: bool)
      requires Valid()
      modifies this`w, this`calls
      ensures Valid() && Attempted(Attempt(old(w), JoinPeer(p, block), w, ok, asked, sent, 0, ""))
      ensures calls == old(calls) + CallsOfOne(JoinPeer(p, block), ok, asked, sent)
    {
      hide Ready, Approved, Committed, ValidLedger, Accepts;
      ok, asked, sent := false, false, false;
      var r := ListChannels(p);
      if r.Failed? {
        return;
      }
      asked := true;
      if r.value {
        return true, true, false;
      }
      sent := true;
      ok := SendPeerJoin(p, block);
    }

    /** The deliver stream for block 0: any responses, but a block in it is the
        channel's. */
    method OpenDeliver() returns (stream: seq<Response>, ending: Ending)
      ensures forall i :: 0 <= i < |stream| && stream[i].BlockMsg? ==> w.channel == Some(stream[i].block)
    {
      stream := [];
      var n: int := *;
      while |stream| < n
        invariant forall j :: 0 <= j < |stream| && stream[j].BlockMsg? ==> w.channel == Some(stream[j].block)
      {
        var k: int := *;
        stream := stream + [
          if k == 0 then StatusMsg(SUCCESS)
          else if k == 1 then StatusMsg(NOT_FOUND)
          else if k == 2 then StatusMsg(SERVICE_UNAVAILABLE)
          else if k == 3 then StatusMsg(OTHER)
          else if k == 4 && w.channel.Some? then BlockMsg(w.channel.value)
          else OtherMsg];
      }
      var eof: bool := *;
      ending := if eof then Eof else Broken;
    }

    /** Answered: with a block, or that there is no such channel and no waiting for it. */
    method FetchBlock(wait: bool) returns (r: Result<Block, DeliverError>)
      modifies this`calls
      ensures r.Success? ==> w.channel == Some(r.value)
      ensures calls == old(calls) + [Query(ToOrdering(wait), r.Success? || (!wait && r.error == NoChannel))]
    {
      var open: bool := *;
      if open {
        var stream, ending := OpenDeliver();
        r := GenesisBlock(stream, ending, wait);
        LastBlockIsThere(stream[..BeforeStatus(stream)]);
      } else {
        r := Failure(Receive(Broken));
      }
      calls := calls + [Query(ToOrdering(wait), r.Success? || (!wait && r.error == NoChannel))];
    }

    /** Sends the creation transaction; the ordering service makes a channel once. */
    method BroadcastCreate(tx: string) returns (ok: bool)
      requires Valid()
      modifies this`w, this`calls
      ensures Valid()
      ensures w == old(w) || (old(w).channel.None? && w == old(w).(channel := Some(tx)))
      ensures ok ==> w.channel != old(w).channel
      ensures calls == old(calls) + [Change(ToOrdering(false), ok)]
    {
      ok := *;
      var effect: bool := *;
      if (ok || effect) && w.channel.None? {
        w := w.(channel := Some(tx));
      } else {
        ok := false;
      }
      calls := calls + [Change(ToOrdering(false), ok)];
    }

    method CreateOnce(path: string) returns (ok: bool, ghost asked: bool, sent: bool)
      requires Valid()
      modifies this`w, this`calls
      ensures Valid() && Attempted(Attempt(old(w), CreateFrom(path), w, ok, asked, sent, 0, ""))
      ensures sent ==> path in project.files && path in project.sound
      ensures w.channel == old(w).channel || (path in project.files && w.channel == Some(project.files[path]))
      ensures calls == old(calls) + CallsOfOne(CreateFrom(path), ok, asked, sent)
    {
      hide Ready, Approved, Committed, ValidLedger, Accepts;
      ok, sent := false, false;
      var r := FetchBlock(false);
      asked := r.Success? || r.error == NoChannel;
      if r.Success? {
        return true, true, false;
      }
      if r.error != NoChannel {
        return;
      }
      var tx := UpdateOf(project, path);
      if tx.None? {
        return;
      }
      sent := true;
      ok := BroadcastCreate(tx.value);
    }

    method FetchOnce() returns (ok: bool, block: Block)
      modifies this`calls
      ensures Attempted(Attempt(w, FetchGenesis, w, ok, ok, false, 0, block))
      ensures calls == old(calls) + CallsOfOne(FetchGenesis, ok, ok, false)
    {
      hide Ready, Approved, Committed, ValidLedger, Accepts;
      var r := FetchBlock(true);
      ok, block := r.Success?, if r.Success? then r.value else "";
    }

    method AnchorsOnce(org: int, tx: string) returns (ok: bool)
      requires Valid()
      modifies this`w, this`calls
      ensures Valid() && Attempted(Attempt(old(w), UpdateAnchors(org, tx), w, ok, true, true, 0, ""))
      ensures calls == old(calls) + CallsOfOne(UpdateAnchors(org, tx), ok, true, true)
    {
      hide Ready, Approved, Committed, ValidLedger, Accepts;
      ok := *;
      calls := calls + [Change(ToOrdering(false), ok)];
      var effect: bool := *;
      if ok || effect {
        w := w.(anchors := w.anchors + {org});
      }
    }

    /******* retry and the iterations *******/

    predicate Runnable(s: Step) {
      s.ApproveOn? ==> s.peer.org in orgs
    }

    method Once(s: Step) returns (ok: bool, ghost asked: bool, sent: bool, number: nat, block: Block)
      requires Valid() && Runnable(s)
      modifies this`w, this`calls
      ensures Valid() && Attempted(Attempt(old(w), s, w, ok, asked, sent, number, block))
      ensures calls == old(calls) + CallsOfOne(s, ok, asked, sent)
    {
      hide Attempted, CallsOfOne;
      sent, number, block := false, 0, "";
      match s {
        case InstallOn(p, pkg) => ok, asked, sent := InstallOnce(p, pkg);
        case NextSequence(p, name) =>
          ok, number := ReadOnce(p, name);
          asked := ok;
        case ApproveOn(p, def, pkg) => ok, asked, sent := ApproveOnce(p, def, pkg);
        case WaitReady(p, def) => ok, asked := ReadyOnce(p, def);
        case CommitOn(p, def) => ok, asked, sent := CommitOnce(p, def);
        case WaitCommitted(p, def) => ok, asked := CommittedOnce(p, def);
        case JoinOrderer(i, b) => ok, asked, sent := JoinOrdererOnce(i, b);
        case JoinPeer(p, b) => ok, asked, sent := JoinPeerOnce(p, b);
        case CreateFrom(path) => ok, asked, sent := CreateOnce(path);
        case FetchGenesis =>
          ok, block := FetchOnce();
          asked := ok;
        case UpdateAnchors(org, tx) =>
          asked, sent := true, true;
          ok := AnchorsOnce(org, tx);
      }
    }

    method ContextDone() returns (done: bool)
      modifies this`cancelled
      ensures done == cancelled && (old(cancelled) ==> cancelled)
    {
      var now: bool := *;
      cancelled := cancelled || now;
      done := cancelled;
    }

    method Retry(s: Step) returns (ok: bool, ghost t: seq<Attempt>, sent: bool, number: nat, block: Block)
      requires Valid() && Runnable(s)
      modifies this`w, this`calls, this`cancelled
      ensures Valid() && Chained(old(w), t, w) && Retried(t, s, retries, ok, cancelled) && (old(cancelled) ==> cancelled)
      ensures ok ==> sent == t[|t|-1].sent && number == t[|t|-1].number && block == t[|t|-1].block
      ensures Logged(old(calls), t, calls)
      ensures old(cancelled) ==> |t| <= 1
    {
      hide Attempted, Chained, ValidWorld, Logged, CallsOfOne, Retried;
      ChainedNone(w);
      LoggedNone(calls);
      t, ok, sent, number, block := [], false, false, 0, "";
      var attempt := 1;
      while attempt <= retries
        invariant 1 <= attempt && |t| == attempt - 1 && (attempt <= retries + 1 || t == [])
        invariant Valid() && Chained(old(w), t, w)
        invariant forall i :: 0 <= i < |t| ==> t[i].step == s && !t[i].ok
        invariant old(cancelled) ==> cancelled && (attempt == 1 || retries <= 1)
        invariant Logged(old(calls), t, calls)
        decreases retries - attempt
      {
        ghost var before, logged := w, calls;
        ghost var asked;
        ok, asked, sent, number, block := Once(s);
        ghost var a := Attempt(before, s, w, ok, asked, sent, number, block);
        ChainedMore(old(w), t, a);
        LoggedMore(old(calls), t, logged, a, calls);
        t := t + [a];
        if ok {
          RetriedIs(t, s, retries, ok, cancelled);
          return;
        }
        if attempt < retries {
          var done := ContextDone();
          if done {
            RetriedIs(t, s, retries, ok, cancelled);
            return;
          }
        }
        attempt := attempt + 1;
      }
      ok := false;
      RetriedIs(t, s, retries, ok, cancelled);
    }

    /** A connection is made once, exactly if what it needs is in the project. */
    method DialPeer(p: PeerRef) returns (ok: bool)
      requires Valid()
      modifies this`conns
      ensures Valid() && (ok <==> p in project.peers)
      ensures conns == if ok then old(conns) + {p} else old(conns)
    {
      if p in conns {
        return true;
      }
      ok := p in project.peers;
      if ok {
        conns := conns + {p};
      }
    }

    method Close()
      modifies this`conns
      ensures conns == {}
    {
      while conns != {}
        decreases |conns|
      {
        var p :| p in conns;
        conns := conns - {p};
      }
    }

    method RetryOn(p: PeerRef, s: Step) returns (ok: bool, ghost t: seq<Attempt>, number: nat)
      requires Valid() && Runnable(s) && (Able(project, s) <==> p in project.peers)
      modifies this`w, this`calls, this`conns, this`cancelled
      ensures Valid() && Chained(old(w), t, w) && (old(cancelled) ==> cancelled)
      ensures InTurn(project, retries, t, [s], ok, cancelled) && Logged(old(calls), t, calls)
      ensures forall i :: 0 <= i < |t| ==> t[i].step == s && (t[i].ok ==> ok && i == |t| - 1)
      ensures ok ==> t != [] && t[|t|-1].ok && number == t[|t|-1].number
    {
      hide Attempted, Chained, ValidWorld, InTurn, Able, Logged;
      t, number := [], 0;
      ChainedNone(w);
      LoggedNone(calls);
      ok := DialPeer(p);
      if ok {
        var sent, block;
        ok, t, sent, number, block := Retry(s);
      }
      OneTurn(project, retries, t, s, ok, cancelled);
    }

    /** f makes steps for a peer that need its connection and no more. */
    ghost predicate OnPeers(f: PeerRef -> Step) {
      forall p :: (Able(project, f(p)) <==> p in project.peers) && (p.org in orgs ==> Runnable(f(p)))
    }

    /** The steps of f on the peers ps of one org, in order, up to the first error. */
    method SweepOrg(org: int, ps: seq<int>, f: PeerRef -> Step) returns (ok: bool, ghost t: seq<Attempt>)
      requires Valid() && org in orgs && OnPeers(f)
      modifies this`w, this`calls, this`conns, this`cancelled
      ensures Valid() && Chained(old(w), t, w) && (old(cancelled) ==> cancelled)
      ensures InTurn(project, retries, t, OrgSteps(org, ps, f), ok, cancelled) && Logged(old(calls), t, calls)
    {
      hide Attempted, Chained, ValidWorld, InTurn, Able, Logged;
      t := [];
      ghost var ss := OrgSteps(org, ps, f);
      ChainedNone(w);
      NoTurns(project, retries, cancelled);
      LoggedNone(calls);
      for k := 0 to |ps|
        invariant Logged(old(calls), t, calls)
        invariant Valid() && Chained(old(w), t, w) && (old(cancelled) ==> cancelled)
        invariant InTurn(project, retries, t, ss[..k], true, cancelled)
      {
        var p := PeerRef(org, ps[k]);
        ghost var u, before, was, logged, number := [], w, cancelled, calls, 0;
        ok, u, number := RetryOn(p, f(p));
        ChainedConcat(old(w), t, before, u, w);
        LoggedNext(old(calls), t, logged, u, calls);
        TurnsNext(project, retries, t, ss[..k], was, u, [f(p)], ok, cancelled);
        assert ss[..k+1] == ss[..k] + [f(p)];
        t := t + u;
        if !ok {
          TurnsEnd(project, retries, t, ss[..k+1], ss, cancelled);
          return;
        }
      }
      assert ss[..|ps|] == ss;
      ok := true;
    }

    /** The same on every org, org by org. */
    method Sweep(ps: seq<int>, f: PeerRef -> Step) returns (ok: bool, ghost t: seq<Attempt>)
      requires Valid() && OnPeers(f)
      modifies this`w, this`calls, this`conns, this`cancelled
      ensures Valid() && Chained(old(w), t, w) && (old(cancelled) ==> cancelled)
      ensures InTurn(project, retries, t, SweepSteps(orgs, ps, f), ok, cancelled) && Logged(old(calls), t, calls)
    {
      hide Attempted, Chained, ValidWorld, InTurn, Able, OnPeers, Logged;
      t := [];
      ChainedNone(w);
      NoTurns(project, retries, cancelled);
      LoggedNone(calls);
      for k := 0 to |orgs|
        invariant Logged(old(calls), t, calls)
        invariant Valid() && Chained(old(w), t, w) && (old(cancelled) ==> cancelled)
        invariant InTurn(project, retries, t, SweepSteps(orgs[..k], ps, f), true, cancelled)
      {
        ghost var u, before, was, logged := [], w, cancelled, calls;
        ok, u := SweepOrg(orgs[k], ps, f);
        ChainedConcat(old(w), t, before, u, w);
        LoggedNext(old(calls), t, logged, u, calls);
        TurnsNext(project, retries, t, SweepSteps(orgs[..k], ps, f), was, u, OrgSteps(orgs[k], ps, f), ok, cancelled);
        assert orgs[..k+1][..k] == orgs[..k];
        t := t + u;
        if !ok {
          SweepPrefix(orgs, k + 1, ps, f);
          TurnsEnd(project, retries, t, SweepSteps(orgs[..k+1], ps, f), SweepSteps(orgs, ps, f), cancelled);
          return;
        }
      }
      assert orgs[..|orgs|] == orgs;
      ok := true;
    }

    method ForEachPeer(f: PeerRef -> Step) returns (ok: bool, ghost t: seq<Attempt>)
      requires Valid() && OnPeers(f)
      modifies this`w, this`calls, this`conns, this`cancelled
      ensures Valid() && Chained(old(w), t, w) && (old(cancelled) ==> cancelled)
      ensures InTurn(project, retries, t, SweepSteps(orgs, peers, f), ok, cancelled) && Logged(old(calls), t, calls)
    {
      ok, t := Sweep(peers, f);
    }

    /** On the first peer of every org. */
    method ForEachOrg(f: PeerRef -> Step) returns (ok: bool, ghost t: seq<Attempt>)
      requires Valid() && OnPeers(f)
      modifies this`w, this`calls, this`conns, this`cancelled
      ensures Valid() && Chained(old(w), t, w) && (old(cancelled) ==> cancelled)
      ensures InTurn(project, retries, t, SweepSteps(orgs, peers[..1], f), ok, cancelled) && Logged(old(calls), t, calls)
    {
      ok, t := Sweep(peers[..1], f);
    }

    /******* Install *******/

    lemma PhaseOnPeers(plan: Plan, number: nat, phase: nat)
      requires phase < 6
      ensures OnPeers(PhaseStep(plan, number, phase))
    {
    }

    /** The package on every peer, then the sequence of the definition. */
    method Prepare(plan: Plan) returns (ok: bool, number: nat, ghost t: seq<Attempt>)
      requires Valid()
      modifies this`w, this`calls, this`conns, this`cancelled
      ensures Valid() && Chained(old(w), t, w) && Staged(Shape(), plan, number, t) && (old(cancelled) ==> cancelled)
      ensures InTurn(project, retries, t, StepsTo(Shape(), plan, number, 2), ok, cancelled) && Logged(old(calls), t, calls)
      ensures ok ==> Underway(Shape(), plan, number, old(w), t, w, 2)
    {
      hide Attempted, Chained, ValidWorld, Staged, Ripe, PhaseDone, Underway, OfPhase, InTurn, StepsTo, OnPeers, SweepSteps, Retried, Logged;
      ghost var start, c := w, Shape();
      number := 0;
      PhaseOnPeers(plan, 0, 0);
      ok, t := ForEachPeer(PhaseStep(plan, 0, 0));
      ghost var mid, was, logged := w, cancelled, calls;
      if !ok {
        FirstAdvance(c, plan, 0, 0, project, retries, start, t, w, ok, cancelled);
        StepsPrefix(c, plan, 0, 1, 2);
        TurnsEnd(project, retries, t, StepsTo(c, plan, 0, 1), StepsTo(c, plan, 0, 2), cancelled);
        return;
      }
      ghost var u;
      ok, u, number := RetryOn(PeerRef(orgs[0], peers[0]), NextSequence(PeerRef(orgs[0], peers[0]), plan.name));
      FirstAdvance(c, plan, 0, number, project, retries, start, t, mid, true, was);
      OneStep(c, plan, number, 1, u, ok);
      NextPhase(c, plan, number, project, retries, start, t, mid, was, u, w, 1, ok, cancelled);
      LoggedNext(old(calls), t, logged, u, calls);
      t := t + u;
    }

    /** One phase on the first peer of every org, after what t has done. */
    method OrgPhase(plan: Plan, number: nat, phase: nat, ghost start: World, ghost first: seq<Call>, ghost t: seq<Attempt>)
      returns (ok: bool, ghost t': seq<Attempt>)
      requires Valid() && (phase == 2 || phase == 3 || phase == 5)
      requires Underway(Shape(), plan, number, start, t, w, phase)
      requires InTurn(project, retries, t, StepsTo(Shape(), plan, number, phase), true, cancelled) && Logged(first, t, calls)
      modifies this`w, this`calls, this`conns, this`cancelled
      ensures Valid() && Chained(start, t', w) && Staged(Shape(), plan, number, t') && (old(cancelled) ==> cancelled)
      ensures InTurn(project, retries, t', StepsTo(Shape(), plan, number, phase + 1), ok, cancelled) && Logged(first, t', calls)
      ensures ok ==> Underway(Shape(), plan, number, start, t', w, phase + 1)
    {
      hide Attempted, Chained, ValidWorld, Staged, Ripe, PhaseDone, Underway, OfPhase, InTurn, StepsTo, OnPeers, SweepSteps, Logged;
      ghost var mid, was, logged, u := w, cancelled, calls, [];
      PhaseOnPeers(plan, number, phase);
      ok, u := ForEachOrg(PhaseStep(plan, number, phase));
      SweptPhase(Shape(), plan, number, phase, project, retries, u, ok, cancelled);
      NextPhase(Shape(), plan, number, project, retries, start, t, mid, was, u, w, phase, ok, cancelled);
      LoggedNext(first, t, logged, u, calls);
      t' := t + u;
    }

    /** The commit, on the first peer of the first org. */
    method CommitPhase(plan: Plan, number: nat, ghost start: World, ghost first: seq<Call>, ghost t: seq<Attempt>)
      returns (ok: bool, ghost t': seq<Attempt>)
      requires Valid() && Underway(Shape(), plan, number, start, t, w, 4)
      requires InTurn(project, retries, t, StepsTo(Shape(), plan, number, 4), true, cancelled) && Logged(first, t, calls)
      modifies this`w, this`calls, this`conns, this`cancelled
      ensures Valid() && Chained(start, t', w) && Staged(Shape(), plan, number, t') && (old(cancelled) ==> cancelled)
      ensures InTurn(project, retries, t', StepsTo(Shape(), plan, number, 5), ok, cancelled) && Logged(first, t', calls)
      ensures ok ==> Underway(Shape(), plan, number, start, t', w, 5)
    {
      hide Attempted, Chained, ValidWorld, Staged, Ripe, PhaseDone, Underway, OfPhase, InTurn, StepsTo, SweepSteps, Logged;
      ghost var mid, was, logged, u := w, cancelled, calls, [];
      var read;
      ok, u, read := RetryOn(PeerRef(orgs[0], peers[0]), CommitOn(PeerRef(orgs[0], peers[0]), DefOf(plan, number)));
      OneStep(Shape(), plan, number, 4, u, ok);
      NextPhase(Shape(), plan, number, project, retries, start, t, mid, was, u, w, 4, ok, cancelled);
      LoggedNext(first, t, logged, u, calls);
      t' := t + u;
    }

    /** Install's loop body: one chaincode name. */
    method InstallChaincode(plan: Plan) returns (ok: bool, ghost s: Segment)
      requires Valid()
      modifies this`w, this`calls, this`conns, this`cancelled
      ensures Valid() && Shaped(Shape(), s) && (old(cancelled) ==> cancelled)
      ensures s.plan == plan && s.start == old(w) && s.end == w && s.done == ok
      ensures InstallTurns(s, cancelled) && Logged(old(calls), s.t, calls)
    {
      hide Attempted, Chained, ValidWorld, Staged, Ripe, PhaseDone, Underway, InTurn, StepsTo, Logged;
      ghost var start, first := w, calls;
      ghost var t;
      ghost var reached := 2;
      var number;
      ok, number, t := Prepare(plan);
      if ok {
        ok, t := OrgPhase(plan, number, 2, start, first, t);
        reached := 3;
      }
      if ok {
        ok, t := OrgPhase(plan, number, 3, start, first, t);
        reached := 4;
      }
      if ok {
        ok, t := CommitPhase(plan, number, start, first, t);
        reached := 5;
      }
      if ok {
        ok, t := OrgPhase(plan, number, 5, start, first, t);
        reached := 6;
      }
      if !ok {
        StepsPrefix(Shape(), plan, number, reached, 6);
        TurnsEnd(project, retries, t, StepsTo(Shape(), plan, number, reached), StepsTo(Shape(), plan, number, 6), cancelled);
      }
      s := Segment(plan, number, start, t, w, ok);
      UnderwayIs(Shape(), plan, number, start, t, w, ok);
    }

    function PackagePath(o: InstallOptions, name: string): string {
      o.packageDir + "/" + Label(name, o.version) + ".tar.gz"
    }

    /** What Install reads before the first name. */
    predicate Configured() {
      "collections.json" in project.files && "collections.json" in project.sound && project.policy.Some?
    }

    function PlanOf(o: InstallOptions, name: string): Plan
      requires Configured() && PackagePath(o, name) in project.files
    {
      Plan(name, o.version, Terms(project.policy.value, project.files["collections.json"], o.initRequired),
           PackageIdOf(Label(name, o.version), project.files[PackagePath(o, name)]))
    }

    /** The plan is what the options and the project's files ask for this name. */
    ghost predicate Asked(o: InstallOptions, name: string, plan: Plan) {
      && plan.name == name && plan.version == o.version && plan.terms.initRequired == o.initRequired
      && project.policy == Some(plan.terms.policy)
      && "collections.json" in project.files && plan.terms.collections == project.files["collections.json"]
      && Packed(o, name, plan.pkg)
    }

    ghost predicate Packed(o: InstallOptions, name: string, pkg: PackageId) {
      var path := o.packageDir + "/" + name + "-" + o.version + ".tar.gz";
      path in project.files && pkg == PackageId(name + "-" + o.version, project.files[path])
    }

    /** A transaction as the options and the project's files ask for it. */
    ghost predicate AsAsked(o: InstallOptions, x: Tx) {
      && x.def.name in o.names && x.def.version == o.version && x.def.terms.initRequired == o.initRequired
      && project.policy == Some(x.def.terms.policy)
      && "collections.json" in project.files && x.def.terms.collections == project.files["collections.json"]
      && (x.Approval? ==> x.org in orgs && Packed(o, x.def.name, x.pkg))
    }

    /** What a run adds is what was asked for. */
    lemma InstalledAsAsked(o: InstallOptions, before: World, h: seq<Segment>, after: World, stopped: bool)
      requires ValidTopology(Shape()) && History(Shape(), before, h, after) && Installed(o, h, stopped)
      ensures forall i :: |before.ledger| <= i < |after.ledger| ==> AsAsked(o, after.ledger[i])
      ensures forall p, q :: q in Packages(after.installed, p) && q !in Packages(before.installed, p) ==>
                exists name :: name in o.names && Packed(o, name, q)
    {
      hide History, InstallTurns, Packed, Packages;
      HistoryAdds(Shape(), before, h, after);
      forall i | |before.ledger| <= i < |after.ledger| ensures AsAsked(o, after.ledger[i]) {
        var k :| 0 <= k < |h| && OfPlan(Shape(), h[k].plan, h[k].number, after.ledger[i]);
        assert Asked(o, o.names[k], h[k].plan);
      }
      forall p, q | q in Packages(after.installed, p) && q !in Packages(before.installed, p)
        ensures exists name :: name in o.names && Packed(o, name, q)
      {
        var k :| 0 <= k < |h| && q == h[k].plan.pkg;
        assert Asked(o, o.names[k], h[k].plan);
      }
    }

    /** The name has a package, and the plan for it is what is asked for. */
    lemma PlanIsAsked(o: InstallOptions, name: string)
      ensures PackagePath(o, name) == o.packageDir + "/" + name + "-" + o.version + ".tar.gz"
      ensures Configured() && PackagePath(o, name) in project.files ==> Asked(o, name, PlanOf(o, name))
    {
      assert o.packageDir + "/" + (name + "-" + o.version) + ".tar.gz" == o.packageDir + "/" + name + "-" + o.version + ".tar.gz";
    }

    /** h holds one segment for each of the first names, its steps in turn, and all
        but the last of them are finished.  stopped: the context is cancelled. */
    ghost predicate Installed(o: InstallOptions, h: seq<Segment>, stopped: bool)
      requires orgs != [] && peers != []
    {
      && |h| <= |o.names| && (forall k :: 0 <= k < |h| ==> Asked(o, o.names[k], h[k].plan))
      && (forall k :: 0 <= k < |h| ==> InstallTurns(h[k], stopped))
      && (forall k :: 0 <= k < |h| - 1 ==> h[k].done)
    }

    ghost predicate InstallTurns(s: Segment, stopped: bool)
      requires orgs != [] && peers != []
    {
      InTurn(project, retries, s.t, StepsTo(Shape(), s.plan, s.number, 6), s.done, stopped)
    }

    predicate AllDone(h: seq<Segment>) {
      forall k :: 0 <= k < |h| ==> h[k].done
    }

    /** nil exactly if every name is finished.  Otherwise a name is not, a name has no
        package, or the terms of the definitions cannot be read. */
    ghost predicate Explained(o: InstallOptions, h: seq<Segment>, ok: bool) {
      var readable := "collections.json" in project.files && "collections.json" in project.sound && project.policy.Some?;
      && (ok <==> readable && |h| == |o.names| && AllDone(h))
      && (!ok ==> !readable || !AllDone(h) || (|h| < |o.names| && Unpacked(o, o.names[|h|])))
    }

    ghost predicate Unpacked(o: InstallOptions, name: string) {
      o.packageDir + "/" + name + "-" + o.version + ".tar.gz" !in project.files
    }

    /** The most attempts that Install makes for n names. */
    function WorkBound(n: nat): nat {
      n * Budget(retries, |orgs| * |peers| + 3 * |orgs| + 2)
    }

    /** Whatever the outcome, the last segment of a name, if it finished, is what the
        network holds, and nothing is added to the network but what was asked for. */
    method Install(o: InstallOptions) returns (ok: bool, ghost h: seq<Segment>)
      requires Valid()
      modifies this`w, this`calls, this`conns, this`cancelled
      ensures Valid() && History(Shape(), old(w), h, w) && Installed(o, h, cancelled) && Explained(o, h, ok)
      ensures calls == old(calls) + CallsOfRuns(h)
      ensures forall k: nat :: LastFinished(h, k) ==> Promised(Shape(), h[k], w)
      ensures forall i :: |old(w).ledger| <= i < |w.ledger| ==> AsAsked(o, w.ledger[i])
      ensures forall p, q :: q in Packages(w.installed, p) && q !in Packages(old(w).installed, p) ==>
                exists name :: name in o.names && Packed(o, name, q)
      ensures Attempts(h) <= WorkBound(|o.names|)
    {
      hide Shaped, ValidWorld, WorkBound, Promised, LastFinished, InstallTurns, Asked, AsAsked, Packed, Packages;
      h, ok := [], false;
      if Configured() {
        ok, h := InstallNames(o);
      }
      Finished(old(w), h);
      InstalledAsAsked(o, old(w), h, w, cancelled);
    }

    lemma Finished(before: World, h: seq<Segment>)
      requires Valid() && ValidWorld(before) && History(Shape(), before, h, w)
      ensures forall k: nat :: LastFinished(h, k) ==> k < |h| && Promised(Shape(), h[k], w)
    {
      forall k: nat | LastFinished(h, k) ensures k < |h| && Promised(Shape(), h[k], w) {
        hide History, ValidWorld, Promised;
        InstallSafety(Shape(), before, h, w, k);
      }
    }

    method InstallNames(o: InstallOptions) returns (ok: bool, ghost h: seq<Segment>)
      requires Valid() && Configured()
      modifies this`w, this`calls, this`conns, this`cancelled
      ensures Valid() && History(Shape(), old(w), h, w) && Installed(o, h, cancelled) && Explained(o, h, ok)
      ensures calls == old(calls) + CallsOfRuns(h)
      ensures Attempts(h) <= WorkBound(|o.names|)
    {
      hide Shaped, ValidWorld, Budget, InstallTurns, PlanOf, PackagePath, Asked, CallsOf, Logged, History, Installed, Attempts, CallsOfRuns;
      h := [];
      NothingInstalled(o, w, cancelled);
      ghost var cost := Budget(retries, |orgs| * |peers| + 3 * |orgs| + 2);
      for k := 0 to |o.names|
        invariant Valid() && History(Shape(), old(w), h, w) && Installed(o, h, cancelled)
        invariant |h| == k && AllDone(h) && calls == old(calls) + CallsOfRuns(h)
        invariant Attempts(h) <= k * cost
      {
        CostRow(k, |o.names|, cost);
        PlanIsAsked(o, o.names[k]);
        if PackagePath(o, o.names[k]) !in project.files {
          return false, h;
        }
        ghost var s, mid, was, logged := *, w, cancelled, calls;
        ok, s := InstallChaincode(PlanOf(o, o.names[k]));
        InstallCost(s, cancelled);
        InstalledMore(o, h, was, s, cancelled);
        OneMoreRun(Shape(), old(w), old(calls), h, mid, logged, s, calls);
        h := h + [s];
        if !ok {
          return;
        }
      }
      ok := true;
    }

    lemma NothingInstalled(o: InstallOptions, w: World, stopped: bool)
      requires orgs != [] && peers != []
      ensures History(Shape(), w, [], w) && Installed(o, [], stopped) && AllDone([]) && Attempts([]) == 0 && CallsOfRuns([]) == []
    {
    }

    lemma TurnsStay(s: Segment, was: bool, now: bool)
      requires orgs != [] && peers != [] && InstallTurns(s, was) && (was ==> now)
      ensures InstallTurns(s, now)
    {
      hide InTurn;
      TurnsLater(project, retries, s.t, StepsTo(Shape(), s.plan, s.number, 6), s.done, was, now);
    }

    lemma InstalledMore(o: InstallOptions, h: seq<Segment>, was: bool, s: Segment, now: bool)
      requires orgs != [] && peers != [] && Installed(o, h, was) && AllDone(h) && |h| < |o.names|
      requires Asked(o, o.names[|h|], s.plan) && InstallTurns(s, now) && (was ==> now)
      ensures Installed(o, h + [s], now) && (AllDone(h + [s]) <==> s.done)
    {
      hide InstallTurns, Configured, Asked;
      forall i | 0 <= i < |h| ensures InstallTurns(h[i], now) {
        TurnsStay(h[i], was, now);
      }
      assert (h + [s])[|h|] == s && forall i :: 0 <= i < |h| ==> (h + [s])[i] == h[i];
    }

    lemma InstallCost(s: Segment, stopped: bool)
      requires orgs != [] && peers != [] && InstallTurns(s, stopped)
      ensures |s.t| <= Budget(retries, |orgs| * |peers| + 3 * |orgs| + 2)
    {
      hide InTurn, StepsTo, Budget;
      TurnsBudget(project, retries, s.t, StepsTo(Shape(), s.plan, s.number, 6), s.done, stopped);
      InstallLength(Shape(), s.plan, s.number);
    }

    /******* The channel *******/

    function ChannelBlock(channel: string): string {
      "channel-artifacts/" + channel + ".block"
    }

    method JoinPeersWith(block: Block) returns (ok: bool, ghost t: seq<Attempt>)
      requires Valid()
      modifies this`w, this`calls, this`conns, this`cancelled
      ensures Valid() && Chained(old(w), t, w) && (old(cancelled) ==> cancelled) && Logged(old(calls), t, calls)
      ensures InTurn(project, retries, t, SweepSteps(orgs, peers, JoinWith(block)), ok, cancelled)
      ensures forall i :: 0 <= i < |t| ==> t[i].step.JoinPeer? && t[i].step.block == block
      ensures ok ==> PeersIn(Shape(), t, block)
    {
      hide Logged, Attempted, Chained, ValidWorld, InTurn, SweepSteps, PeersIn;
      ok, t := ForEachPeer(JoinWith(block));
      PeersInTurn(Shape(), block, project, retries, t, ok, cancelled);
    }

    /** On nil every orderer holds the channel's genesis block, or the one that it
        held before. */
    method CreateChannel(channel: string) returns (ok: bool, ghost t: seq<Attempt>)
      requires Valid()
      modifies this`w, this`calls, this`cancelled
      ensures Valid() && Chained(old(w), t, w) && (old(cancelled) ==> cancelled) && Logged(old(calls), t, calls)
      ensures
        var path := "channel-artifacts/" + channel + ".block";
        if path in project.files
        then InTurn(project, retries, t, OrdererSteps(orderers, project.files[path]), ok, cancelled)
        else t == [] && !ok
      ensures
        var path := "channel-artifacts/" + channel + ".block";
        ok ==> forall i :: i in orderers ==> OrdererIn(old(w), w, i, project.files[path])
    {
      hide Logged, Attempted, Chained, ValidWorld, Succeeded, InTurn, Able;
      t, ok := [], false;
      ChainedNone(w);
      LoggedNone(calls);
      if ChannelBlock(channel) !in project.files {
        return;
      }
      var block := project.files[ChannelBlock(channel)];
      ghost var ss := OrdererSteps(orderers, block);
      NoTurns(project, retries, cancelled);
      for k := 0 to |orderers|
        invariant Valid() && Chained(old(w), t, w) && (old(cancelled) ==> cancelled)
        invariant Logged(old(calls), t, calls)
        invariant InTurn(project, retries, t, ss[..k], true, cancelled)
      {
        ghost var u, mid, was, logged := [], w, cancelled, calls;
        ChainedNone(w);
        LoggedNone(calls);
        ok := orderers[k] in project.orderers;
        if ok {
          var sent, number, got;
          ok, u, sent, number, got := Retry(JoinOrderer(orderers[k], block));
        }
        OrdererTurn(project, retries, orderers[k], block, u, ok, cancelled);
        ChainedConcat(old(w), t, mid, u, w);
        LoggedNext(old(calls), t, logged, u, calls);
        TurnsNext(project, retries, t, ss[..k], was, u, [JoinOrderer(orderers[k], block)], ok, cancelled);
        assert ss[..k+1] == ss[..k] + [JoinOrderer(orderers[k], block)];
        t := t + u;
        if !ok {
          TurnsEnd(project, retries, t, ss[..k+1], ss, cancelled);
          return;
        }
      }
      ok := true;
      assert ss[..|orderers|] == ss;
      OrderersInTurn(orderers, block, project, retries, t, ok, cancelled);
      AllJoined(old(w), t, w, block);
    }

    /** On nil every peer holds the genesis block, or the one that it held before. */
    method JoinPeers(channel: string) returns (ok: bool, ghost t: seq<Attempt>)
      requires Valid()
      modifies this`w, this`calls, this`conns, this`cancelled
      ensures Valid() && Chained(old(w), t, w) && (old(cancelled) ==> cancelled) && Logged(old(calls), t, calls)
      ensures
        var path := "channel-artifacts/" + channel + ".block";
        if path in project.files && path in project.sound
        then InTurn(project, retries, t, SweepSteps(orgs, peers, JoinWith(project.files[path])), ok, cancelled)
        else t == [] && !ok
      ensures
        var path := "channel-artifacts/" + channel + ".block";
        ok ==> forall o, j :: o in orgs && j in peers ==> PeerIn(old(w), w, PeerRef(o, j), project.files[path])
    {
      hide Logged, Attempted, Chained, ValidWorld, Succeeded, InTurn, SweepSteps;
      t, ok := [], false;
      ChainedNone(w);
      LoggedNone(calls);
      var block := UpdateOf(project, ChannelBlock(channel));
      if block.None? {
        return;
      }
      ok, t := JoinPeersWith(block.value);
      if ok {
        AllJoined(old(w), t, w, block.value);
      }
    }

    /** A network that an earlier release generated: it has the system channel's
        block and the creation transaction, but no block for the channel. */
    predicate SystemChannelNetwork(channel: string) {
      && ChannelBlock(channel) !in project.files
      && "channel-artifacts/genesis.block" in project.files
      && CREATE_TX in project.files
    }

    /** The orderers' joins in turn, and then the peers', if the block is one. */
    ghost predicate UpTurns(channel: string, t: seq<Attempt>, ok: bool)
      reads this`cancelled
    {
      var path := "channel-artifacts/" + channel + ".block";
      if path !in project.files then t == [] && !ok
      else
        var block := project.files[path];
        var first := OrdererSteps(orderers, block);
        if path in project.sound
        then InTurn(project, retries, t, first + SweepSteps(orgs, peers, JoinWith(block)), ok, cancelled)
        else !ok && exists joined :: InTurn(project, retries, t, first, joined, cancelled)
    }

    /** The part of up that makes the channel, for a network without a system
        channel: no peer is asked to join before every orderer is a member. */
    method UpChannel(channel: string) returns (ok: bool, ghost t: seq<Attempt>)
      requires Valid() && !SystemChannelNetwork(channel)
      modifies this`w, this`calls, this`conns, this`cancelled
      ensures Valid() && Chained(old(w), t, w) && UpTurns(channel, t, ok) && Logged(old(calls), t, calls)
      ensures t != [] ==> ChannelBlock(channel) in project.files && UpShaped(orderers, t, project.files[ChannelBlock(channel)])
      ensures forall i :: 0 <= i < |t| ==> t[i].step.JoinOrderer? || t[i].step.JoinPeer?
      ensures ok ==>
                && (forall i :: i in orderers ==> OrdererIn(old(w), w, i, project.files[ChannelBlock(channel)]))
                && (forall o, j :: o in orgs && j in peers ==> PeerIn(old(w), w, PeerRef(o, j), project.files[ChannelBlock(channel)]))
    {
      hide Logged, Attempted, Chained, ValidWorld, Succeeded, Grown, InTurn, SweepSteps, OrdererSteps;
      ok, t := CreateChannel(channel);
      if ChannelBlock(channel) !in project.files {
        return;
      }
      ghost var block, mid, was, logged, u := project.files[ChannelBlock(channel)], w, cancelled, calls, [];
      ghost var first, more := OrdererSteps(orderers, block), SweepSteps(orgs, peers, JoinWith(block));
      OrderersInTurn(orderers, block, project, retries, t, ok, cancelled);
      if !ok {
        TurnsEnd(project, retries, t, first, first + more, cancelled);
        return;
      }
      ok, u := JoinPeers(channel);
      if UpdateOf(project, ChannelBlock(channel)).Some? {
        PeersInTurn(Shape(), block, project, retries, u, ok, cancelled);
        TurnsNext(project, retries, t, first, was, u, more, ok, cancelled);
      } else {
        TurnsLater(project, retries, t, first, true, was, cancelled);
        assert t + u == t;
      }
      LoggedNext(old(calls), t, logged, u, calls);
      UpRun(orderers, old(w), t, mid, u, w, block);
      t := t + u;
    }

    /** Creates or finds the channel, then fetches its block. */
    method FindChannel(channel: string) returns (ok: bool, created: bool, block: Block, ghost t: seq<Attempt>)
      requires Valid()
      modifies this`w, this`calls, this`cancelled
      ensures Valid() && Chained(old(w), t, w) && (old(cancelled) ==> cancelled) && Logged(old(calls), t, calls)
      ensures if orgs[0] in project.admins
              then InTurn(project, retries, t, [CreateFrom("channel-artifacts/channel.tx"), FetchGenesis], ok, cancelled)
              else t == [] && !ok
      ensures SystemShaped(Shape(), t, block) && forall i :: 0 <= i < |t| ==> SystemPhase(t[i].step) <= 1
      ensures created <==> Acknowledged(t, |t|)
      ensures ok ==> Fetched(t, |t|, block)
    {
      hide Logged, Attempted, Chained, ValidWorld, SystemShaped, Acknowledged, Fetched, InTurn;
      t, ok, created, block := [], false, false, "";
      ChainedNone(w);
      LoggedNone(calls);
      CreatedChannel(Shape(), [], block, false);
      if orgs[0] !in project.admins {
        return;
      }
      var sent, number, got;
      ok, t, sent, number, got := Retry(CreateFrom(CREATE_TX));
      created := ok && sent;
      CreatedChannel(Shape(), t, block, created);
      OneTurn(project, retries, t, CreateFrom(CREATE_TX), ok, cancelled);
      if !ok {
        TurnsEnd(project, retries, t, [CreateFrom(CREATE_TX)], [CreateFrom(CREATE_TX), FetchGenesis], cancelled);
        return;
      }
      ghost var u, mid, was, logged := [], w, cancelled, calls;
      ok, u, sent, number, got := Retry(FetchGenesis);
      OneTurn(project, retries, u, FetchGenesis, ok, cancelled);
      TurnsNext(project, retries, t, [CreateFrom(CREATE_TX)], was, u, [FetchGenesis], ok, cancelled);
      ChainedConcat(old(w), t, mid, u, w);
      LoggedNext(old(calls), t, logged, u, calls);
      block := if ok then got else "";
      CreatedChannel(Shape(), t, block, created);
      FoundChannel(Shape(), t, u, block, created, ok);
      assert [CreateFrom(CREATE_TX)] + [FetchGenesis] == [CreateFrom(CREATE_TX), FetchGenesis];
      t := t + u;
    }

    /** The steps with a system channel in turn, if the first org's admin can start. */
    ghost predicate SystemTurns(t: seq<Attempt>, block: Block, ok: bool)
      requires Valid()
      reads this
    {
      if orgs[0] in project.admins
      then InTurn(project, retries, t, SystemSteps(project, Shape(), block, Acknowledged(t, |t|)), ok, cancelled)
      else t == [] && !ok
    }

    /** Peers join with the fetched block; anchor peers are updated only by the
        run whose channel.tx was acknowledged, after every peer. */
    method CreateSystemChannel(channel: string) returns (ok: bool, ghost t: seq<Attempt>, ghost block: Block)
      requires Valid()
      modifies this`w, this`calls, this`conns, this`cancelled
      ensures Valid() && Chained(old(w), t, w) && SystemShaped(Shape(), t, block) && SystemTurns(t, block, ok)
      ensures Logged(old(calls), t, calls)
      ensures ok ==> PeersIn(Shape(), t, block) && Fetched(t, |t|, block)
      ensures ok && Acknowledged(t, |t|) ==> forall org :: org in orgs ==> org in w.anchors
      ensures ok ==> forall o, j :: o in orgs && j in peers ==> PeerIn(old(w), w, PeerRef(o, j), block)
      ensures !Acknowledged(t, |t|) || old(w).channel.Some? ==> w.anchors == old(w).anchors
      ensures ok ==> ((forall org :: org in orgs ==> org in w.anchors) <==>
                      Acknowledged(t, |t|) || forall org :: org in orgs ==> org in old(w).anchors)
    {
      hide Logged, Attempted, Chained, ValidWorld, Succeeded, SystemShaped, Acknowledged, InTurn, PeersIn, Fetched;
      var created, b;
      ok, created, b, t := FindChannel(channel);
      block := b;
      ghost var first, joins := [CreateFrom(CREATE_TX), FetchGenesis], SweepSteps(orgs, peers, JoinWith(b));
      ghost var ended := first;
      if ok {
        ghost var u, mid, was, logged := [], w, cancelled, calls;
        ok, u := JoinPeersWith(b);
        ChainedConcat(old(w), t, mid, u, w);
        LoggedNext(old(calls), t, logged, u, calls);
        JoinedWith(Shape(), t, u, block, ok);
        TurnsNext(project, retries, t, first, was, u, joins, ok, cancelled);
        t, ended := t + u, first + joins;
      }
      assert created <==> Acknowledged(t, |t|);
      if ok && created {
        ended := first + joins + AnchorSteps(project, orgs);
        ok, t := UpdateAllAnchors(t, block, old(w), old(calls), first + joins);
      }
      if orgs[0] in project.admins {
        EndedThere(t, ended, SystemSteps(project, Shape(), block, created), ok);
      }
      NoAcknowledgementNoAnchors(Shape(), old(w), t, w, block);
      if ok {
        SystemJoined(Shape(), old(w), t, w, block);
      }
    }

    lemma EndedThere(t: seq<Attempt>, ss: seq<Step>, all: seq<Step>, ok: bool)
      requires InTurn(project, retries, t, ss, ok, cancelled) && ss <= all && (ok ==> ss == all)
      ensures InTurn(project, retries, t, all, ok, cancelled)
    {
      hide InTurn;
      if !ok {
        TurnsEnd(project, retries, t, ss, all, cancelled);
      }
    }

    method UpdateAnchorPeers(org: int) returns (ok: bool, ghost t: seq<Attempt>)
      requires Valid()
      modifies this`w, this`calls, this`cancelled
      ensures Valid() && Chained(old(w), t, w) && (old(cancelled) ==> cancelled) && Logged(old(calls), t, calls)
      ensures InTurn(project, retries, t, [AnchorStep(project, org)], ok, cancelled)
      ensures
        var path := "channel-artifacts/Org" + Itoa(org) + "MSPanchors.tx";
        if org in project.admins && path in project.files && path in project.sound
        then Retried(t, UpdateAnchors(org, project.files[path]), retries, ok, cancelled)
        else t == [] && !ok
    {
      hide Logged, Attempted, Chained, ValidWorld, InTurn, UpdateOf, AnchorsFile, Retried;
      AnchorsFileIs(project, org);
      t, ok := [], false;
      ChainedNone(w);
      LoggedNone(calls);
      if org in project.admins {
        var tx := UpdateOf(project, AnchorsFile(org));
        if tx.Some? {
          var sent, number, got;
          ok, t, sent, number, got := Retry(UpdateAnchors(org, tx.value));
        }
      }
      OneTurn(project, retries, t, AnchorStep(project, org), ok, cancelled);
    }

    /** t0: the attempts before, which made the steps ss. */
    method UpdateAllAnchors(ghost t0: seq<Attempt>, ghost block: Block, ghost start: World, ghost before: seq<Call>, ghost ss: seq<Step>)
      returns (ok: bool, ghost t: seq<Attempt>)
      requires Valid() && Chained(start, t0, w) && SystemShaped(Shape(), t0, block)
      requires InTurn(project, retries, t0, ss, true, cancelled) && Logged(before, t0, calls)
      requires forall i :: 0 <= i < |t0| ==> SystemPhase(t0[i].step) <= 3
      requires Acknowledged(t0, |t0|) && PeersIn(Shape(), t0, block) && Fetched(t0, |t0|, block)
      modifies this`w, this`calls, this`cancelled
      ensures Valid() && Chained(start, t, w) && SystemShaped(Shape(), t, block) && (old(cancelled) ==> cancelled)
      ensures InTurn(project, retries, t, ss + AnchorSteps(project, orgs), ok, cancelled) && Logged(before, t, calls)
      ensures PeersIn(Shape(), t, block) && Fetched(t, |t|, block) && Acknowledged(t, |t|)
      ensures ok ==> forall org :: org in orgs ==> org in w.anchors
    {
      hide Logged, Attempted, Chained, ValidWorld, Succeeded, PeersIn, Fetched, SystemShaped, InTurn, Acknowledged, AnchorStep;
      t := t0;
      ghost var anchors := AnchorSteps(project, orgs);
      assert ss + anchors[..0] == ss;
      for k := 0 to |orgs|
        invariant Valid() && Chained(start, t, w) && SystemShaped(Shape(), t, block) && (old(cancelled) ==> cancelled)
        invariant InTurn(project, retries, t, ss + anchors[..k], true, cancelled) && Logged(before, t, calls)
        invariant forall i :: 0 <= i < |t| ==> SystemPhase(t[i].step) <= 3
        invariant Acknowledged(t, |t|) && PeersIn(Shape(), t, block) && Fetched(t, |t|, block)
        invariant forall i :: 0 <= i < k ==> orgs[i] in w.anchors
      {
        ghost var u, mid, was, logged := [], w, cancelled, calls;
        ok, u := UpdateAnchorPeers(orgs[k]);
        AnchorsMore(Shape(), start, t, mid, u, w, block, orgs[k], ok);
        LoggedNext(before, t, logged, u, calls);
        TurnsNext(project, retries, t, ss + anchors[..k], was, u, [anchors[k]], ok, cancelled);
        assert ss + anchors[..k+1] == ss + anchors[..k] + [anchors[k]];
        t := t + u;
        if !ok {
          assert ss + anchors[..k+1] <= ss + anchors;
          TurnsEnd(project, retries, t, ss + anchors[..k+1], ss + anchors, cancelled);
          return;
        }
      }
      assert anchors[..|orgs|] == anchors;
      ok := true;
    }

    /** The start of a generated network whose containers are up. */
    method Up(channel: string) returns (ok: bool, ghost t: seq<Attempt>, ghost block: Block)
      requires Valid()
      modifies this`w, this`calls, this`conns, this`cancelled
      ensures Valid() && Chained(old(w), t, w) && Logged(old(calls), t, calls)
      // With the channel's block the nodes join with it, orderers first...
      ensures
        var path := "channel-artifacts/" + channel + ".block";
        path in project.files ==>
          && block == project.files[path] && UpShaped(orderers, t, block) && UpTurns(channel, t, ok)
          && (forall i :: 0 <= i < |t| ==> t[i].step.JoinOrderer? || t[i].step.JoinPeer?)
          && (ok ==> forall i :: i in orderers ==> OrdererIn(old(w), w, i, block))
      // ...without it a network that has a system channel makes the channel from channel.tx...
      ensures
        var path := "channel-artifacts/" + channel + ".block";
        path !in project.files && "channel-artifacts/genesis.block" in project.files && "channel-artifacts/channel.tx" in project.files ==>
          && SystemShaped(Shape(), t, block) && SystemTurns(t, block, ok)
          && (ok ==> PeersIn(Shape(), t, block) && Fetched(t, |t|, block))
      // ...and any other makes none.
      ensures
        var path := "channel-artifacts/" + channel + ".block";
        path !in project.files && !("channel-artifacts/genesis.block" in project.files && "channel-artifacts/channel.tx" in project.files) ==>
          t == [] && !ok
      ensures ok ==> forall o, j :: o in orgs && j in peers ==> PeerIn(old(w), w, PeerRef(o, j), block)
    {
      hide Logged, Attempted, Chained, ValidWorld, Succeeded, Grown, PeersIn, Fetched, SystemShaped, InTurn, SweepSteps, OrdererSteps;
      if SystemChannelNetwork(channel) {
        ok, t, block := CreateSystemChannel(channel);
      } else {
        ok, t := UpChannel(channel);
        block := if ChannelBlock(channel) in project.files then project.files[ChannelBlock(channel)] else "";
      }
    }
  }
}
