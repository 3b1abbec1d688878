/**
 Runs that make the nodes members of the channel: with the channel's genesis
 block, or, on a network whose orderers run the system channel, with the block
 that the ordering service made from the channel creation transaction.
 */
module Channels {
  import opened Wrappers
  import opened Fabric
  import opened Lifecycle

  /******* Joins *******/

  /** Every join in t carries this block. */
  ghost predicate JoinsWith(t: seq<Attempt>, block: Block) {
    forall i :: 0 <= i < |t| ==>
      (t[i].step.JoinOrderer? || t[i].step.JoinPeer? ==> t[i].step.block == block)
  }

  /** Whatever the network held before: every member has the block that it had, or
      this run's. */
  lemma {:induction false} BlocksAfter(w: World, t: seq<Attempt>, w': World, block: Block)
    requires Chained(w, t, w') && JoinsWith(t, block)
    ensures forall i :: i in w'.orderers ==> w'.orderers[i].block == OrdererBlock(w, i, block)
    ensures forall p :: p in w'.peers ==> w'.peers[p] == PeerBlock(w, p, block)
    decreases |t|
  {
    hide Attempted;
    if t != [] {
      BlocksStep(t[0], block);
      BlocksAfter(t[0].after, t[1..], w', block);
    }
  }

  /** Whatever node has the channel has it with this block. */
  ghost predicate AllHold(w: World, block: Block) {
    && (forall i :: i in w.orderers ==> w.orderers[i].block == block)
    && (forall p :: p in w.peers ==> w.peers[p] == block)
  }

  /** So a run that joins with one block never leaves two. */
  lemma {:induction false} OneBlock(w: World, t: seq<Attempt>, w': World, block: Block)
    requires Chained(w, t, w') && JoinsWith(t, block) && AllHold(w, block)
    ensures AllHold(w', block)
  {
    hide Attempted, Chained;
    BlocksAfter(w, t, w', block);
  }

  function OrdererBlock(w: World, i: int, block: Block): Block {
    if i in w.orderers then w.orderers[i].block else block
  }

  function PeerBlock(w: World, p: PeerRef, block: Block): Block {
    if p in w.peers then w.peers[p] else block
  }

  lemma BlocksStep(a: Attempt, block: Block)
    requires Attempted(a) && (a.step.JoinOrderer? || a.step.JoinPeer? ==> a.step.block == block)
    ensures forall i :: OrdererBlock(a.after, i, block) == OrdererBlock(a.before, i, block)
    ensures forall p :: PeerBlock(a.after, p, block) == PeerBlock(a.before, p, block)
  {
  }

  /** A channel run on nil: the step of each node succeeded, so the node has it. */
  lemma JoinedOrderer(w: World, t: seq<Attempt>, w': World, orderer: int, block: Block)
    requires ValidWorld(w) && Chained(w, t, w') && Succeeded(t, |t|, JoinOrderer(orderer, block))
    ensures orderer in w'.orderers
  {
    hide Attempted, Chained, ValidWorld;
    var i := Find(t, |t|, JoinOrderer(orderer, block));
    ChainAt(w, t, w', i);
    JoinAnswer(t[i]);
  }

  lemma JoinedPeer(w: World, t: seq<Attempt>, w': World, p: PeerRef, block: Block)
    requires ValidWorld(w) && Chained(w, t, w') && Succeeded(t, |t|, JoinPeer(p, block))
    ensures p in w'.peers
  {
    hide Attempted, Chained, ValidWorld;
    var i := Find(t, |t|, JoinPeer(p, block));
    ChainAt(w, t, w', i);
    PeerAnswer(t[i]);
  }

  /** How many attempts of a run made this orderer a member. */
  function OrdererJoins(t: seq<Attempt>, i: int): nat {
    if t == [] then 0
    else (if i !in t[0].before.orderers && i in t[0].after.orderers then 1 else 0) + OrdererJoins(t[1..], i)
  }

  function PeerJoins(t: seq<Attempt>, p: PeerRef): nat {
    if t == [] then 0
    else (if p !in t[0].before.peers && p in t[0].after.peers then 1 else 0) + PeerJoins(t[1..], p)
  }

  /** A node's join takes effect at most once over every run, whatever replies
      are lost: exactly once if the node went from outside to inside. */
  lemma {:induction false} JoinsOnce(w: World, t: seq<Attempt>, w': World, i: int, p: PeerRef)
    requires ValidWorld(w) && Chained(w, t, w')
    ensures OrdererJoins(t, i) == (if i !in w.orderers && i in w'.orderers then 1 else 0)
    ensures PeerJoins(t, p) == (if p !in w.peers && p in w'.peers then 1 else 0)
    decreases |t|
  {
    hide Attempted;
    if t != [] {
      AttemptKeeps(t[0]);
      ChainKeeps(t[0].after, t[1..], w');
      JoinsOnce(t[0].after, t[1..], w', i, p);
    }
  }

  /** A join that took effect is not sent again, whatever replies are lost: not to
      a peer... */
  lemma PeerJoinIsNotRepeated(w: World, t: seq<Attempt>, w': World, i: nat, j: nat)
    requires ValidWorld(w) && Chained(w, t, w') && i < j < |t|
    requires t[i].step.JoinPeer? && t[i].after.peers != t[i].before.peers
    requires t[j].step.JoinPeer? && t[j].step.peer == t[i].step.peer
    ensures !t[j].sent && (t[j].ok <==> t[j].asked)
  {
    hide Chained, ValidWorld;
    LaterAttempt(w, t, w', i, j);
  }

  /** ...and to an orderer it may be sent again only while the orderer takes the
      channel in, and then in vain: it takes no join in. */
  lemma OrdererJoinIsNotRepeated(w: World, t: seq<Attempt>, w': World, i: nat, j: nat)
    requires ValidWorld(w) && Chained(w, t, w') && i < j < |t|
    requires t[i].step.JoinOrderer? && t[i].step.orderer !in t[i].before.orderers && t[i].step.orderer in t[i].after.orderers
    requires t[j].step.JoinOrderer? && t[j].step.orderer == t[i].step.orderer
    ensures t[j].step.orderer in t[j].before.orderers
    ensures t[j].sent ==> t[j].before.orderers[t[j].step.orderer].Onboarding?
    ensures t[j].after.orderers.Keys == t[j].before.orderers.Keys
  {
    hide Chained, ValidWorld;
    LaterAttempt(w, t, w', i, j);
  }

  lemma LaterAttempt(w: World, t: seq<Attempt>, w': World, i: nat, j: nat)
    requires ValidWorld(w) && Chained(w, t, w') && i < j < |t|
    ensures Attempted(t[i]) && Attempted(t[j]) && Grown(t[i].after, t[j].before)
  {
    hide Attempted, Chained, ValidWorld, Grown;
    ChainAt(w, t, w', j);
    assert t[..j][i] == t[i];
    ChainAt(w, t[..j], t[j].before, i);
  }

  /** On a network where every node is a member, a run sends no join, whatever
      the queries answer. */
  lemma {:induction false} NothingToJoin(w: World, t: seq<Attempt>, w': World, k: nat)
    requires ValidWorld(w) && Chained(w, t, w') && k < |t|
    requires t[k].step.JoinOrderer? || t[k].step.JoinPeer?
    requires t[k].step.JoinOrderer? ==> t[k].step.orderer in w.orderers && w.orderers[t[k].step.orderer].Active?
    requires t[k].step.JoinPeer? ==> t[k].step.peer in w.peers
    ensures !t[k].sent
  {
    ChainAt(w, t, w', k);
  }

  /** i is an orderer of the channel with this block, or with the one it had in w. */
  predicate OrdererIn(w: World, w': World, i: int, block: Block) {
    i in w'.orderers && w'.orderers[i].block == OrdererBlock(w, i, block)
  }

  predicate PeerIn(w: World, w': World, p: PeerRef, block: Block) {
    p in w'.peers && w'.peers[p] == PeerBlock(w, p, block)
  }

  /** A node whose step succeeded is a member, with this run's block or with the
      one it had. */
  lemma {:induction false} AllJoined(w: World, t: seq<Attempt>, w': World, block: Block)
    requires ValidWorld(w) && Chained(w, t, w') && JoinsWith(t, block)
    ensures forall i :: Succeeded(t, |t|, JoinOrderer(i, block)) ==> OrdererIn(w, w', i, block)
    ensures forall p :: Succeeded(t, |t|, JoinPeer(p, block)) ==> PeerIn(w, w', p, block)
  {
    hide Attempted, Chained, ValidWorld, Succeeded;
    BlocksAfter(w, t, w', block);
    forall i | Succeeded(t, |t|, JoinOrderer(i, block)) ensures OrdererIn(w, w', i, block) {
      JoinedOrderer(w, t, w', i, block);
    }
    forall p | Succeeded(t, |t|, JoinPeer(p, block)) ensures PeerIn(w, w', p, block) {
      JoinedPeer(w, t, w', p, block);
    }
  }

  /** So they all hold the run's block exactly if none of them held another. */
  lemma SameBlock(w: World, w': World, orderers: seq<int>, block: Block)
    requires forall i :: i in orderers ==> OrdererIn(w, w', i, block)
    ensures forall i :: i in orderers ==> i in w'.orderers
    ensures (forall i :: i in orderers ==> w'.orderers[i].block == block) <==>
            (forall i :: i in orderers && i in w.orderers ==> w.orderers[i].block == block)
  {
    if forall i :: i in orderers ==> w'.orderers[i].block == block {
      forall i | i in orderers && i in w.orderers ensures w.orderers[i].block == block {
        assert OrdererIn(w, w', i, block);
      }
    }
  }

  lemma SameBlockOfPeers(w: World, w': World, c: Topology, block: Block)
    requires forall o, j :: o in c.orgs && j in c.peers ==> PeerIn(w, w', PeerRef(o, j), block)
    ensures forall o, j :: o in c.orgs && j in c.peers ==> PeerRef(o, j) in w'.peers
    ensures (forall o, j :: o in c.orgs && j in c.peers ==> w'.peers[PeerRef(o, j)] == block) <==>
            (forall o, j :: o in c.orgs && j in c.peers && PeerRef(o, j) in w.peers ==> w.peers[PeerRef(o, j)] == block)
  {
    if forall o, j :: o in c.orgs && j in c.peers ==> w'.peers[PeerRef(o, j)] == block {
      forall o, j | o in c.orgs && j in c.peers && PeerRef(o, j) in w.peers ensures w.peers[PeerRef(o, j)] == block {
        assert PeerIn(w, w', PeerRef(o, j), block);
      }
    }
  }

  /******* up *******/

  /** up joins the orderers, and starts on the peers when every orderer is in. */
  ghost predicate UpShaped(orderers: seq<int>, t: seq<Attempt>, block: Block) {
    && JoinsWith(t, block)
    && (forall k :: 0 <= k < |t| ==> t[k].step.JoinOrderer? || t[k].step.JoinPeer?)
    && (forall k {:trigger AfterOrderers(orderers, t, k, block)} ::
          0 <= k < |t| ==> t[k].step.JoinPeer? ==> AfterOrderers(orderers, t, k, block))
  }

  ghost predicate AfterOrderers(orderers: seq<int>, t: seq<Attempt>, k: nat, block: Block)
    requires k < |t|
  {
    forall i :: i in orderers ==> Succeeded(t, k, JoinOrderer(i, block))
  }

  /** No peer joins before every orderer is a member. */
  lemma OrderersFirst(orderers: seq<int>, w: World, t: seq<Attempt>, w': World, block: Block, k: nat, i: int)
    requires ValidWorld(w) && Chained(w, t, w') && UpShaped(orderers, t, block)
    requires k < |t| && t[k].step.JoinPeer? && i in orderers
    ensures i in t[k].before.orderers
  {
    hide Attempted, Chained;
    assert AfterOrderers(orderers, t, k, block);
    var j := Find(t, k, JoinOrderer(i, block));
    ChainAt(w, t, w', k);
    assert t[..k][j] == t[j];
    ChainAt(w, t[..k], t[k].before, j);
    JoinAnswer(t[j]);
  }

  lemma JoinAnswer(a: Attempt)
    requires Attempted(a) && a.step.JoinOrderer? && a.ok
    ensures a.step.orderer in a.after.orderers
  {
  }

  /******* The channel of a network with a system channel *******/

  function SystemPhase(s: Step): nat {
    match s
    case CreateFrom(_) => 0
    case FetchGenesis => 1
    case JoinPeer(_, _) => 2
    case UpdateAnchors(_, _) => 3
    case _ => 4
  }

  /** The run's channel.tx was acknowledged with SUCCESS among the first n attempts. */
  ghost predicate Acknowledged(t: seq<Attempt>, n: nat)
    requires n <= |t|
  {
    exists i :: 0 <= i < n && t[i].step.CreateFrom? && t[i].ok && t[i].sent
  }

  ghost predicate Fetched(t: seq<Attempt>, n: nat, block: Block)
    requires n <= |t|
  {
    exists i :: 0 <= i < n && t[i].step.FetchGenesis? && t[i].ok && t[i].block == block
  }

  ghost predicate SystemGate(c: Topology, t: seq<Attempt>, block: Block, i: nat)
    requires i < |t|
  {
    && (t[i].step.JoinPeer? ==> t[i].step.block == block && Fetched(t, i, block))
    && (t[i].step.UpdateAnchors? ==>
          && Acknowledged(t, i)
          && t[i].step.org in c.orgs
          && forall o, j :: o in c.orgs && j in c.peers ==> Succeeded(t, i, JoinPeer(PeerRef(o, j), block)))
  }

  /** What CreateSystemChannel does: create or find, fetch, join, update. */
  ghost predicate SystemShaped(c: Topology, t: seq<Attempt>, block: Block) {
    && (forall i :: 0 <= i < |t| ==> SystemPhase(t[i].step) < 4)
    && (forall i, j :: 0 <= i < j < |t| ==> SystemPhase(t[i].step) <= SystemPhase(t[j].step))
    && (forall i {:trigger SystemGate(c, t, block, i)} :: 0 <= i < |t| ==> SystemGate(c, t, block, i))
  }

  /** Attempts of one phase may follow once their gate is open. */
  lemma SystemAppend(c: Topology, t: seq<Attempt>, u: seq<Attempt>, block: Block, phase: nat)
    requires SystemShaped(c, t, block) && phase < 4
    requires forall i :: 0 <= i < |t| ==> SystemPhase(t[i].step) <= phase
    requires forall i :: 0 <= i < |u| ==> SystemPhase(u[i].step) == phase
    requires phase == 2 && u != [] ==> Fetched(t, |t|, block)
    requires phase == 2 ==> forall i :: 0 <= i < |u| ==> u[i].step.JoinPeer? && u[i].step.block == block
    requires phase == 3 && u != [] ==> Acknowledged(t, |t|) && PeersIn(c, t, block)
    requires phase == 3 ==> forall i :: 0 <= i < |u| ==> u[i].step.UpdateAnchors? && u[i].step.org in c.orgs
    ensures SystemShaped(c, t + u, block)
    ensures forall i :: 0 <= i < |t + u| ==> SystemPhase((t + u)[i].step) <= phase
  {
    var v := t + u;
    forall i | 0 <= i < |v|
      ensures SystemGate(c, v, block, i)
    {
      if i < |t| {
        assert SystemGate(c, t, block, i);
        GateMore(c, t, i, v, i, block);
      } else {
        GateMore(c, t, |t|, v, i, block);
      }
    }
  }

  /** On nil every peer holds the fetched block, or the one that it held before. */
  lemma SystemJoined(c: Topology, w: World, t: seq<Attempt>, w': World, block: Block)
    requires ValidWorld(w) && Chained(w, t, w') && SystemShaped(c, t, block) && PeersIn(c, t, block)
    ensures forall o, j :: o in c.orgs && j in c.peers ==> PeerIn(w, w', PeerRef(o, j), block)
  {
    hide Attempted, Chained, ValidWorld, Succeeded, PeerIn;
    forall i | 0 <= i < |t| && (t[i].step.JoinOrderer? || t[i].step.JoinPeer?) ensures t[i].step.block == block {
      assert SystemGate(c, t, block, i) && SystemPhase(t[i].step) < 4;
    }
    AllJoined(w, t, w', block);
  }

  /** Every peer's join succeeded in t. */
  ghost predicate PeersIn(c: Topology, t: seq<Attempt>, block: Block) {
    forall o, j :: o in c.orgs && j in c.peers ==> Succeeded(t, |t|, JoinPeer(PeerRef(o, j), block))
  }

  lemma GateMore(c: Topology, t: seq<Attempt>, n: nat, v: seq<Attempt>, m: nat, block: Block)
    requires n <= |t| && n <= m <= |v| && t <= v
    ensures Fetched(t, n, block) ==> Fetched(v, m, block)
    ensures Acknowledged(t, n) ==> Acknowledged(v, m)
    ensures forall s :: Succeeded(t, n, s) ==> Succeeded(v, m, s)
  {
    if Fetched(t, n, block) {
      var i :| 0 <= i < n && t[i].step.FetchGenesis? && t[i].ok && t[i].block == block;
      assert v[i] == t[i];
    }
    if Acknowledged(t, n) {
      var i :| 0 <= i < n && t[i].step.CreateFrom? && t[i].ok && t[i].sent;
      assert v[i] == t[i];
    }
    forall s | Succeeded(t, n, s) ensures Succeeded(v, m, s) {
      SucceededMore(t, n, v, m, s);
    }
  }

  /** Peers are sent only the block that the ordering service has. */
  lemma PeersGetTheFetchedBlock(c: Topology, w: World, t: seq<Attempt>, w': World, block: Block, k: nat)
    requires ValidWorld(w) && Chained(w, t, w') && SystemShaped(c, t, block)
    requires k < |t| && t[k].step.JoinPeer?
    ensures t[k].before.channel == Some(t[k].step.block)
  {
    hide Attempted, Chained;
    assert SystemGate(c, t, block, k);
    var j :| 0 <= j < k && t[j].step.FetchGenesis? && t[j].ok && t[j].block == block;
    ChainAt(w, t, w', k);
    assert t[..k][j] == t[j];
    ChainAt(w, t[..k], t[k].before, j);
    FetchAnswer(t[j]);
  }

  lemma FetchAnswer(a: Attempt)
    requires Attempted(a) && a.step.FetchGenesis? && a.ok
    ensures a.after.channel == Some(a.block)
  {
  }

  /** An anchor peer update goes out only in a run whose own channel.tx made the
      channel, and only when every peer is a member. */
  lemma AnchorsLast(c: Topology, w: World, t: seq<Attempt>, w': World, block: Block, k: nat, p: PeerRef)
    requires ValidWorld(w) && Chained(w, t, w') && SystemShaped(c, t, block)
    requires k < |t| && t[k].step.UpdateAnchors? && p.org in c.orgs && p.peer in c.peers
    ensures w.channel.None? && t[k].before.channel.Some?
    ensures p in t[k].before.peers
  {
    hide Attempted, Chained;
    assert SystemGate(c, t, block, k);
    ChainAt(w, t, w', k);
    var i :| 0 <= i < k && t[i].step.CreateFrom? && t[i].ok && t[i].sent;
    assert t[..k][i] == t[i];
    ChainAt(w, t[..k], t[k].before, i);
    CreateAnswer(t[i]);
    assert p == PeerRef(p.org, p.peer);
    var j := Find(t, k, JoinPeer(p, block));
    assert t[..k][j] == t[j];
    ChainAt(w, t[..k], t[k].before, j);
    PeerAnswer(t[j]);
  }

  lemma CreateAnswer(a: Attempt)
    requires Attempted(a) && a.step.CreateFrom? && a.ok && a.sent
    ensures a.before.channel.None? && a.after.channel.Some?
  {
  }

  lemma PeerAnswer(a: Attempt)
    requires Attempted(a) && a.step.JoinPeer? && a.ok
    ensures a.step.peer in a.after.peers
  {
  }

  /** A run whose own channel.tx was not acknowledged leaves the anchors as they
      were, and so does every run on a network that has the channel. */
  lemma NoAcknowledgementNoAnchors(c: Topology, w: World, t: seq<Attempt>, w': World, block: Block)
    requires ValidWorld(w) && Chained(w, t, w') && SystemShaped(c, t, block)
    ensures !Acknowledged(t, |t|) || w.channel.Some? ==> w'.anchors == w.anchors
  {
    hide Attempted, Chained, ValidWorld, Acknowledged;
    if w.channel.Some? && Acknowledged(t, |t|) {
      AcknowledgedMade(w, t, w');
    }
    if !Acknowledged(t, |t|) {
      forall i | 0 <= i < |t| ensures !t[i].step.UpdateAnchors? {
        if t[i].step.UpdateAnchors? {
          assert SystemGate(c, t, block, i);
          GateMore(c, t, i, t, |t|, block);
        }
      }
      AnchorsStay(w, t, w');
    }
  }

  /** The acknowledged transaction made the channel, which was not there before. */
  lemma AcknowledgedMade(w: World, t: seq<Attempt>, w': World)
    requires ValidWorld(w) && Chained(w, t, w') && Acknowledged(t, |t|)
    ensures w.channel.None?
  {
    hide Attempted, Chained;
    var i :| 0 <= i < |t| && t[i].step.CreateFrom? && t[i].ok && t[i].sent;
    ChainAt(w, t, w', i);
    CreateAnswer(t[i]);
  }

  lemma {:induction false} AnchorsStay(w: World, t: seq<Attempt>, w': World)
    requires Chained(w, t, w') && forall i :: 0 <= i < |t| ==> !t[i].step.UpdateAnchors?
    ensures w'.anchors == w.anchors
    decreases |t|
  {
    hide Attempted;
    if t != [] {
      AnchorsUntouched(t[0]);
      AnchorsStay(t[0].after, t[1..], w');
    }
  }

  lemma AnchorsUntouched(a: Attempt)
    requires Attempted(a) && !a.step.UpdateAnchors?
    ensures a.after.anchors == a.before.anchors
  {
  }

  /** Anchor updates are not certain: the reply to channel.tx is lost, the next
      attempt finds the channel, and the run ends with no update. */
  lemma {:induction false} LostReplyLosesAnchors(c: Topology) returns (w: World, t: seq<Attempt>, w': World)
    requires c == Topology([1], [0])
    ensures ValidWorld(w) && w.channel.None? && Chained(w, t, w') && SystemShaped(c, t, "block")
    ensures t != [] && t[|t|-1].ok && t[|t|-1].step == JoinPeer(PeerRef(1, 0), "block")
    ensures w'.channel.Some? && !Acknowledged(t, |t|) && w'.anchors == {}
  {
    var p := PeerRef(1, 0);
    w := World({1}, map[], [], map[], map[], map[], None, {});
    var made := w.(channel := Some("block"));
    w' := made.(peers := map[p := "block"]);
    var lost := Attempt(w, CreateFrom("channel.tx"), made, false, true, true, 0, "");
    var found := Attempt(made, CreateFrom("channel.tx"), made, true, true, false, 0, "");
    var fetched := Attempt(made, FetchGenesis, made, true, true, false, 0, "block");
    var joined := Attempt(made, JoinPeer(p, "block"), w', true, true, true, 0, "");
    t := [lost, found, fetched, joined];
    assert View(w.views, p) == [];
    FourAttempts(lost, found, fetched, joined);
    assert t[2] == fetched;
    assert Fetched(t, 3, "block");
  }

  lemma FourAttempts(a: Attempt, b: Attempt, c: Attempt, d: Attempt)
    requires Attempted(a) && Attempted(b) && Attempted(c) && Attempted(d)
    requires a.after == b.before && b.after == c.before && c.after == d.before
    ensures Chained(a.before, [a, b, c, d], d.after)
  {
    hide Attempted, Chained;
    assert [] + [a] == [a] && [a] + [b] == [a, b] && [a, b] + [c] == [a, b, c] && [a, b, c] + [d] == [a, b, c, d];
    ChainedNone(a.before);
    ChainedMore(a.before, [], a);
    ChainedMore(a.before, [a], b);
    ChainedMore(a.before, [a, b], c);
    ChainedMore(a.before, [a, b, c], d);
  }
}
