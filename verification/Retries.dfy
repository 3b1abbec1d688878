/**
 The order of a run's attempts, and why it ends: the admin client takes its steps
 one by one, retries each, and returns the first error.
 */
module Retries {
  import opened Wrappers
  import opened Fabric
  import opened Lifecycle
  import opened Decimal
  import Names

  /** What a run finds in the project's directory.  sound: the paths of the files
      that decode as what they are.  policy: the one of variables.sh, if it parses.
      peers, orderers, admins: the peers, the orderers' clients and the orgs whose
      connection can be made from the certificates and keys there; making it calls
      no node. */
  datatype Project = Project(files: map<string, string>, sound: set<string>, policy: Option<string>,
                             peers: set<PeerRef>, orderers: set<int>, admins: set<int>)

  function Max(a: int, b: int): int {
    if a < b then b else a
  }

  /** retry: the step runs up to its first success or n times, and the result is
      nil exactly when it succeeded; only a cancelled context ends it earlier, and
      not before the first attempt. */
  ghost predicate Retried(t: seq<Attempt>, s: Step, n: int, ok: bool, cancelled: bool) {
    && (forall i :: 0 <= i < |t| ==> t[i].step == s)
    && (forall i :: 0 <= i < |t| - 1 ==> !t[i].ok)
    && |t| <= Max(n, 0)
    && (ok <==> t != [] && t[|t|-1].ok)
    && (!ok ==> |t| == Max(n, 0) || (cancelled && t != []))
  }

  lemma RetriedIs(t: seq<Attempt>, s: Step, n: int, ok: bool, cancelled: bool)
    requires forall i :: 0 <= i < |t| ==> t[i].step == s && (t[i].ok ==> i == |t| - 1)
    requires |t| <= Max(n, 0) && (ok <==> t != [] && t[|t|-1].ok)
    requires ok || |t| == Max(n, 0) || (cancelled && t != [])
    ensures Retried(t, s, n, ok, cancelled)
  {
  }

  /** What the step needs before its first attempt. */
  predicate Able(p: Project, s: Step) {
    match s
    case InstallOn(peer, _) => peer in p.peers
    case NextSequence(peer, _) => peer in p.peers
    case ApproveOn(peer, _, _) => peer in p.peers
    case WaitReady(peer, _) => peer in p.peers
    case CommitOn(peer, _) => peer in p.peers
    case WaitCommitted(peer, _) => peer in p.peers
    case JoinPeer(peer, _) => peer in p.peers
    case JoinOrderer(i, _) => i in p.orderers
    case UpdateAnchors(org, update) => org in p.admins && Some(update) == UpdateOf(p, AnchorsFile(org))
    case CreateFrom(_) => true
    case FetchGenesis => true
  }

  function AnchorsFile(org: int): string {
    "channel-artifacts/" + Names.MspId(org) + "anchors.tx"
  }

  /** A config update, if the file is there and is one. */
  function UpdateOf(p: Project, path: string): Option<string> {
    if path in p.files && path in p.sound then Some(p.files[path]) else None
  }

  /** The first k attempts are s's, retried, or s cannot start. */
  ghost predicate Turn(p: Project, n: int, t: seq<Attempt>, k: nat, s: Step, cancelled: bool) {
    k <= |t| && if Able(p, s) then Retried(t[..k], s, n, Won(t, k), cancelled) else k == 0
  }

  /** The last of the first k attempts succeeded. */
  predicate Won(t: seq<Attempt>, k: nat)
    requires k <= |t|
  {
    k > 0 && t[k-1].ok
  }

  /** t is the steps in turn, each retried, up to the first that fails; ok if none does. */
  ghost predicate InTurn(p: Project, n: int, t: seq<Attempt>, ss: seq<Step>, ok: bool, cancelled: bool)
    decreases |ss|
  {
    if ss == [] then t == [] && ok
    else
      exists k: nat ::
        && Turn(p, n, t, k, ss[0], cancelled)
        && if Won(t, k) then InTurn(p, n, t[k..], ss[1..], ok, cancelled) else k == |t| && !ok
  }

  /******* The calls behind the attempts *******/

  /** Where a call goes.  wait: a deliver request that waits for the channel. */
  datatype Target = ToPeer(p: PeerRef) | ToOrderer(i: int) | ToOrdering(wait: bool)

  /** A question to a node, and a call that changes what nodes hold, with what came back. */
  datatype Call = Query(to: Target, answered: bool) | Change(to: Target, ok: bool)

  function TargetOf(s: Step): Target {
    match s
    case InstallOn(p, _) => ToPeer(p)
    case NextSequence(p, _) => ToPeer(p)
    case ApproveOn(p, _, _) => ToPeer(p)
    case WaitReady(p, _) => ToPeer(p)
    case CommitOn(p, _) => ToPeer(p)
    case WaitCommitted(p, _) => ToPeer(p)
    case JoinPeer(p, _) => ToPeer(p)
    case JoinOrderer(i, _) => ToOrderer(i)
    case CreateFrom(_) => ToOrdering(false)
    case FetchGenesis => ToOrdering(true)
    case UpdateAnchors(_, _) => ToOrdering(false)
  }

  /** An attempt's query and, if it sends, its change; anchor peers are updated unasked. */
  function CallsOfOne(s: Step, ok: bool, asked: bool, sent: bool): seq<Call> {
    (if s.UpdateAnchors? then [] else [Query(TargetOf(s), asked)]) + (if sent then [Change(TargetOf(s), ok)] else [])
  }

  function CallsOf(t: seq<Attempt>): seq<Call> {
    if t == [] then [] else CallsOfOne(t[0].step, t[0].ok, t[0].asked, t[0].sent) + CallsOf(t[1..])
  }

  lemma {:induction false} CallsConcat(t: seq<Attempt>, u: seq<Attempt>)
    ensures CallsOf(t + u) == CallsOf(t) + CallsOf(u)
    decreases |t|
  {
    hide CallsOfOne;
    if t == [] {
      assert t + u == u;
    } else {
      CallsConcat(t[1..], u);
      assert (t + u)[1..] == t[1..] + u;
    }
  }

  /** From was on the calls were those of t, and no others. */
  predicate Logged(was: seq<Call>, t: seq<Attempt>, now: seq<Call>) {
    now == was + CallsOf(t)
  }

  lemma LoggedNone(calls: seq<Call>)
    ensures Logged(calls, [], calls)
  {
  }

  lemma LoggedMore(was: seq<Call>, t: seq<Attempt>, m: seq<Call>, a: Attempt, now: seq<Call>)
    requires Logged(was, t, m) && now == m + CallsOfOne(a.step, a.ok, a.asked, a.sent)
    ensures Logged(was, t + [a], now)
  {
    hide CallsOfOne;
    CallsConcat(t, [a]);
    assert [a][1..] == [];
  }

  lemma LoggedNext(was: seq<Call>, t: seq<Attempt>, m: seq<Call>, u: seq<Attempt>, now: seq<Call>)
    requires Logged(was, t, m) && Logged(m, u, now)
    ensures Logged(was, t + u, now)
  {
    hide CallsOf;
    CallsConcat(t, u);
  }

  function CallsOfRuns(h: seq<Segment>): seq<Call> {
    if h == [] then [] else CallsOfRuns(h[..|h|-1]) + CallsOf(h[|h|-1].t)
  }

  /******* Runs put together *******/

  lemma FirstTurn(p: Project, n: int, t: seq<Attempt>, ss: seq<Step>, ok: bool, cancelled: bool) returns (k: nat)
    requires InTurn(p, n, t, ss, ok, cancelled) && ss != []
    ensures Turn(p, n, t, k, ss[0], cancelled)
    ensures if Won(t, k) then InTurn(p, n, t[k..], ss[1..], ok, cancelled) else k == |t| && !ok
    ensures k <= |t| && k <= Max(n, 0)
    ensures forall i :: 0 <= i < k ==> t[i].step == ss[0] && (t[i].ok ==> i == k - 1)
  {
    hide Able;
    k :| && Turn(p, n, t, k, ss[0], cancelled)
         && if Won(t, k) then InTurn(p, n, t[k..], ss[1..], ok, cancelled) else k == |t| && !ok;
    forall i | 0 <= i < k ensures t[i].step == ss[0] && (t[i].ok ==> i == k - 1) {
      assert t[..k][i] == t[i];
    }
  }

  lemma TurnAnd(p: Project, n: int, t: seq<Attempt>, k: nat, ss: seq<Step>, ok: bool, cancelled: bool)
    requires ss != [] && Turn(p, n, t, k, ss[0], cancelled)
    requires if Won(t, k) then InTurn(p, n, t[k..], ss[1..], ok, cancelled) else k == |t| && !ok
    ensures InTurn(p, n, t, ss, ok, cancelled)
  {
    hide Turn;
  }

  lemma NoTurns(p: Project, n: int, cancelled: bool)
    ensures InTurn(p, n, [], [], true, cancelled)
  {
  }

  lemma OneTurn(p: Project, n: int, t: seq<Attempt>, s: Step, ok: bool, cancelled: bool)
    requires if Able(p, s) then Retried(t, s, n, ok, cancelled) else t == [] && !ok
    ensures InTurn(p, n, t, [s], ok, cancelled)
  {
    hide Able;
    assert t[..|t|] == t;
    assert Turn(p, n, t, |t|, s, cancelled);
    if ok {
      NoTurns(p, n, cancelled);
      assert t[|t|..] == [] && [s][1..] == [];
    }
    TurnAnd(p, n, t, |t|, [s], ok, cancelled);
  }

  /** A context stays cancelled. */
  lemma {:induction false} TurnsLater(p: Project, n: int, t: seq<Attempt>, ss: seq<Step>, ok: bool, cancelled: bool, cancelled': bool)
    requires InTurn(p, n, t, ss, ok, cancelled) && (cancelled ==> cancelled')
    ensures InTurn(p, n, t, ss, ok, cancelled')
    decreases |ss|
  {
    if ss != [] {
      var k := FirstTurn(p, n, t, ss, ok, cancelled);
      assert Turn(p, n, t, k, ss[0], cancelled');
      if Won(t, k) {
        TurnsLater(p, n, t[k..], ss[1..], ok, cancelled, cancelled');
      }
      hide Turn;
      TurnAnd(p, n, t, k, ss, ok, cancelled');
    }
  }

  lemma TurnLonger(p: Project, n: int, t: seq<Attempt>, u: seq<Attempt>, k: nat, s: Step, cancelled: bool)
    requires Turn(p, n, t, k, s, cancelled)
    ensures Turn(p, n, t + u, k, s, cancelled) && Won(t + u, k) == Won(t, k)
    ensures (t + u)[k..] == t[k..] + u
  {
    hide Able, Retried;
    assert (t + u)[..k] == t[..k];
  }

  /** After a run without an error comes the next. */
  lemma {:induction false} TurnsConcat(p: Project, n: int, t: seq<Attempt>, ss: seq<Step>, u: seq<Attempt>, ss': seq<Step>, ok: bool, cancelled: bool)
    requires InTurn(p, n, t, ss, true, cancelled) && InTurn(p, n, u, ss', ok, cancelled)
    ensures InTurn(p, n, t + u, ss + ss', ok, cancelled)
    decreases |ss|
  {
    hide InTurn, Turn;
    if ss == [] {
      assert t == [] by {
        NoStepsNoAttempts(p, n, t, true, cancelled);
      }
      assert t + u == u && ss + ss' == ss';
    } else {
      var k := FirstTurn(p, n, t, ss, true, cancelled);
      TurnLonger(p, n, t, u, k, ss[0], cancelled);
      TurnsConcat(p, n, t[k..], ss[1..], u, ss', ok, cancelled);
      assert (ss + ss')[1..] == ss[1..] + ss' && (ss + ss')[0] == ss[0];
      TurnAnd(p, n, t + u, k, ss + ss', ok, cancelled);
    }
  }

  lemma TurnsNext(p: Project, n: int, t: seq<Attempt>, ss: seq<Step>, was: bool, u: seq<Attempt>, ss': seq<Step>, ok: bool, cancelled: bool)
    requires InTurn(p, n, t, ss, true, was) && (was ==> cancelled) && InTurn(p, n, u, ss', ok, cancelled)
    ensures InTurn(p, n, t + u, ss + ss', ok, cancelled)
  {
    hide InTurn;
    TurnsLater(p, n, t, ss, true, was, cancelled);
    TurnsConcat(p, n, t, ss, u, ss', ok, cancelled);
  }

  lemma NoStepsNoAttempts(p: Project, n: int, t: seq<Attempt>, ok: bool, cancelled: bool)
    requires InTurn(p, n, t, [], ok, cancelled)
    ensures t == [] && ok && |t| <= Budget(n, 0)
  {
  }

  /** After an error comes nothing, whatever the rest of the steps is. */
  lemma {:induction false} TurnsEnd(p: Project, n: int, t: seq<Attempt>, ss: seq<Step>, ss': seq<Step>, cancelled: bool)
    requires InTurn(p, n, t, ss, false, cancelled) && ss <= ss'
    ensures InTurn(p, n, t, ss', false, cancelled)
    decreases |ss|
  {
    var k := FirstTurn(p, n, t, ss, false, cancelled);
    hide Turn;
    if Won(t, k) {
      TurnsEnd(p, n, t[k..], ss[1..], ss'[1..], cancelled);
    }
    TurnAnd(p, n, t, k, ss', false, cancelled);
  }

  /******* What a run in turn means *******/

  /** Only the given steps are made; and without an error all of them succeeded. */
  lemma {:induction false} TurnsMake(p: Project, n: int, t: seq<Attempt>, ss: seq<Step>, ok: bool, cancelled: bool)
    requires InTurn(p, n, t, ss, ok, cancelled)
    ensures forall i :: 0 <= i < |t| ==> t[i].step in ss
    ensures ok ==> forall j :: 0 <= j < |ss| ==> Succeeded(t, |t|, ss[j])
    decreases |ss|
  {
    hide InTurn, Turn;
    if ss == [] {
      NoStepsNoAttempts(p, n, t, ok, cancelled);
    } else {
      var k := FirstTurn(p, n, t, ss, ok, cancelled);
      if Won(t, k) {
        var u := t[k..];
        TurnsMake(p, n, u, ss[1..], ok, cancelled);
        forall i | k <= i < |t| ensures t[i].step in ss {
          assert t[i] == u[i-k] && u[i-k].step in ss[1..];
        }
        SucceededAgain(t, k, ss, ok);
      }
    }
  }

  lemma SucceededAgain(t: seq<Attempt>, k: nat, ss: seq<Step>, ok: bool)
    requires 0 < k <= |t| && ss != [] && t[k-1].step == ss[0] && t[k-1].ok
    requires ok ==> forall j :: 0 <= j < |ss[1..]| ==> Succeeded(t[k..], |t[k..]|, ss[1..][j])
    ensures ok ==> forall j :: 0 <= j < |ss| ==> Succeeded(t, |t|, ss[j])
  {
    assert t == t[..k] + t[k..];
    forall j | 0 <= j < |ss| && ok ensures Succeeded(t, |t|, ss[j]) {
      if j > 0 {
        assert ss[j] == ss[1..][j-1];
        SucceededLater(t[..k], t[k..], ss[j]);
      }
    }
  }

  /** The attempts that k retried steps may take. */
  function Budget(retries: int, k: nat): nat {
    Max(retries, 0) * k
  }

  lemma BudgetMore(n: int, k: nat)
    ensures Budget(n, k + 1) == Max(n, 0) + Budget(n, k)
  {
  }

  lemma {:induction false} TurnsBudget(p: Project, n: int, t: seq<Attempt>, ss: seq<Step>, ok: bool, cancelled: bool)
    requires InTurn(p, n, t, ss, ok, cancelled)
    ensures |t| <= Budget(n, |ss|)
    decreases |ss|
  {
    hide InTurn, Turn, Budget;
    if ss == [] {
      NoStepsNoAttempts(p, n, t, ok, cancelled);
    } else {
      var k := FirstTurn(p, n, t, ss, ok, cancelled);
      if Won(t, k) {
        TurnsBudget(p, n, t[k..], ss[1..], ok, cancelled);
      }
      BudgetMore(n, |ss| - 1);
    }
  }

  /** A step that failed is only tried again: nothing else follows it. */
  lemma {:induction false} TurnsOrderly(p: Project, n: int, t: seq<Attempt>, ss: seq<Step>, ok: bool, cancelled: bool)
    requires InTurn(p, n, t, ss, ok, cancelled)
    ensures forall i :: 0 <= i < |t| - 1 && !t[i].ok ==> t[i+1].step == t[i].step
    ensures ok && t != [] ==> t[|t|-1].ok
    decreases |ss|
  {
    hide InTurn, Turn;
    if ss == [] {
      NoStepsNoAttempts(p, n, t, ok, cancelled);
    } else {
      var k := FirstTurn(p, n, t, ss, ok, cancelled);
      if Won(t, k) {
        var u := t[k..];
        TurnsOrderly(p, n, u, ss[1..], ok, cancelled);
        forall i | k <= i < |t| - 1 && !t[i].ok ensures t[i+1].step == t[i].step {
          assert t[i] == u[i-k] && t[i+1] == u[i-k+1];
        }
        assert u != [] ==> t[|t|-1] == u[|u|-1];
      }
    }
  }

  /** The run came to step i and got no further: the step could not start, it
      failed as often as it may be tried, or it failed and the context is cancelled. */
  ghost predicate EndedAt(p: Project, n: int, t: seq<Attempt>, ss: seq<Step>, i: nat, cancelled: bool) {
    && i < |ss|
    && (forall j :: 0 <= j < i ==> Succeeded(t, |t|, ss[j]))
    && (!Able(p, ss[i]) || UsedUp(t, ss[i], Max(n, 0)) || (cancelled && UsedUp(t, ss[i], 1)))
  }

  ghost predicate UsedUp(t: seq<Attempt>, s: Step, n: nat) {
    n <= |t| && forall j :: |t| - n <= j < |t| ==> t[j].step == s && !t[j].ok
  }

  /** An error has a cause: the step at which the run ended. */
  lemma {:induction false} ErrorHasCause(p: Project, n: int, t: seq<Attempt>, ss: seq<Step>, cancelled: bool)
    requires InTurn(p, n, t, ss, false, cancelled)
    ensures exists i: nat :: EndedAt(p, n, t, ss, i, cancelled)
    decreases |ss|
  {
    hide Able;
    var k := FirstTurn(p, n, t, ss, false, cancelled);
    hide InTurn;
    if Won(t, k) {
      var u := t[k..];
      ErrorHasCause(p, n, u, ss[1..], cancelled);
      var i: nat :| EndedAt(p, n, u, ss[1..], i, cancelled);
      LaterEnd(p, n, t, k, ss, i, cancelled);
    } else {
      assert t[..k] == t;
      assert EndedAt(p, n, t, ss, 0, cancelled);
    }
  }

  lemma LaterEnd(p: Project, n: int, t: seq<Attempt>, k: nat, ss: seq<Step>, i: nat, cancelled: bool)
    requires 0 < k <= |t| && ss != [] && t[k-1].ok && t[k-1].step == ss[0]
    requires EndedAt(p, n, t[k..], ss[1..], i, cancelled)
    ensures EndedAt(p, n, t, ss, i + 1, cancelled)
  {
    hide Able;
    var u := t[k..];
    assert t == t[..k] + u;
    forall j | 0 <= j < i + 1 ensures Succeeded(t, |t|, ss[j]) {
      if j > 0 {
        assert Succeeded(u, |u|, ss[1..][j-1]);
        SucceededLater(t[..k], u, ss[j]);
      }
    }
    assert forall j :: k <= j < |t| ==> t[j] == u[j-k];
  }

  /******* Steps on many peers *******/

  /** f's step for each of these peers of org. */
  function OrgSteps(org: int, ps: seq<int>, f: PeerRef -> Step): (ss: seq<Step>)
    ensures |ss| == |ps|
  {
    seq(|ps|, i requires 0 <= i < |ps| => f(PeerRef(org, ps[i])))
  }

  /** The same org by org. */
  function SweepSteps(orgs: seq<int>, ps: seq<int>, f: PeerRef -> Step): seq<Step> {
    if orgs == [] then [] else SweepSteps(orgs[..|orgs|-1], ps, f) + OrgSteps(orgs[|orgs|-1], ps, f)
  }

  lemma {:induction false} SweepPrefix(orgs: seq<int>, k: nat, ps: seq<int>, f: PeerRef -> Step)
    requires k <= |orgs|
    ensures SweepSteps(orgs[..k], ps, f) <= SweepSteps(orgs, ps, f)
    decreases |orgs|
  {
    if k == |orgs| {
      assert orgs[..k] == orgs;
    } else {
      SweepPrefix(orgs[..|orgs|-1], k, ps, f);
      assert orgs[..|orgs|-1][..k] == orgs[..k];
    }
  }

  lemma {:induction false} SweepLength(orgs: seq<int>, ps: seq<int>, f: PeerRef -> Step)
    ensures |SweepSteps(orgs, ps, f)| == |orgs| * |ps|
    decreases |orgs|
  {
    if orgs != [] {
      SweepLength(orgs[..|orgs|-1], ps, f);
      assert |orgs| * |ps| == (|orgs| - 1) * |ps| + |ps|;
    }
  }

  lemma {:induction false} SweepMembers(orgs: seq<int>, ps: seq<int>, f: PeerRef -> Step)
    ensures forall s :: s in SweepSteps(orgs, ps, f) ==> exists o, j :: o in orgs && j in ps && s == f(PeerRef(o, j))
    ensures forall o, j :: o in orgs && j in ps ==> f(PeerRef(o, j)) in SweepSteps(orgs, ps, f)
    decreases |orgs|
  {
    if orgs != [] {
      var init, org := orgs[..|orgs|-1], orgs[|orgs|-1];
      var ss := OrgSteps(org, ps, f);
      SweepMembers(init, ps, f);
      forall s | s in ss ensures exists o, j :: o in orgs && j in ps && s == f(PeerRef(o, j)) {
        var i :| 0 <= i < |ps| && ss[i] == s;
        assert ps[i] in ps && s == f(PeerRef(org, ps[i]));
      }
      forall o, j | o in orgs && j in ps ensures f(PeerRef(o, j)) in SweepSteps(orgs, ps, f) {
        if o == org {
          var i :| 0 <= i < |ps| && ps[i] == j;
          assert ss[i] == f(PeerRef(o, j));
        } else {
          assert o in init;
        }
      }
    }
  }

  lemma {:induction false} SweepSame(orgs: seq<int>, ps: seq<int>, f: PeerRef -> Step, g: PeerRef -> Step)
    requires forall p :: f(p) == g(p)
    ensures SweepSteps(orgs, ps, f) == SweepSteps(orgs, ps, g)
    decreases |orgs|
  {
    if orgs != [] {
      SweepSame(orgs[..|orgs|-1], ps, f, g);
      assert OrgSteps(orgs[|orgs|-1], ps, f) == OrgSteps(orgs[|orgs|-1], ps, g);
    }
  }

  /******* The steps of the channel *******/

  function JoinWith(block: Block): PeerRef -> Step {
    p => JoinPeer(p, block)
  }

  function OrdererSteps(orderers: seq<int>, block: Block): (ss: seq<Step>)
    ensures |ss| == |orderers|
  {
    seq(|orderers|, i requires 0 <= i < |orderers| => JoinOrderer(orderers[i], block))
  }

  const CREATE_TX := "channel-artifacts/channel.tx"

  /** A file that is missing stops the step before its first attempt. */
  function AnchorStep(p: Project, org: int): Step {
    UpdateAnchors(org, if UpdateOf(p, AnchorsFile(org)).Some? then UpdateOf(p, AnchorsFile(org)).value else "")
  }

  lemma AnchorsFileIs(p: Project, org: int)
    ensures AnchorsFile(org) == "channel-artifacts/Org" + Itoa(org) + "MSPanchors.tx"
    ensures
      var path := "channel-artifacts/Org" + Itoa(org) + "MSPanchors.tx";
      UpdateOf(p, AnchorsFile(org)) == if path in p.files && path in p.sound then Some(p.files[path]) else None
  {
    hide Itoa;
    assert AnchorsFile(org) == "channel-artifacts/" + ("Org" + Itoa(org) + "MSP") + "anchors.tx";
    assert "channel-artifacts/" + ("Org" + Itoa(org) + "MSP") + "anchors.tx" == "channel-artifacts/Org" + Itoa(org) + "MSPanchors.tx" by {
      assert "MSP" + "anchors.tx" == "MSPanchors.tx" && "channel-artifacts/" + "Org" == "channel-artifacts/Org";
    }
  }

  function AnchorSteps(p: Project, orgs: seq<int>): (ss: seq<Step>)
    ensures |ss| == |orgs|
  {
    seq(|orgs|, i requires 0 <= i < |orgs| => AnchorStep(p, orgs[i]))
  }

  /** The anchor peers come last, and only if this run created the channel. */
  function SystemSteps(p: Project, c: Topology, block: Block, created: bool): seq<Step> {
    [CreateFrom(CREATE_TX), FetchGenesis] + SweepSteps(c.orgs, c.peers, JoinWith(block)) +
      if created then AnchorSteps(p, c.orgs) else []
  }

  /******* The steps of Install *******/

  function PhaseStep(plan: Plan, number: nat, phase: nat): PeerRef -> Step {
    p => StepFor(plan, number, phase, p)
  }

  function PhaseSteps(c: Topology, plan: Plan, number: nat, phase: nat): seq<Step>
    requires ValidTopology(c)
  {
    if phase == 1 || phase == 4 then [StepFor(plan, number, phase, Committer(c))]
    else SweepSteps(c.orgs, if phase == 0 then c.peers else c.peers[..1], PhaseStep(plan, number, phase))
  }

  /** The steps for one name, before this phase. */
  function StepsTo(c: Topology, plan: Plan, number: nat, phase: nat): seq<Step>
    requires ValidTopology(c)
  {
    if phase == 0 then [] else StepsTo(c, plan, number, phase - 1) + PhaseSteps(c, plan, number, phase - 1)
  }

  lemma {:induction false} StepsPrefix(c: Topology, plan: Plan, number: nat, k: nat, m: nat)
    requires ValidTopology(c) && k <= m
    ensures StepsTo(c, plan, number, k) <= StepsTo(c, plan, number, m)
    decreases m
  {
    hide PhaseSteps;
    if k < m {
      StepsPrefix(c, plan, number, k, m - 1);
    }
  }

  lemma PhaseLength(c: Topology, plan: Plan, number: nat, phase: nat)
    requires ValidTopology(c)
    ensures |PhaseSteps(c, plan, number, phase)| ==
            if phase == 1 || phase == 4 then 1 else if phase == 0 then |c.orgs| * |c.peers| else |c.orgs|
  {
    hide SweepSteps, PhaseStep;
    SweepLength(c.orgs, c.peers, PhaseStep(plan, number, phase));
    SweepLength(c.orgs, c.peers[..1], PhaseStep(plan, number, phase));
  }

  lemma InstallLength(c: Topology, plan: Plan, number: nat)
    requires ValidTopology(c)
    ensures |StepsTo(c, plan, number, 6)| == |c.orgs| * |c.peers| + 3 * |c.orgs| + 2
  {
    hide PhaseSteps, StepsTo;
    NoSteps(c, plan, number);
    StepsMore(c, plan, number, 0);
    StepsMore(c, plan, number, 1);
    StepsMore(c, plan, number, 2);
    StepsMore(c, plan, number, 3);
    StepsMore(c, plan, number, 4);
    StepsMore(c, plan, number, 5);
  }

  lemma NoSteps(c: Topology, plan: Plan, number: nat)
    requires ValidTopology(c)
    ensures StepsTo(c, plan, number, 0) == []
  {
  }

  lemma StepsMore(c: Topology, plan: Plan, number: nat, k: nat)
    requires ValidTopology(c)
    ensures StepsTo(c, plan, number, k + 1) == StepsTo(c, plan, number, k) + PhaseSteps(c, plan, number, k)
    ensures |PhaseSteps(c, plan, number, k)| ==
            if k == 1 || k == 4 then 1 else if k == 0 then |c.orgs| * |c.peers| else |c.orgs|
  {
    PhaseLength(c, plan, number, k);
    hide PhaseSteps;
  }

  /** The first phase does not depend on the sequence. */
  lemma FirstPhase(c: Topology, plan: Plan, number: nat, number': nat)
    requires ValidTopology(c)
    ensures PhaseSteps(c, plan, number, 0) == PhaseSteps(c, plan, number', 0)
  {
    SweepSame(c.orgs, c.peers, PhaseStep(plan, number, 0), PhaseStep(plan, number', 0));
  }

  /** A phase on many peers, when its steps were made in turn. */
  lemma SweptPhase(c: Topology, plan: Plan, number: nat, phase: nat, p: Project, n: int, u: seq<Attempt>, ok: bool, cancelled: bool)
    requires ValidTopology(c) && phase in {0, 2, 3, 5}
    requires InTurn(p, n, u, PhaseSteps(c, plan, number, phase), ok, cancelled)
    ensures OfPhase(c, plan, number, u, phase) && (ok ==> PhaseDone(c, plan, number, phase, u, |u|))
  {
    hide InTurn, SweepSteps, Succeeded;
    var ps, f := if phase == 0 then c.peers else c.peers[..1], PhaseStep(plan, number, phase);
    var ss := PhaseSteps(c, plan, number, phase);
    TurnsMake(p, n, u, ss, ok, cancelled);
    SweepMembers(c.orgs, ps, f);
    forall i | 0 <= i < |u| ensures Phase(u[i].step) == phase && StepOf(c, plan, number, u[i].step) {
      assert u[i].step in ss;
      var o, j :| o in c.orgs && j in ps && u[i].step == f(PeerRef(o, j));
      assert j in c.peers;
    }
    if ok {
      forall o, j | o in c.orgs && j in ps ensures Succeeded(u, |u|, StepFor(plan, number, phase, PeerRef(o, j))) {
        assert f(PeerRef(o, j)) in ss;
      }
      assert c.peers[0] in ps;
    }
  }
}
