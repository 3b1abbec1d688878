/** Whole runs of the lifecycle that end with no error and not as one would
    expect, on a network of one org with one peer. */
module LifecycleCases {
  import opened Wrappers
  import opened Fabric
  import opened Lifecycle

  const ONE := Topology([1], [0])
  const PEER := PeerRef(1, 0)

  function Steps(plan: Plan, number: nat): seq<Step> {
    [InstallOn(PEER, plan.pkg), NextSequence(PEER, plan.name), ApproveOn(PEER, DefOf(plan, number), plan.pkg),
     WaitReady(PEER, DefOf(plan, number)), CommitOn(PEER, DefOf(plan, number)), WaitCommitted(PEER, DefOf(plan, number))]
  }

  /** One successful attempt of each step, one after the other. */
  ghost predicate SixAttempts(plan: Plan, number: nat, t: seq<Attempt>) {
    && |t| == 6 && t[1].number == number
    && (forall i :: 0 <= i < 6 ==> Attempted(t[i]) && t[i].ok && t[i].step == Steps(plan, number)[i])
    && (forall i :: 0 <= i < 5 ==> t[i].after == t[i+1].before)
  }

  lemma {:induction false} LinkedIsChained(t: seq<Attempt>)
    requires t != [] && (forall i :: 0 <= i < |t| ==> Attempted(t[i])) && forall i :: 0 <= i < |t| - 1 ==> t[i].after == t[i+1].before
    ensures Chained(t[0].before, t, t[|t|-1].after)
    decreases |t|
  {
    hide Attempted;
    if |t| > 1 {
      LinkedIsChained(t[1..]);
    }
  }

  lemma SucceededAt(t: seq<Attempt>, n: nat, i: nat)
    requires i < n <= |t| && t[i].ok
    ensures Succeeded(t, n, t[i].step)
  {
  }

  /** On one org with one peer a phase is one step. */
  lemma OnePhase(plan: Plan, number: nat, t: seq<Attempt>, n: nat, phase: nat)
    requires phase < 6 && n <= |t| && Succeeded(t, n, Steps(plan, number)[phase])
    ensures PhaseDone(ONE, plan, number, phase, t, n)
  {
    hide Succeeded;
  }

  lemma SixPhases(plan: Plan, number: nat, t: seq<Attempt>, k: nat)
    requires SixAttempts(plan, number, t) && k <= 6
    ensures Ripe(ONE, plan, number, k, t, k)
  {
    hide Attempted, Succeeded, PhaseDone;
    forall i: nat | i < k ensures PhaseDone(ONE, plan, number, i, t, k) {
      SucceededAt(t, k, i);
      OnePhase(plan, number, t, k, i);
    }
  }

  /** They are a finished pass. */
  lemma SixAreDone(plan: Plan, number: nat, t: seq<Attempt>)
    requires SixAttempts(plan, number, t) && t[0].before.orgs == {1}
    ensures Shaped(ONE, Segment(plan, number, t[0].before, t, t[5].after, true))
  {
    hide Attempted, Ripe;
    LinkedIsChained(t);
    forall i | 0 <= i < |t| ensures Gated(ONE, plan, number, t, i) && StepOf(ONE, plan, number, t[i].step) {
      SixPhases(plan, number, t, i);
      assert Phase(t[i].step) == i;
    }
    SixPhases(plan, number, t, 6);
    assert (set o | o in ONE.orgs) == {1};
  }

  /******* One attempt of each step *******/

  /** The peer lacks the package and takes it. */
  function Installs(w: World, pkg: PackageId): Attempt {
    Attempt(w, InstallOn(PEER, pkg), w.(installed := w.installed[PEER := Packages(w.installed, PEER) + [pkg]]), true, true, true, 0, "")
  }

  /** The peer answers from its copy as it is. */
  function Reads(w: World, name: string): Attempt {
    Attempt(w, NextSequence(PEER, name), w, true, true, false, SeqOf(View(w.views, PEER), name) + 1, "")
  }

  /** The peer has caught up and answers. */
  function CaughtUpWorld(w: World): World {
    w.(views := w.views[PEER := w.ledger])
  }

  function Waits(w: World, step: Step): Attempt {
    Attempt(w, step, CaughtUpWorld(w), true, true, false, 0, "")
  }

  /** The peer answers that it is done already. */
  function Skips(w: World, step: Step): Attempt {
    Attempt(w, step, w, true, true, false, 0, "")
  }

  /** The ledger takes the transaction. */
  function Sends(w: World, step: Step, x: Tx): Attempt {
    Attempt(w, step, w.(ledger := w.ledger + [x]), true, true, true, 0, "")
  }

  ghost predicate Holds(w: World) {
    w.orgs == {1} && PEER in w.views && w.views[PEER] <= w.ledger
  }

  lemma InstallsIs(w: World, pkg: PackageId)
    requires pkg !in Packages(w.installed, PEER)
    ensures Attempted(Installs(w, pkg))
  {
  }

  lemma ReadsIs(w: World, name: string)
    requires Holds(w)
    ensures Attempted(Reads(w, name))
  {
    assert w.views == w.views[PEER := View(w.views, PEER)];
  }

  lemma ApproveSends(w: World, def: Definition, pkg: PackageId)
    requires Holds(w) && !Ready(w.views[PEER], 1, def)
    ensures Attempted(Sends(w, ApproveOn(PEER, def, pkg), Approval(1, def, pkg)))
  {
    assert w.views == w.views[PEER := View(w.views, PEER)];
  }

  lemma ApproveSkips(w: World, def: Definition, pkg: PackageId)
    requires Holds(w) && Ready(w.views[PEER], 1, def)
    ensures Attempted(Skips(w, ApproveOn(PEER, def, pkg)))
  {
    assert w.views == w.views[PEER := View(w.views, PEER)];
  }

  lemma ReadyAnswers(w: World, def: Definition)
    requires Holds(w) && Ready(w.ledger, 1, def)
    ensures Attempted(Waits(w, WaitReady(PEER, def)))
  {
  }

  lemma CommitSends(w: World, def: Definition)
    requires Holds(w) && !Shows(w.views[PEER], def) && SeqOf(w.ledger, def.name) + 1 == def.number
    ensures Attempted(Sends(w, CommitOn(PEER, def), Commitment(def)))
  {
    assert w.views == w.views[PEER := View(w.views, PEER)];
  }

  lemma CommitSkips(w: World, def: Definition)
    requires Holds(w) && Shows(w.views[PEER], def)
    ensures Attempted(Skips(w, CommitOn(PEER, def)))
  {
    assert w.views == w.views[PEER := View(w.views, PEER)];
  }

  lemma CommittedAnswers(w: World, def: Definition)
    requires Holds(w) && Shows(w.ledger, def) && Committed(w.ledger, def.name).value.version == def.version
    ensures Attempted(Waits(w, WaitCommitted(PEER, def)))
  {
  }

  /******* The runs *******/

  lemma ValidStart(l: seq<Tx>, view: seq<Tx>)
    requires ValidLedger(l) && view <= l
    ensures ValidWorld(World({1}, map[], l, map[PEER := view], map[], map[], None, {}))
  {
  }

  lemma OneIsValid(x: Tx)
    requires x.Commitment? ==> x.def.number == 1
    ensures ValidLedger([x])
    ensures Committed([x], x.def.name) == if x.Commitment? then Some(x.def) else None
    ensures x.Approval? ==> Ready([x], x.org, x.def) && Approved([x], x.org, x.def.name, x.def.number) == Some((x.def, x.pkg))
  {
    LedgerAppend([], x, x.def.name);
    ApprovedAppend([], x, if x.Approval? then x.org else 0, x.def.name, x.def.number);
    assert [] + [x] == [x];
  }

  const LATE := Plan("cc", "1", Terms("", "", true), PackageId("cc-1", "digest"))
  const EARLIER := Definition(LATE.name, LATE.version, 1, Terms("", "", false))
  const LATE_APPROVAL := Approval(1, DefOf(LATE, 1), LATE.pkg)
  const LATE_LEDGER := [Commitment(EARLIER)]

  /** The ledger has a definition that the committer has not seen. */
  function LateStart(): World {
    World({1}, map[], LATE_LEDGER, map[PEER := []], map[], map[], None, {})
  }

  /** The committer catches up only when it is asked who is ready. */
  function LateRun(): seq<Attempt> {
    var def := DefOf(LATE, 1);
    var a0 := Installs(LateStart(), LATE.pkg);
    var a1 := Reads(a0.after, LATE.name);
    var a2 := Sends(a1.after, ApproveOn(PEER, def, LATE.pkg), LATE_APPROVAL);
    var a3 := Waits(a2.after, WaitReady(PEER, def));
    var a4 := Skips(a3.after, CommitOn(PEER, def));
    [a0, a1, a2, a3, a4, Waits(a4.after, WaitCommitted(PEER, def))]
  }

  lemma LateLedger()
    ensures ValidLedger(LATE_LEDGER) && Committed(LATE_LEDGER, LATE.name) == Some(EARLIER)
    ensures Committed(LATE_LEDGER + [LATE_APPROVAL], LATE.name) == Some(EARLIER) && SeqOf([], LATE.name) == 0
    ensures !Ready([], 1, DefOf(LATE, 1)) && Ready(LATE_LEDGER + [LATE_APPROVAL], 1, DefOf(LATE, 1))
  {
    hide Ready, ValidLedger, Committed, Approved;
    OneIsValid(Commitment(EARLIER));
    ApprovedAppend(LATE_LEDGER, LATE_APPROVAL, 1, LATE.name, 1);
    LedgerAppend(LATE_LEDGER, LATE_APPROVAL, LATE.name);
    NothingIsReady(1, DefOf(LATE, 1));
    NothingCommitted(LATE.name);
    IsReady(LATE_LEDGER + [LATE_APPROVAL], 1, DefOf(LATE, 1), LATE.pkg);
  }

  lemma LateAttempts()
    ensures SixAttempts(LATE, 1, LateRun())
  {
    hide Attempted, Ready, ValidLedger, Committed, Approved;
    LateLedger();
    var t, def := LateRun(), DefOf(LATE, 1);
    InstallsIs(t[0].before, LATE.pkg);
    ReadsIs(t[1].before, LATE.name);
    ApproveSends(t[2].before, def, LATE.pkg);
    ReadyAnswers(t[3].before, def);
    CommitSkips(t[4].before, def);
    CommittedAnswers(t[5].before, def);
  }

  /** A committer that lags when the sequence is read and has caught up when
      commit asks: the run ends with no error, and the ledger has another
      definition, which was committed before. */
  lemma StaleReadFoolsInstall() returns (s: Segment)
    ensures ValidWorld(s.start) && Shaped(ONE, s) && s.done && !RightNumber(s)
    ensures !Defined(ONE, DefOf(s.plan, s.number), s.end)
    ensures Committed(s.end.ledger, s.plan.name).Some? && Committed(s.end.ledger, s.plan.name) == Committed(s.start.ledger, s.plan.name)
  {
    hide Attempted, ValidLedger, Shaped, SixAttempts, Committed, Approved;
    LateLedger();
    LateAttempts();
    ValidStart(LATE_LEDGER, []);
    s := Segment(LATE, 1, LateStart(), LateRun(), LateRun()[5].after, true);
    SixAreDone(LATE, 1, s.t);
  }

  lemma NothingIsReady(o: int, def: Definition)
    ensures !Ready([], o, def)
  {
  }

  lemma NothingCommitted(name: string)
    ensures SeqOf([], name) == 0
  {
  }

  lemma IsReady(l: seq<Tx>, o: int, def: Definition, pkg: PackageId)
    requires Approved(l, o, def.name, def.number) == Some((def, pkg))
    ensures Ready(l, o, def)
  {
  }

  const REBUILT := Plan("cc", "1", Terms("", "", false), PackageId("cc-1", "new"))
  const BUILT := PackageId("cc-1", "old")
  const REBUILT_LEDGER := [Approval(1, DefOf(REBUILT, 1), BUILT)]

  /** The org has approved the definition with the package that was built first. */
  function RebuiltStart(): World {
    World({1}, map[], REBUILT_LEDGER, map[PEER := REBUILT_LEDGER], map[], map[], None, {})
  }

  function RebuiltRun(): seq<Attempt> {
    var def := DefOf(REBUILT, 1);
    var a0 := Installs(RebuiltStart(), REBUILT.pkg);
    var a1 := Reads(a0.after, REBUILT.name);
    var a2 := Skips(a1.after, ApproveOn(PEER, def, REBUILT.pkg));
    var a3 := Waits(a2.after, WaitReady(PEER, def));
    var a4 := Sends(a3.after, CommitOn(PEER, def), Commitment(def));
    [a0, a1, a2, a3, a4, Waits(a4.after, WaitCommitted(PEER, def))]
  }

  lemma RebuiltLedger()
    ensures
      var l, def := REBUILT_LEDGER, DefOf(REBUILT, 1);
      var l' := l + [Commitment(def)];
      && ValidLedger(l) && Ready(l, 1, def) && Committed(l, REBUILT.name).None? && Committed(l', REBUILT.name) == Some(def)
      && Approved(l, 1, REBUILT.name, 1) == Some((def, BUILT)) && Approved(l', 1, REBUILT.name, 1) == Some((def, BUILT))
  {
    hide Ready, ValidLedger, Committed, Approved;
    var def := DefOf(REBUILT, 1);
    OneIsValid(Approval(1, def, BUILT));
    LedgerAppend(REBUILT_LEDGER, Commitment(def), REBUILT.name);
    ApprovedAppend(REBUILT_LEDGER, Commitment(def), 1, REBUILT.name, 1);
  }

  lemma RebuiltAttempts()
    ensures SixAttempts(REBUILT, 1, RebuiltRun())
  {
    hide Attempted, Ready, ValidLedger, Committed, Approved;
    RebuiltLedger();
    var t, def := RebuiltRun(), DefOf(REBUILT, 1);
    InstallsIs(t[0].before, REBUILT.pkg);
    ReadsIs(t[1].before, REBUILT.name);
    ApproveSkips(t[2].before, def, REBUILT.pkg);
    ReadyAnswers(t[3].before, def);
    CommitSends(t[4].before, def);
    CommittedAnswers(t[5].before, def);
  }

  /** A package that was built again under the same version: the approval is
      skipped, the run ends with no error, and the org keeps the old package. */
  lemma RebuiltPackageIsNotApproved() returns (s: Segment)
    ensures ValidWorld(s.start) && Shaped(ONE, s) && s.done && RightNumber(s)
    ensures AnsweredUpToDate(s, 1) && Ready(s.start.ledger, 1, DefOf(s.plan, s.number))
    ensures Approved(s.end.ledger, 1, s.plan.name, s.number).Some?
    ensures Approved(s.end.ledger, 1, s.plan.name, s.number).value.1 != s.plan.pkg
  {
    hide Attempted, Ready, ValidLedger, Shaped, SixAttempts, Committed, Approved;
    RebuiltLedger();
    RebuiltAttempts();
    ValidStart(REBUILT_LEDGER, REBUILT_LEDGER);
    s := Segment(REBUILT, 1, RebuiltStart(), RebuiltRun(), RebuiltRun()[5].after, true);
    SixAreDone(REBUILT, 1, s.t);
  }
}
