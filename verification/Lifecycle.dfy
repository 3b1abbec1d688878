/**
 Runs of the chaincode lifecycle.  A segment is what one run does for one
 chaincode name; a history is any number of segments, of failed and of
 successful runs, by one installer.
 */
module Lifecycle {
  import opened Wrappers
  import opened Fabric

  /** The org and peer numbers of the network, in the order of variables.sh. */
  datatype Topology = Topology(orgs: seq<int>, peers: seq<int>)

  /** What a run wants for one chaincode name. */
  datatype Plan = Plan(name: string, version: string, terms: Terms, pkg: PackageId)

  /** number: the sequence the run read, meaningless before it has read one.
      done: the run came to the end of this name with no error. */
  datatype Segment = Segment(plan: Plan, number: nat, start: World, t: seq<Attempt>, end: World, done: bool)

  function DefOf(plan: Plan, number: nat): Definition {
    Definition(plan.name, plan.version, number, plan.terms)
  }

  predicate ValidTopology(c: Topology) {
    c.orgs != [] && c.peers != []
  }

  function FirstOf(c: Topology, org: int): PeerRef
    requires ValidTopology(c)
  {
    PeerRef(org, c.peers[0])
  }

  /** The peer that reads the sequence and commits. */
  function Committer(c: Topology): PeerRef
    requires ValidTopology(c)
  {
    FirstOf(c, c.orgs[0])
  }

  /******* The shape of a segment *******/

  function Phase(s: Step): nat {
    match s
    case InstallOn(_, _) => 0
    case NextSequence(_, _) => 1
    case ApproveOn(_, _, _) => 2
    case WaitReady(_, _) => 3
    case CommitOn(_, _) => 4
    case WaitCommitted(_, _) => 5
    case _ => 6
  }

  predicate StepOf(c: Topology, plan: Plan, number: nat, s: Step)
    requires ValidTopology(c)
  {
    match s
    case InstallOn(p, pkg) => p.org in c.orgs && p.peer in c.peers && pkg == plan.pkg
    case NextSequence(p, name) => p == Committer(c) && name == plan.name
    case ApproveOn(p, def, pkg) => p.org in c.orgs && p == FirstOf(c, p.org) && def == DefOf(plan, number) && pkg == plan.pkg
    case WaitReady(p, def) => p.org in c.orgs && p == FirstOf(c, p.org) && def == DefOf(plan, number)
    case CommitOn(p, def) => p == Committer(c) && def == DefOf(plan, number)
    case WaitCommitted(p, def) => p.org in c.orgs && p == FirstOf(c, p.org) && def == DefOf(plan, number)
    case _ => false
  }

  /** s succeeded among the first n attempts of t. */
  ghost predicate Succeeded(t: seq<Attempt>, n: nat, s: Step)
    requires n <= |t|
  {
    exists i :: 0 <= i < n && t[i].step == s && t[i].ok
  }

  /** Every step of this phase succeeded among the first n attempts. */
  ghost predicate PhaseDone(c: Topology, plan: Plan, number: nat, phase: nat, t: seq<Attempt>, n: nat)
    requires ValidTopology(c) && n <= |t|
  {
    var def := DefOf(plan, number);
    match phase
    case 0 => forall o, j :: o in c.orgs && j in c.peers ==> Succeeded(t, n, InstallOn(PeerRef(o, j), plan.pkg))
    case 1 => Succeeded(t, n, NextSequence(Committer(c), plan.name))
    case 2 => forall o :: o in c.orgs ==> Succeeded(t, n, ApproveOn(FirstOf(c, o), def, plan.pkg))
    case 3 => forall o :: o in c.orgs ==> Succeeded(t, n, WaitReady(FirstOf(c, o), def))
    case 4 => Succeeded(t, n, CommitOn(Committer(c), def))
    case _ => forall o :: o in c.orgs ==> Succeeded(t, n, WaitCommitted(FirstOf(c, o), def))
  }

  /** Every step of the phases before this one succeeded among the first n attempts. */
  ghost predicate Ripe(c: Topology, plan: Plan, number: nat, phase: nat, t: seq<Attempt>, n: nat)
    requires ValidTopology(c) && n <= |t|
  {
    && (phase > 0 ==> PhaseDone(c, plan, number, 0, t, n))
    && (phase > 1 ==> PhaseDone(c, plan, number, 1, t, n))
    && (phase > 2 ==> PhaseDone(c, plan, number, 2, t, n))
    && (phase > 3 ==> PhaseDone(c, plan, number, 3, t, n))
    && (phase > 4 ==> PhaseDone(c, plan, number, 4, t, n))
    && (phase > 5 ==> PhaseDone(c, plan, number, 5, t, n))
  }

  /** Attempt i starts no phase before the phases before it are done. */
  ghost predicate Gated(c: Topology, plan: Plan, number: nat, t: seq<Attempt>, i: nat)
    requires ValidTopology(c) && i < |t|
  {
    Ripe(c, plan, number, Phase(t[i].step), t, i)
  }

  /** t makes only the plan's steps, phase by phase. */
  ghost predicate Staged(c: Topology, plan: Plan, number: nat, t: seq<Attempt>)
    requires ValidTopology(c)
  {
    && (forall i :: 0 <= i < |t| ==> StepOf(c, plan, number, t[i].step))
    && (forall i :: 0 <= i < |t| && t[i].step.NextSequence? && t[i].ok ==> t[i].number == number)
    && (forall i, j :: 0 <= i < j < |t| ==> Phase(t[i].step) <= Phase(t[j].step))
    && (forall i {:trigger Gated(c, plan, number, t, i)} :: 0 <= i < |t| ==> Gated(c, plan, number, t, i))
  }

  ghost predicate Shaped(c: Topology, s: Segment)
    requires ValidTopology(c)
  {
    && Chained(s.start, s.t, s.end)
    && Staged(c, s.plan, s.number, s.t)
    && s.start.orgs == (set o | o in c.orgs)
    && (s.done ==> Ripe(c, s.plan, s.number, 6, s.t, |s.t|))
  }

  /** The segment's number is the next one of the ledger that it started on: what
      it read was up to date. */
  ghost predicate NextNumber(s: Segment) {
    s.number == SeqOf(s.start.ledger, s.plan.name) + 1
  }

  /** Or the very definition is committed there already. */
  ghost predicate RightNumber(s: Segment) {
    NextNumber(s) || Committed(s.start.ledger, s.plan.name) == Some(DefOf(s.plan, s.number))
  }

  /******* Building the shape *******/

  lemma SucceededMore(t: seq<Attempt>, n: nat, v: seq<Attempt>, m: nat, s: Step)
    requires n <= |t| && n <= m <= |v| && t <= v && Succeeded(t, n, s)
    ensures Succeeded(v, m, s)
  {
    var i :| 0 <= i < n && t[i].step == s && t[i].ok;
    assert v[i] == t[i];
  }

  /** ...and what succeeded in the later part of a run succeeded in the run. */
  lemma SucceededLater(t: seq<Attempt>, u: seq<Attempt>, s: Step)
    requires Succeeded(u, |u|, s)
    ensures Succeeded(t + u, |t + u|, s)
  {
    var i :| 0 <= i < |u| && u[i].step == s && u[i].ok;
    assert (t + u)[|t| + i] == u[i];
  }

  lemma PhaseDoneMore(c: Topology, plan: Plan, number: nat, phase: nat, t: seq<Attempt>, n: nat, v: seq<Attempt>, m: nat)
    requires ValidTopology(c) && n <= |t| && n <= m <= |v| && t <= v && PhaseDone(c, plan, number, phase, t, n)
    ensures PhaseDone(c, plan, number, phase, v, m)
  {
    forall s | Succeeded(t, n, s) ensures Succeeded(v, m, s) {
      SucceededMore(t, n, v, m, s);
    }
  }

  lemma RipeMore(c: Topology, plan: Plan, number: nat, phase: nat, t: seq<Attempt>, n: nat, v: seq<Attempt>, m: nat)
    requires ValidTopology(c) && n <= |t| && n <= m <= |v| && t <= v && Ripe(c, plan, number, phase, t, n)
    ensures Ripe(c, plan, number, phase, v, m)
  {
    forall k: nat | PhaseDone(c, plan, number, k, t, n) ensures PhaseDone(c, plan, number, k, v, m) {
      PhaseDoneMore(c, plan, number, k, t, n, v, m);
    }
  }

  function StepFor(plan: Plan, number: nat, phase: nat, p: PeerRef): Step {
    match phase
    case 0 => InstallOn(p, plan.pkg)
    case 1 => NextSequence(p, plan.name)
    case 2 => ApproveOn(p, DefOf(plan, number), plan.pkg)
    case 3 => WaitReady(p, DefOf(plan, number))
    case 4 => CommitOn(p, DefOf(plan, number))
    case _ => WaitCommitted(p, DefOf(plan, number))
  }

  /** A run that has come to this phase: what is before it is done. */
  ghost predicate Underway(c: Topology, plan: Plan, number: nat, start: World, t: seq<Attempt>, w: World, phase: nat)
    requires ValidTopology(c)
  {
    && Chained(start, t, w) && Staged(c, plan, number, t) && Ripe(c, plan, number, phase, t, |t|)
    && forall i :: 0 <= i < |t| ==> Phase(t[i].step) <= phase
  }

  /** u is attempts of one phase. */
  ghost predicate OfPhase(c: Topology, plan: Plan, number: nat, u: seq<Attempt>, phase: nat)
    requires ValidTopology(c)
  {
    && (forall i :: 0 <= i < |u| ==> Phase(u[i].step) == phase && StepOf(c, plan, number, u[i].step))
    && (forall i :: 0 <= i < |u| && u[i].step.NextSequence? && u[i].ok ==> u[i].number == number)
  }

  /** The attempts of a phase may follow what is before it, and when the phase
      is done the run has come to the next. */
  lemma Advance(c: Topology, plan: Plan, number: nat, start: World, t: seq<Attempt>, m: World, u: seq<Attempt>, w: World, phase: nat)
    requires ValidTopology(c) && Underway(c, plan, number, start, t, m, phase)
    requires Chained(m, u, w) && OfPhase(c, plan, number, u, phase)
    ensures Chained(start, t + u, w) && Staged(c, plan, number, t + u)
    ensures PhaseDone(c, plan, number, phase, u, |u|) && phase < 6 ==> Underway(c, plan, number, start, t + u, w, phase + 1)
  {
    hide Attempted, Chained;
    ChainedConcat(start, t, m, u, w);
    StageAppend(c, plan, number, t, u, phase);
    if PhaseDone(c, plan, number, phase, u, |u|) && phase < 6 {
      PhaseDoneLater(c, plan, number, phase, t, u);
    }
  }

  lemma Underway0(c: Topology, plan: Plan, number: nat, start: World)
    requires ValidTopology(c)
    ensures Underway(c, plan, number, start, [], start, 0)
  {
  }

  lemma PhaseDoneLater(c: Topology, plan: Plan, number: nat, phase: nat, t: seq<Attempt>, u: seq<Attempt>)
    requires ValidTopology(c) && PhaseDone(c, plan, number, phase, u, |u|)
    ensures PhaseDone(c, plan, number, phase, t + u, |t + u|)
  {
    forall s | Succeeded(u, |u|, s) ensures Succeeded(t + u, |t + u|, s) {
      SucceededLater(t, u, s);
    }
  }

  lemma StageAppend(c: Topology, plan: Plan, number: nat, t: seq<Attempt>, u: seq<Attempt>, phase: nat)
    requires ValidTopology(c) && Staged(c, plan, number, t) && Ripe(c, plan, number, phase, t, |t|)
    requires forall i :: 0 <= i < |t| ==> Phase(t[i].step) <= phase
    requires OfPhase(c, plan, number, u, phase)
    ensures Staged(c, plan, number, t + u) && Ripe(c, plan, number, phase, t + u, |t + u|)
    ensures forall i :: 0 <= i < |t + u| ==> Phase((t + u)[i].step) <= phase
  {
    var v := t + u;
    forall i | 0 <= i < |v|
      ensures Gated(c, plan, number, v, i)
    {
      if i < |t| {
        assert Gated(c, plan, number, t, i);
        RipeMore(c, plan, number, Phase(t[i].step), t, i, v, i);
      } else {
        RipeMore(c, plan, number, phase, t, |t|, v, i);
      }
    }
    RipeMore(c, plan, number, phase, t, |t|, v, |v|);
  }

  /******* One segment *******/

  /** The part of a run before, at and after one of its attempts. */
  lemma {:induction false} ChainAt(w: World, t: seq<Attempt>, w': World, i: nat)
    requires ValidWorld(w) && Chained(w, t, w') && i < |t|
    ensures Chained(w, t[..i], t[i].before) && Attempted(t[i]) && Chained(t[i].after, t[i+1..], w')
    ensures ValidWorld(t[i].before) && ValidWorld(t[i].after) && ValidWorld(w')
    ensures Grown(w, t[i].before) && Grown(t[i].before, t[i].after) && Grown(t[i].after, w')
    decreases |t|
  {
    hide Attempted, Grown, ValidWorld;
    AttemptKeeps(t[0]);
    if i == 0 {
      assert t[..0] == [];
      GrownReflexive(w);
      ChainKeeps(t[0].after, t[1..], w');
    } else {
      ChainAt(t[0].after, t[1..], w', i - 1);
      GrownTransitive(w, t[0].after, t[i].before);
      assert t[..i][0] == t[0] && t[..i][1..] == t[1..][..i-1];
      assert t[i+1..] == t[1..][i..];
    }
  }

  /** Only these commit attempts touch a name in t. */
  ghost predicate CommitsOnly(t: seq<Attempt>, def: Definition) {
    forall i :: 0 <= i < |t| && t[i].step.CommitOn? ==> t[i].step.def == def
  }

  /** A chain whose commits all carry def either leaves def's name as it was or
      has committed exactly def, as the next sequence; it touches no other name. */
  lemma {:induction false} CommitEffect(w: World, t: seq<Attempt>, w': World, def: Definition, name: string)
    requires ValidWorld(w) && Chained(w, t, w') && CommitsOnly(t, def)
    ensures Committed(w'.ledger, name) == Committed(w.ledger, name) ||
            (name == def.name && SeqOf(w.ledger, name) + 1 == def.number && Committed(w'.ledger, name) == Some(def))
    decreases |t|
  {
    hide Attempted;
    if t != [] {
      AttemptKeeps(t[0]);
      AttemptEffect(t[0], def, name);
      CommitEffect(t[0].after, t[1..], w', def, name);
    }
  }

  lemma AttemptEffect(a: Attempt, def: Definition, name: string)
    requires ValidWorld(a.before) && Attempted(a) && (a.step.CommitOn? ==> a.step.def == def)
    ensures Committed(a.after.ledger, name) == Committed(a.before.ledger, name) ||
            (name == def.name && SeqOf(a.before.ledger, name) + 1 == def.number && Committed(a.after.ledger, name) == Some(def))
  {
    if a.after.ledger != a.before.ledger {
      var x := a.after.ledger[|a.before.ledger|];
      assert a.after.ledger == a.before.ledger + [x];
      LedgerAppend(a.before.ledger, x, name);
    }
  }

  /** What a segment does to committed definitions, for every outcome: one step
      up for its own name or nothing, and nothing to any other name. */
  lemma SegmentRaises(c: Topology, s: Segment, name: string)
    requires ValidTopology(c) && ValidWorld(s.start) && Shaped(c, s)
    ensures Committed(s.end.ledger, name) == Committed(s.start.ledger, name) ||
            (name == s.plan.name && SeqOf(s.start.ledger, name) + 1 == s.number &&
             Committed(s.end.ledger, name) == Some(DefOf(s.plan, s.number)))
  {
    CommitEffect(s.start, s.t, s.end, DefOf(s.plan, s.number), name);
  }

  lemma SegmentCommitsOnly(c: Topology, s: Segment, lo: nat, hi: nat)
    requires ValidTopology(c) && Shaped(c, s) && lo <= hi <= |s.t|
    ensures CommitsOnly(s.t[lo..hi], DefOf(s.plan, s.number))
  {
    forall k | 0 <= k < hi - lo && s.t[lo..hi][k].step.CommitOn?
      ensures s.t[lo..hi][k].step.def == DefOf(s.plan, s.number)
    {
      assert s.t[lo..hi][k] == s.t[lo+k] && StepOf(c, s.plan, s.number, s.t[lo+k].step);
    }
  }

  /** commit compares only sequences.  Whenever it answers, also with "already
      committed", the ledger's definition is the very one to commit exactly if
      the segment's number is the right one. */
  lemma ShortcutIsSound(c: Topology, s: Segment, i: nat)
    requires ValidTopology(c) && ValidWorld(s.start) && Shaped(c, s)
    requires i < |s.t| && s.t[i].step.CommitOn? && s.t[i].ok
    ensures Committed(s.t[i].after.ledger, s.plan.name) == Some(DefOf(s.plan, s.number)) <==> RightNumber(s)
    ensures s.t[i].sent ==> NextNumber(s)
  {
    hide Attempted, Chained, Committed;
    var def, a := DefOf(s.plan, s.number), s.t[i];
    assert StepOf(c, s.plan, s.number, a.step);
    ChainAt(s.start, s.t, s.end, i);
    SegmentCommitsOnly(c, s, 0, i);
    assert s.t[0..i] == s.t[..i];
    CommitEffect(s.start, s.t[..i], a.before, def, def.name);
    AttemptEffect(a, def, def.name);
    if a.sent {
      CommitSent(a);
    }
    if RightNumber(s) {
      CommitAnswer(a);
    }
  }

  /** A commit that was sent and succeeded was the next one. */
  lemma CommitSent(a: Attempt)
    requires Attempted(a) && a.step.CommitOn? && a.ok && a.sent
    ensures SeqOf(a.before.ledger, a.step.def.name) + 1 == a.step.def.number
  {
  }

  lemma Find(t: seq<Attempt>, n: nat, s: Step) returns (i: nat)
    requires n <= |t| && Succeeded(t, n, s)
    ensures i < n && t[i].step == s && t[i].ok
  {
    i :| 0 <= i < n && t[i].step == s && t[i].ok;
  }

  /** While the ledger is at def or just before it, commit's answer is right. */
  lemma CommitAnswer(a: Attempt)
    requires ValidWorld(a.before) && Attempted(a) && a.step.CommitOn? && a.ok
    requires SeqOf(a.before.ledger, a.step.def.name) + 1 == a.step.def.number ||
             Committed(a.before.ledger, a.step.def.name) == Some(a.step.def)
    ensures Committed(a.after.ledger, a.step.def.name) == Some(a.step.def)
    ensures a.sent ==> SeqOf(a.before.ledger, a.step.def.name) + 1 == a.step.def.number
  {
    var def := a.step.def;
    if a.sent {
      LedgerAppend(a.before.ledger, Commitment(def), def.name);
    } else {
      LaggingView(View(a.after.views, a.step.peer), a.before.ledger, def.name);
    }
  }

  /** The definition is committed, and each org's first peer shows it. */
  ghost predicate Defined(c: Topology, def: Definition, w: World)
    requires ValidTopology(c)
  {
    && Committed(w.ledger, def.name) == Some(def)
    && (forall o :: o in c.orgs ==> Committed(View(w.views, FirstOf(c, o)), def.name) == Some(def))
  }

  /** Every peer holds the package, and every org has approved the definition. */
  ghost predicate Held(c: Topology, def: Definition, pkg: PackageId, w: World) {
    && (forall o, j :: o in c.orgs && j in c.peers ==> pkg in Packages(w.installed, PeerRef(o, j)))
    && (forall o :: o in c.orgs ==> HasApproved(w.ledger, o, def))
  }

  ghost predicate HasApproved(l: seq<Tx>, o: int, def: Definition) {
    exists pkg :: Approval(o, def, pkg) in l
  }

  lemma DoneInstalled(c: Topology, s: Segment, o: int, j: int)
    requires ValidTopology(c) && ValidWorld(s.start) && Shaped(c, s) && s.done && o in c.orgs && j in c.peers
    ensures s.plan.pkg in Packages(s.end.installed, PeerRef(o, j))
  {
    var i := Find(s.t, |s.t|, InstallOn(PeerRef(o, j), s.plan.pkg));
    ChainAt(s.start, s.t, s.end, i);
  }

  lemma DoneApproved(c: Topology, s: Segment, o: int) returns (pkg: PackageId)
    requires ValidTopology(c) && ValidWorld(s.start) && Shaped(c, s) && s.done && o in c.orgs
    ensures Approval(o, DefOf(s.plan, s.number), pkg) in s.end.ledger
  {
    hide Attempted, Chained;
    var i := Find(s.t, |s.t|, ApproveOn(FirstOf(c, o), DefOf(s.plan, s.number), s.plan.pkg));
    ChainAt(s.start, s.t, s.end, i);
    pkg := ApproveAnswer(s.t[i]);
  }

  lemma ApproveAnswer(a: Attempt) returns (pkg: PackageId)
    requires Attempted(a) && a.step.ApproveOn? && a.ok
    ensures Approval(a.step.peer.org, a.step.def, pkg) in a.after.ledger
  {
    var o, def := a.step.peer.org, a.step.def;
    if a.sent {
      pkg := a.step.pkg;
      assert a.after.ledger[|a.before.ledger|] == Approval(o, def, pkg);
    } else {
      var v := View(a.after.views, a.step.peer);
      pkg := Approved(v, o, def.name, def.number).value.1;
      ApprovalStays(v, a.after.ledger, o, def);
    }
  }

  lemma DoneCommitted(c: Topology, s: Segment)
    requires ValidTopology(c) && ValidWorld(s.start) && Shaped(c, s) && s.done
    ensures Committed(s.end.ledger, s.plan.name) == Some(DefOf(s.plan, s.number)) <==> RightNumber(s)
  {
    hide Attempted, Chained, Committed;
    var def := DefOf(s.plan, s.number);
    SegmentRaises(c, s, s.plan.name);
    var i := Find(s.t, |s.t|, CommitOn(Committer(c), def));
    ChainAt(s.start, s.t, s.end, i);
    ShortcutIsSound(c, s, i);
    SegmentCommitsOnly(c, s, i + 1, |s.t|);
    assert s.t[i+1..|s.t|] == s.t[i+1..];
    CommitEffect(s.t[i].after, s.t[i+1..], s.end, def, def.name);
  }

  lemma DoneReported(c: Topology, s: Segment, o: int)
    requires ValidTopology(c) && ValidWorld(s.start) && Shaped(c, s) && s.done && o in c.orgs
    requires Committed(s.end.ledger, s.plan.name) == Some(DefOf(s.plan, s.number))
    ensures Committed(View(s.end.views, FirstOf(c, o)), s.plan.name) == Some(DefOf(s.plan, s.number))
  {
    hide Attempted, Chained, Committed, View;
    var def, p := DefOf(s.plan, s.number), FirstOf(c, o);
    var i := Find(s.t, |s.t|, WaitCommitted(p, def));
    ChainAt(s.start, s.t, s.end, i);
    ReportAnswer(s.t[i]);
    Squeezed(View(s.t[i].after.views, p), View(s.end.views, p), s.end.ledger, def);
  }

  lemma ReportAnswer(a: Attempt)
    requires Attempted(a) && a.step.WaitCommitted? && a.ok
    ensures SeqOf(View(a.after.views, a.step.peer), a.step.def.name) == a.step.def.number
  {
  }

  lemma Squeezed(v: seq<Tx>, v': seq<Tx>, l: seq<Tx>, def: Definition)
    requires v <= v' <= l && ValidLedger(l)
    requires SeqOf(v, def.name) == def.number && Committed(l, def.name) == Some(def)
    ensures Committed(v', def.name) == Some(def)
  {
    LedgerPrefix(v', l);
    LaggingView(v, v', def.name);
    LaggingView(v', l, def.name);
  }

  lemma {:induction false} LedgerPrefix(v: seq<Tx>, l: seq<Tx>)
    requires v <= l && ValidLedger(l)
    ensures ValidLedger(v)
  {
    if v != l {
      assert v <= l[..|l|-1];
      LedgerPrefix(v, l[..|l|-1]);
    }
  }

  /******* The approval in force *******/

  /** a is an approval of org o that took effect. */
  ghost predicate Approves(a: Attempt, o: int) {
    a.step.ApproveOn? && a.step.peer.org == o && a.after.ledger != a.before.ledger
  }

  ghost predicate SomeApproves(t: seq<Attempt>, o: int) {
    exists i :: 0 <= i < |t| && Approves(t[i], o)
  }

  lemma ApprovedAppend(l: seq<Tx>, x: Tx, o: int, name: string, n: nat)
    ensures Approved(l + [x], o, name, n) ==
            if x.Approval? && x.org == o && x.def.name == name && x.def.number == n then Some((x.def, x.pkg))
            else Approved(l, o, name, n)
  {
    assert (l + [x])[..|l|] == l;
  }

  /** What one attempt does to the approvals in force. */
  lemma AttemptApproves(a: Attempt, o: int, name: string, n: nat)
    requires Attempted(a)
    ensures Approved(a.after.ledger, o, name, n) ==
            if Approves(a, o) && a.step.def.name == name && a.step.def.number == n then Some((a.step.def, a.step.pkg))
            else Approved(a.before.ledger, o, name, n)
  {
    if a.after.ledger != a.before.ledger {
      var x := a.after.ledger[|a.before.ledger|];
      assert a.after.ledger == a.before.ledger + [x];
      ApprovedAppend(a.before.ledger, x, o, name, n);
    }
  }

  /** Every approval in t is of def with pkg. */
  ghost predicate ApprovesOnly(t: seq<Attempt>, def: Definition, pkg: PackageId) {
    forall i :: 0 <= i < |t| && t[i].step.ApproveOn? ==> t[i].step.def == def && t[i].step.pkg == pkg
  }

  /** What a chain of such attempts does to them. */
  lemma {:induction false} ApprovedEffect(w: World, t: seq<Attempt>, w': World, o: int, name: string, n: nat, def: Definition, pkg: PackageId)
    requires Chained(w, t, w') && ApprovesOnly(t, def, pkg)
    ensures Approved(w'.ledger, o, name, n) ==
            if def.name == name && def.number == n && SomeApproves(t, o) then Some((def, pkg))
            else Approved(w.ledger, o, name, n)
    decreases |t|
  {
    hide Attempted, Approved, SomeApproves;
    if t == [] {
      assert !SomeApproves(t, o) by {
        NoneApproves(o);
      }
    } else {
      AttemptApproves(t[0], o, name, n);
      ApprovedEffect(t[0].after, t[1..], w', o, name, n, def, pkg);
      SomeFirst(t, o);
    }
  }

  lemma NoneApproves(o: int)
    ensures !SomeApproves([], o)
  {
  }

  lemma SomeFirst(t: seq<Attempt>, o: int)
    requires t != []
    ensures SomeApproves(t, o) <==> Approves(t[0], o) || SomeApproves(t[1..], o)
  {
    hide Approves;
    if SomeApproves(t, o) {
      var i :| 0 <= i < |t| && Approves(t[i], o);
      assert i > 0 ==> t[i] == t[1..][i-1];
    }
    if SomeApproves(t[1..], o) {
      var i :| 0 <= i < |t[1..]| && Approves(t[1..][i], o);
      assert t[i+1] == t[1..][i];
    }
  }

  lemma SegmentApprovesOnly(c: Topology, s: Segment, lo: nat, hi: nat)
    requires ValidTopology(c) && Shaped(c, s) && lo <= hi <= |s.t|
    ensures ApprovesOnly(s.t[lo..hi], DefOf(s.plan, s.number), s.plan.pkg)
  {
    forall i | 0 <= i < hi - lo && s.t[lo..hi][i].step.ApproveOn?
      ensures s.t[lo..hi][i].step.def == DefOf(s.plan, s.number) && s.t[lo..hi][i].step.pkg == s.plan.pkg
    {
      assert s.t[lo..hi][i] == s.t[lo+i] && StepOf(c, s.plan, s.number, s.t[lo+i].step);
    }
  }

  /** The approval of o in force after the attempts t of s: this segment's, with
      its package, if one of them took effect, else the one from before. */
  ghost function Standing(s: Segment, t: seq<Attempt>, o: int): Option<(Definition, PackageId)> {
    if SomeApproves(t, o) then Some((DefOf(s.plan, s.number), s.plan.pkg))
    else Approved(s.start.ledger, o, s.plan.name, s.number)
  }

  /** Which approval of an org is in force at attempt i of a segment... */
  lemma ApprovalInForceAt(c: Topology, s: Segment, i: nat, o: int)
    requires ValidTopology(c) && ValidWorld(s.start) && Shaped(c, s) && i < |s.t|
    ensures Approved(s.t[i].before.ledger, o, s.plan.name, s.number) == Standing(s, s.t[..i], o)
    ensures Ready(s.t[i].before.ledger, o, DefOf(s.plan, s.number)) <==>
            SomeApproves(s.t[..i], o) || Ready(s.start.ledger, o, DefOf(s.plan, s.number))
  {
    hide Attempted, Chained, Approved, SomeApproves;
    ChainAt(s.start, s.t, s.end, i);
    SegmentApprovesOnly(c, s, 0, i);
    assert s.t[0..i] == s.t[..i];
    ApprovedEffect(s.start, s.t[..i], s.t[i].before, o, s.plan.name, s.number, DefOf(s.plan, s.number), s.plan.pkg);
  }

  /** ...and at its end. */
  lemma ApprovalInForce(c: Topology, s: Segment, o: int)
    requires ValidTopology(c) && Shaped(c, s)
    ensures Approved(s.end.ledger, o, s.plan.name, s.number) == Standing(s, s.t, o)
    ensures Ready(s.end.ledger, o, DefOf(s.plan, s.number)) <==>
            SomeApproves(s.t, o) || Ready(s.start.ledger, o, DefOf(s.plan, s.number))
  {
    hide Attempted, Chained, Approved, SomeApproves;
    SegmentApprovesOnly(c, s, 0, |s.t|);
    assert s.t[0..|s.t|] == s.t;
    ApprovedEffect(s.start, s.t, s.end, o, s.plan.name, s.number, DefOf(s.plan, s.number), s.plan.pkg);
  }

  /** When a peer whose copy is up to date answers that all orgs have approved,
      this definition's approvals are in force from then on. */
  lemma ReadyFromThenOn(c: Topology, s: Segment, j: nat, o: int)
    requires ValidTopology(c) && ValidWorld(s.start) && Shaped(c, s) && o in c.orgs
    requires j < |s.t| && s.t[j].step.WaitReady? && s.t[j].ok
    requires View(s.t[j].after.views, s.t[j].step.peer) == s.t[j].before.ledger
    ensures forall i :: j < i < |s.t| ==> Ready(s.t[i].before.ledger, o, DefOf(s.plan, s.number))
    ensures Ready(s.end.ledger, o, DefOf(s.plan, s.number))
  {
    hide Chained, ValidWorld, Approved, Grown;
    var def := DefOf(s.plan, s.number);
    SameOrgs(c, s, j);
    ChainAt(s.start, s.t, s.end, j);
    assert StepOf(c, s.plan, s.number, s.t[j].step);
    assert Ready(s.t[j].after.ledger, o, def);
    SegmentApprovesOnly(c, s, j + 1, |s.t|);
    assert s.t[j+1..|s.t|] == s.t[j+1..];
    ApprovedEffect(s.t[j].after, s.t[j+1..], s.end, o, s.plan.name, s.number, def, s.plan.pkg);
    forall i | j < i < |s.t| ensures Ready(s.t[i].before.ledger, o, def) {
      Between(c, s, j, i);
      SegmentApprovesOnly(c, s, j + 1, i);
      ApprovedEffect(s.t[j].after, s.t[j+1..i], s.t[i].before, o, s.plan.name, s.number, def, s.plan.pkg);
    }
  }

  lemma SameOrgs(c: Topology, s: Segment, j: nat)
    requires ValidTopology(c) && ValidWorld(s.start) && Shaped(c, s) && j < |s.t|
    ensures s.t[j].before.orgs == (set o | o in c.orgs)
  {
    hide Attempted, Chained, ValidWorld;
    ChainAt(s.start, s.t, s.end, j);
  }

  /******* A finished segment *******/

  lemma DoneHeld(c: Topology, s: Segment)
    requires ValidTopology(c) && ValidWorld(s.start) && Shaped(c, s) && s.done
    ensures Held(c, DefOf(s.plan, s.number), s.plan.pkg, s.end)
  {
    hide Shaped, ValidWorld;
    forall o, j | o in c.orgs && j in c.peers ensures s.plan.pkg in Packages(s.end.installed, PeerRef(o, j)) {
      DoneInstalled(c, s, o, j);
    }
    forall o | o in c.orgs ensures HasApproved(s.end.ledger, o, DefOf(s.plan, s.number)) {
      var pkg := DoneApproved(c, s, o);
    }
  }

  /** A finished segment, whatever replies were lost on the way: what the peers
      hold, which approvals are in force, and exactly when its definition is
      what the ledger has and the peers show. */
  lemma {:induction false} SegmentDone(c: Topology, s: Segment)
    requires ValidTopology(c) && ValidWorld(s.start) && Shaped(c, s) && s.done
    ensures Held(c, DefOf(s.plan, s.number), s.plan.pkg, s.end)
    ensures forall o :: Approved(s.end.ledger, o, s.plan.name, s.number) == Standing(s, s.t, o)
    ensures Defined(c, DefOf(s.plan, s.number), s.end) <==> RightNumber(s)
  {
    hide Shaped, ValidWorld, Held, Standing, Approved, RightNumber;
    DoneHeld(c, s);
    DoneCommitted(c, s);
    forall o ensures Approved(s.end.ledger, o, s.plan.name, s.number) == Standing(s, s.t, o) {
      ApprovalInForce(c, s, o);
    }
    if RightNumber(s) {
      forall o | o in c.orgs
        ensures Committed(View(s.end.views, FirstOf(c, o)), s.plan.name) == Some(DefOf(s.plan, s.number))
      {
        DoneReported(c, s, o);
      }
    }
  }

  /** An attempt of a segment that comes after a step has succeeded starts in a
      world that step led to. */
  lemma AfterStep(c: Topology, s: Segment, i: nat, step: Step) returns (j: nat)
    requires ValidTopology(c) && ValidWorld(s.start) && Shaped(c, s) && i < |s.t| && Succeeded(s.t, i, step)
    ensures j < i && s.t[j].step == step && s.t[j].ok && Attempted(s.t[j])
    ensures ValidWorld(s.t[j].before) && Grown(s.t[j].after, s.t[i].before)
  {
    hide Attempted, Chained, Grown, ValidWorld;
    j := Find(s.t, i, step);
    ChainAt(s.start, s.t, s.end, i);
    assert s.t[..i][j] == s.t[j];
    ChainAt(s.start, s.t[..i], s.t[i].before, j);
  }

  /** No org is asked to approve before every peer holds the package... */
  lemma InstalledBeforeApproval(c: Topology, s: Segment, i: nat, p: PeerRef)
    requires ValidTopology(c) && ValidWorld(s.start) && Shaped(c, s)
    requires i < |s.t| && s.t[i].step.ApproveOn? && p.org in c.orgs && p.peer in c.peers
    ensures s.plan.pkg in Packages(s.t[i].before.installed, p)
  {
    assert Gated(c, s.plan, s.number, s.t, i);
    assert p == PeerRef(p.org, p.peer);
    var j := AfterStep(c, s, i, InstallOn(p, s.plan.pkg));
  }

  /** ...and no commit is sent before every org has approved its definition; the
      approval in force is then this segment's or the one from before it. */
  lemma ApprovedBeforeCommit(c: Topology, s: Segment, i: nat, o: int)
    requires ValidTopology(c) && ValidWorld(s.start) && Shaped(c, s)
    requires i < |s.t| && s.t[i].step.CommitOn? && o in c.orgs
    ensures HasApproved(s.t[i].before.ledger, o, s.t[i].step.def)
    ensures Ready(s.t[i].before.ledger, o, s.t[i].step.def) <==>
            SomeApproves(s.t[..i], o) || Ready(s.start.ledger, o, s.t[i].step.def)
  {
    hide Attempted, Chained, Approved, Standing;
    assert Gated(c, s.plan, s.number, s.t, i);
    var j := AfterStep(c, s, i, ApproveOn(FirstOf(c, o), DefOf(s.plan, s.number), s.plan.pkg));
    var pkg := ApproveAnswer(s.t[j]);
    ApprovalInForceAt(c, s, i, o);
  }

  /** Each org's first peer had answered that all of them have. */
  lemma ReadyBeforeCommit(c: Topology, s: Segment, i: nat, o: int) returns (j: nat)
    requires ValidTopology(c) && ValidWorld(s.start) && Shaped(c, s)
    requires i < |s.t| && s.t[i].step.CommitOn? && o in c.orgs
    ensures j < i && forall org :: org in c.orgs ==> Ready(View(s.t[j].after.views, FirstOf(c, o)), org, s.t[i].step.def)
  {
    assert Gated(c, s.plan, s.number, s.t, i);
    j := AfterStep(c, s, i, WaitReady(FirstOf(c, o), DefOf(s.plan, s.number)));
    SameOrgs(c, s, j);
  }

  /******* Lost replies *******/

  /** From position n on, the ledger is about def only. */
  ghost predicate OnlyDef(l: seq<Tx>, n: nat, def: Definition) {
    forall k :: n <= k < |l| ==> l[k].def == def
  }

  lemma {:induction false} OnlyDefKept(w: World, t: seq<Attempt>, w': World, n: nat, def: Definition)
    requires Chained(w, t, w') && OnlyDef(w.ledger, n, def)
    requires forall i :: 0 <= i < |t| && (t[i].step.ApproveOn? || t[i].step.CommitOn?) ==> t[i].step.def == def
    ensures OnlyDef(w'.ledger, n, def)
    decreases |t|
  {
    hide Attempted;
    if t != [] {
      OnlyDefStep(t[0], n, def);
      OnlyDefKept(t[0].after, t[1..], w', n, def);
    }
  }

  lemma OnlyDefStep(a: Attempt, n: nat, def: Definition)
    requires Attempted(a) && OnlyDef(a.before.ledger, n, def)
    requires a.step.ApproveOn? || a.step.CommitOn? ==> a.step.def == def
    ensures OnlyDef(a.after.ledger, n, def)
  {
  }

  lemma {:induction false} ReadyFrom(v: seq<Tx>, n: nat, org: int, def: Definition)
    requires n < |v| && OnlyDef(v, n, def) && v[n].Approval? && v[n].org == org
    ensures Ready(v, org, def)
    decreases |v|
  {
    var x := v[|v|-1];
    if !(x.Approval? && x.org == org) {
      ReadyFrom(v[..|v|-1], n, org, def);
    }
  }

  /** The attempts between two attempts of a segment. */
  lemma Between(c: Topology, s: Segment, i: nat, j: nat)
    requires ValidTopology(c) && ValidWorld(s.start) && Shaped(c, s) && i < j < |s.t|
    ensures Chained(s.t[i].after, s.t[i+1..j], s.t[j].before)
    ensures ValidWorld(s.t[i].before) && ValidWorld(s.t[i].after) && ValidWorld(s.t[j].before)
    ensures Attempted(s.t[i]) && Attempted(s.t[j]) && Grown(s.t[i].after, s.t[j].before)
  {
    hide Attempted, Chained, ValidWorld, Grown;
    ChainAt(s.start, s.t, s.end, i);
    assert s.t[i+1..][j-i-1] == s.t[j] && s.t[i+1..][..j-i-1] == s.t[i+1..j];
    ChainAt(s.t[i].after, s.t[i+1..], s.end, j - i - 1);
  }

  /** A segment approves and commits one definition only. */
  lemma OneDefinition(c: Topology, s: Segment, i: nat, j: nat)
    requires ValidTopology(c) && Shaped(c, s) && i < j < |s.t| && (s.t[i].step.ApproveOn? || s.t[i].step.CommitOn?)
    ensures
      var u := s.t[i+1..j];
      forall k :: 0 <= k < |u| && (u[k].step.ApproveOn? || u[k].step.CommitOn?) ==> u[k].step.def == s.t[i].step.def
  {
    var u := s.t[i+1..j];
    assert StepOf(c, s.plan, s.number, s.t[i].step);
    forall k | 0 <= k < |u| && (u[k].step.ApproveOn? || u[k].step.CommitOn?) ensures u[k].step.def == s.t[i].step.def {
      assert u[k] == s.t[i+1+k];
      assert StepOf(c, s.plan, s.number, s.t[i+1+k].step);
    }
  }

  /** An approval that took effect although the call failed is not sent again by
      an attempt whose query is answered by a copy of the ledger that has it. */
  lemma LostApprovalIsNotRepeated(c: Topology, s: Segment, i: nat, j: nat)
    requires ValidTopology(c) && ValidWorld(s.start) && Shaped(c, s) && i < j < |s.t|
    requires s.t[i].step.ApproveOn? && s.t[i].after.ledger != s.t[i].before.ledger
    requires s.t[j].step == s.t[i].step && s.t[j].asked
    requires |View(s.t[j].after.views, s.t[j].step.peer)| >= |s.t[i].after.ledger|
    ensures s.t[j].ok && !s.t[j].sent
  {
    hide Chained, ValidWorld;
    var a, b, def := s.t[i], s.t[j], s.t[i].step.def;
    Between(c, s, i, j);
    assert OnlyDef(a.after.ledger, |a.before.ledger|, def);
    OneDefinition(c, s, i, j);
    OnlyDefKept(a.after, s.t[i+1..j], b.before, |a.before.ledger|, def);
    var v := View(b.after.views, b.step.peer);
    assert a.after.ledger <= b.before.ledger && v <= b.before.ledger;
    ReadyFrom(v, |a.before.ledger|, b.step.peer.org, def);
  }

  /** The same for a commit. */
  lemma LostCommitIsNotRepeated(c: Topology, s: Segment, i: nat, j: nat)
    requires ValidTopology(c) && ValidWorld(s.start) && Shaped(c, s) && i < j < |s.t|
    requires s.t[i].step.CommitOn? && s.t[i].after.ledger != s.t[i].before.ledger
    requires s.t[j].step == s.t[i].step && s.t[j].asked
    requires |View(s.t[j].after.views, s.t[j].step.peer)| >= |s.t[i].after.ledger|
    ensures s.t[j].ok && !s.t[j].sent
  {
    hide Chained;
    var a, b, def := s.t[i], s.t[j], s.t[i].step.def;
    Between(c, s, i, j);
    LedgerAppend(a.before.ledger, Commitment(def), def.name);
    assert a.after.ledger == a.before.ledger + [Commitment(def)];
    OneDefinition(c, s, i, j);
    CommitEffect(a.after, s.t[i+1..j], b.before, def, def.name);
    var v := View(b.after.views, b.step.peer);
    assert a.after.ledger <= b.before.ledger && v <= b.before.ledger;
    Squeezed(a.after.ledger, v, b.before.ledger, def);
  }

  /******* Whose package an org approved *******/

  /** approve skips an org that readiness says has approved, and readiness does
      not look at the package.  What an attempt that succeeds leaves in force: */
  lemma ApproveLeaves(a: Attempt)
    requires Attempted(a) && a.step.ApproveOn? && a.ok
    ensures
      var o, def := a.step.peer.org, a.step.def;
      Approved(a.after.ledger, o, def.name, def.number) ==
      if a.asked && Ready(View(a.after.views, a.step.peer), o, def) then Approved(a.before.ledger, o, def.name, def.number)
      else Some((def, a.step.pkg))
  {
    AttemptApproves(a, a.step.peer.org, a.step.def.name, a.step.def.number);
  }

  /** Answered by a copy of the ledger that is up to date, it leaves the package
      in force exactly if the org had not approved the definition, or with it. */
  lemma ApproveKeepsOldPackage(a: Attempt)
    requires Attempted(a) && a.step.ApproveOn? && a.ok && UpToDate(a)
    ensures
      var o, def := a.step.peer.org, a.step.def;
      Approved(a.after.ledger, o, def.name, def.number) == Some((def, a.step.pkg)) <==>
        (Ready(a.before.ledger, o, def) ==> Approved(a.before.ledger, o, def.name, def.number) == Some((def, a.step.pkg)))
  {
    ApproveLeaves(a);
  }

  /** The query was answered by a copy that had all of the ledger. */
  ghost predicate UpToDate(a: Attempt) {
    a.asked && (a.step.ApproveOn? ==> View(a.after.views, a.step.peer) == a.before.ledger)
  }

  /** No approval of o takes effect in these attempts exactly if it is not needed. */
  lemma {:induction false} ApprovesIfNeeded(w: World, t: seq<Attempt>, w': World, o: int, def: Definition, pkg: PackageId)
    requires Chained(w, t, w') && ApprovesOnly(t, def, pkg)
    requires forall i :: 0 <= i < |t| && t[i].step.ApproveOn? && t[i].step.peer.org == o ==> UpToDate(t[i])
    ensures Ready(w.ledger, o, def) ==> !SomeApproves(t, o)
    ensures !Ready(w.ledger, o, def) && !SomeApproves(t, o) ==>
              forall i :: 0 <= i < |t| && t[i].step.ApproveOn? && t[i].step.peer.org == o ==> !t[i].ok
    decreases |t|
  {
    hide Attempted, Ready, Approves;
    if t != [] {
      ApproveIfNeeded(t[0], o, def);
      SomeFirst(t, o);
      assert forall i :: 0 <= i < |t[1..]| ==> t[1..][i] == t[i+1];
      ApprovesIfNeeded(t[0].after, t[1..], w', o, def, pkg);
    }
  }

  lemma ApproveIfNeeded(a: Attempt, o: int, def: Definition)
    requires Attempted(a) && (a.step.ApproveOn? ==> a.step.def == def)
    requires a.step.ApproveOn? && a.step.peer.org == o ==> UpToDate(a)
    ensures Ready(a.before.ledger, o, def) ==> !Approves(a, o) && Ready(a.after.ledger, o, def)
    ensures !Ready(a.before.ledger, o, def) && !Approves(a, o) ==>
              !Ready(a.after.ledger, o, def) && (a.step.ApproveOn? && a.step.peer.org == o ==> !a.ok)
  {
    AttemptApproves(a, o, def.name, def.number);
  }

  /** The approvals of o in a segment were all answered by up-to-date copies. */
  ghost predicate AnsweredUpToDate(s: Segment, o: int) {
    forall i :: 0 <= i < |s.t| && s.t[i].step.ApproveOn? && s.t[i].step.peer.org == o ==> UpToDate(s.t[i])
  }

  /** So over a finished segment: this run's package is the one in force exactly
      if o had not approved the definition before, or with this package. */
  lemma {:induction false} PackageApproved(c: Topology, s: Segment, o: int)
    requires ValidTopology(c) && ValidWorld(s.start) && Shaped(c, s) && s.done && o in c.orgs
    requires AnsweredUpToDate(s, o)
    ensures
      var def := DefOf(s.plan, s.number);
      Approved(s.end.ledger, o, s.plan.name, s.number) == Some((def, s.plan.pkg)) <==>
        (Ready(s.start.ledger, o, def) ==> Approved(s.start.ledger, o, s.plan.name, s.number) == Some((def, s.plan.pkg)))
  {
    hide Attempted, Chained, ValidWorld, Approved, SomeApproves;
    var def := DefOf(s.plan, s.number);
    ApprovalInForce(c, s, o);
    SegmentApprovesOnly(c, s, 0, |s.t|);
    assert s.t[0..|s.t|] == s.t;
    ApprovesIfNeeded(s.start, s.t, s.end, o, def, s.plan.pkg);
    var i := Find(s.t, |s.t|, ApproveOn(FirstOf(c, o), def, s.plan.pkg));
  }

  /******* Any number of runs *******/

  ghost predicate History(c: Topology, w: World, h: seq<Segment>, w': World)
    requires ValidTopology(c)
    decreases |h|
  {
    if h == [] then w == w'
    else h[0].start == w && Shaped(c, h[0]) && History(c, h[0].end, h[1..], w')
  }

  function Uses(h: seq<Segment>, name: string): nat {
    if h == [] then 0 else (if h[0].plan.name == name then 1 else 0) + Uses(h[1..], name)
  }

  /** Over every history the sequence of a name rises by at most the number of
      segments for it, and by exactly that when all of them finished. */
  lemma {:induction false} SequenceRises(c: Topology, w: World, h: seq<Segment>, w': World, name: string)
    requires ValidTopology(c) && ValidWorld(w) && History(c, w, h, w')
    ensures SeqOf(w.ledger, name) <= SeqOf(w'.ledger, name) <= SeqOf(w.ledger, name) + Uses(h, name)
    ensures (forall i :: 0 <= i < |h| && h[i].plan.name == name ==> h[i].done && NextNumber(h[i])) ==>
              SeqOf(w'.ledger, name) == SeqOf(w.ledger, name) + Uses(h, name)
    decreases |h|
  {
    if h != [] {
      var s := h[0];
      ChainKeeps(s.start, s.t, s.end);
      SegmentRaises(c, s, name);
      SequenceRises(c, s.end, h[1..], w', name);
      if s.plan.name == name && s.done {
        ReadWasNext(c, s);
      }
    }
  }

  /** Nothing in a segment changes the committed sequence before it is read. */
  lemma ReadIsStart(c: Topology, s: Segment, i: nat)
    requires ValidTopology(c) && ValidWorld(s.start) && Shaped(c, s)
    requires i < |s.t| && s.t[i].step.NextSequence?
    ensures SeqOf(s.t[i].before.ledger, s.plan.name) == SeqOf(s.start.ledger, s.plan.name)
  {
    hide Attempted, Chained, Committed;
    ChainAt(s.start, s.t, s.end, i);
    forall j | 0 <= j < i ensures !s.t[..i][j].step.CommitOn? {
      assert s.t[..i][j] == s.t[j] && Phase(s.t[j].step) <= Phase(s.t[i].step);
    }
    CommitEffect(s.start, s.t[..i], s.t[i].before, DefOf(s.plan, 0), s.plan.name);
  }

  /** The number is the next one exactly if the committer's copy of the ledger
      was up to date about the name when the sequence was read. */
  lemma ReadIsNext(c: Topology, s: Segment, i: nat)
    requires ValidTopology(c) && ValidWorld(s.start) && Shaped(c, s)
    requires i < |s.t| && s.t[i].step.NextSequence? && s.t[i].ok
    ensures NextNumber(s) <==>
            SeqOf(View(s.t[i].after.views, s.t[i].step.peer), s.plan.name) == SeqOf(s.t[i].before.ledger, s.plan.name)
  {
    hide Chained, Committed;
    assert StepOf(c, s.plan, s.number, s.t[i].step);
    ReadIsStart(c, s, i);
    ChainAt(s.start, s.t, s.end, i);
  }

  /** A finished segment raised the sequence by one exactly if its number was the next. */
  lemma ReadWasNext(c: Topology, s: Segment)
    requires ValidTopology(c) && ValidWorld(s.start) && Shaped(c, s) && s.done
    ensures SeqOf(s.end.ledger, s.plan.name) == SeqOf(s.start.ledger, s.plan.name) + 1 <==> NextNumber(s)
  {
    hide Attempted, Chained, Committed;
    DoneCommitted(c, s);
    SegmentRaises(c, s, s.plan.name);
  }

  /** What a segment says about its name, passes for other names leave alone. */
  lemma {:induction false} OtherNames(c: Topology, w: World, h: seq<Segment>, w': World, name: string, o: int, n: nat)
    requires ValidTopology(c) && ValidWorld(w) && History(c, w, h, w')
    requires forall i :: 0 <= i < |h| ==> h[i].plan.name != name
    ensures ValidWorld(w') && Grown(w, w')
    ensures Committed(w'.ledger, name) == Committed(w.ledger, name)
    ensures Approved(w'.ledger, o, name, n) == Approved(w.ledger, o, name, n)
    decreases |h|
  {
    hide Attempted, Chained, Committed, Approved, Grown, ValidWorld;
    if h == [] {
      GrownReflexive(w);
    } else {
      var s := h[0];
      ChainKeeps(w, s.t, s.end);
      SegmentRaises(c, s, name);
      SegmentApprovesOnly(c, s, 0, |s.t|);
      assert s.t[0..|s.t|] == s.t;
      ApprovedEffect(w, s.t, s.end, o, name, n, DefOf(s.plan, s.number), s.plan.pkg);
      OtherNames(c, s.end, h[1..], w', name, o, n);
      GrownTransitive(w, s.end, w');
    }
  }

  /******* What a history adds *******/

  /** x is an approval or the commit of the definition, with the package of the plan. */
  predicate OfPlan(c: Topology, plan: Plan, number: nat, x: Tx) {
    && x.def == DefOf(plan, number)
    && (x.Approval? ==> x.org in c.orgs && x.pkg == plan.pkg)
  }

  /** The peers' new packages are pkg. */
  ghost predicate AddsPackage(w: World, w': World, pkg: PackageId) {
    forall p, q :: q in Packages(w'.installed, p) && q !in Packages(w.installed, p) ==> q == pkg
  }

  lemma AttemptAdds(c: Topology, plan: Plan, number: nat, a: Attempt)
    requires ValidTopology(c) && Attempted(a) && StepOf(c, plan, number, a.step)
    ensures a.after.ledger == a.before.ledger ||
            (|a.after.ledger| == |a.before.ledger| + 1 && a.before.ledger <= a.after.ledger
             && OfPlan(c, plan, number, a.after.ledger[|a.before.ledger|]))
    ensures AddsPackage(a.before, a.after, plan.pkg)
  {
    hide Accepts, Ready, Committed, View;
  }

  lemma {:induction false} ChainAdds(c: Topology, plan: Plan, number: nat, w: World, t: seq<Attempt>, w': World)
    requires ValidTopology(c) && Chained(w, t, w') && forall i :: 0 <= i < |t| ==> StepOf(c, plan, number, t[i].step)
    ensures w.ledger <= w'.ledger && AddsPackage(w, w', plan.pkg)
    ensures forall i :: |w.ledger| <= i < |w'.ledger| ==> OfPlan(c, plan, number, w'.ledger[i])
    decreases |t|
  {
    hide Attempted, StepOf, OfPlan;
    if t != [] {
      AttemptAdds(c, plan, number, t[0]);
      ChainAdds(c, plan, number, t[0].after, t[1..], w');
    }
  }

  /** Every transaction that a history adds is of one of its plans, and so is every
      package that a peer gets. */
  lemma {:induction false} HistoryAdds(c: Topology, w: World, h: seq<Segment>, w': World)
    requires ValidTopology(c) && History(c, w, h, w')
    ensures w.ledger <= w'.ledger
    ensures forall i :: |w.ledger| <= i < |w'.ledger| ==>
              exists k :: 0 <= k < |h| && OfPlan(c, h[k].plan, h[k].number, w'.ledger[i])
    ensures forall p, q :: q in Packages(w'.installed, p) && q !in Packages(w.installed, p) ==>
              exists k :: 0 <= k < |h| && q == h[k].plan.pkg
    decreases |h|
  {
    hide Attempted, OfPlan, Packages, StepOf, Chained;
    if h != [] {
      var s := h[0];
      ChainAdds(c, s.plan, s.number, s.start, s.t, s.end);
      HistoryAdds(c, s.end, h[1..], w');
      assert forall k :: 0 <= k < |h[1..]| ==> h[1..][k] == h[k+1];
    }
  }

  /** A segment and the next one for its name, both up to date and with any segments
      for other names between them, have the same number exactly if the first one's
      commit is not in effect at its end. */
  lemma Resumption(c: Topology, s: Segment, h: seq<Segment>, next: Segment)
    requires ValidTopology(c) && ValidWorld(s.start) && Shaped(c, s) && NextNumber(s)
    requires History(c, s.end, h, next.start) && forall i :: 0 <= i < |h| ==> h[i].plan.name != s.plan.name
    requires Shaped(c, next) && next.plan.name == s.plan.name && NextNumber(next)
    ensures next.number == s.number <==> Committed(s.end.ledger, s.plan.name) != Some(DefOf(s.plan, s.number))
  {
    hide Attempted, Chained, Committed, History;
    SegmentRaises(c, s, s.plan.name);
    ChainKeeps(s.start, s.t, s.end);
    OtherNames(c, s.end, h, next.start, s.plan.name, 0, 0);
  }

  /** What a finished segment promises outlives every segment for other names. */
  lemma DefinedStays(c: Topology, def: Definition, pkg: PackageId, w: World, h: seq<Segment>, w': World)
    requires ValidTopology(c) && ValidWorld(w) && History(c, w, h, w')
    requires forall i :: 0 <= i < |h| ==> h[i].plan.name != def.name
    ensures Held(c, def, pkg, w) ==> Held(c, def, pkg, w')
    ensures Defined(c, def, w) ==> Defined(c, def, w')
    ensures Defined(c, def, w') ==> Committed(w.ledger, def.name) == Some(def)
  {
    hide History, Committed, ValidLedger;
    OtherNames(c, w, h, w', def.name, 0, 0);
    if Held(c, def, pkg, w) {
      forall o | o in c.orgs ensures HasApproved(w'.ledger, o, def) {
        var p :| Approval(o, def, p) in w.ledger;
        assert Approval(o, def, p) in w'.ledger;
      }
    }
    if Defined(c, def, w) {
      forall o | o in c.orgs ensures Committed(View(w'.views, FirstOf(c, o)), def.name) == Some(def) {
        Squeezed(View(w.views, FirstOf(c, o)), View(w'.views, FirstOf(c, o)), w'.ledger, def);
      }
    }
  }

  lemma {:induction false} HistoryConcat(c: Topology, w: World, h: seq<Segment>, m: World, g: seq<Segment>, w': World)
    requires ValidTopology(c) && History(c, w, h, m) && History(c, m, g, w')
    ensures History(c, w, h + g, w')
    decreases |h|
  {
    hide Shaped;
    if h == [] {
      assert h + g == g;
    } else {
      HistoryConcat(c, h[0].end, h[1..], m, g, w');
      assert (h + g)[1..] == h[1..] + g;
    }
  }

  /** One segment of a history, and the rest of it. */
  lemma {:induction false} HistoryAt(c: Topology, w: World, h: seq<Segment>, w': World, k: nat)
    requires ValidTopology(c) && ValidWorld(w) && History(c, w, h, w') && k < |h|
    ensures ValidWorld(h[k].start) && Shaped(c, h[k]) && ValidWorld(h[k].end) && History(c, h[k].end, h[k+1..], w')
    decreases |h|
  {
    hide Attempted, Staged, Ripe, ValidWorld, Grown;
    ChainKeeps(h[0].start, h[0].t, h[0].end);
    if k > 0 {
      HistoryAt(c, h[0].end, h[1..], w', k - 1);
      assert h[k+1..] == h[1..][k..];
    }
  }

  /** Segment k finished, and is its name's last. */
  ghost predicate LastFinished(h: seq<Segment>, k: nat) {
    k < |h| && h[k].done && forall m :: k < m < |h| ==> h[m].plan.name != h[k].plan.name
  }

  /** What the network holds of a finished segment: every peer has the package and
      every org has approved; the approval of an org in force is this segment's or
      the one from before it; and the definition is committed and shown exactly
      if the segment's number was the right one. */
  ghost predicate Promised(c: Topology, s: Segment, w: World)
    requires ValidTopology(c)
  {
    var def := DefOf(s.plan, s.number);
    && Held(c, def, s.plan.pkg, w)
    && (forall o :: Approved(w.ledger, o, s.plan.name, s.number) == Standing(s, s.t, o))
    && (Defined(c, def, w) <==> RightNumber(s))
  }

  /** Safety of a whole run, or of many: whatever failed, was lost or lagged,
      the last finished segment of a name is what the network holds at the end. */
  lemma {:induction false} InstallSafety(c: Topology, w: World, h: seq<Segment>, w': World, k: nat)
    requires ValidTopology(c) && ValidWorld(w) && History(c, w, h, w') && k < |h|
    requires LastFinished(h, k)
    ensures Promised(c, h[k], w')
  {
    hide History, Held, Standing, Approved, ValidWorld, Shaped;
    var s, def := h[k], DefOf(h[k].plan, h[k].number);
    HistoryAt(c, w, h, w', k);
    SegmentDone(c, s);
    DoneCommitted(c, s);
    DefinedStays(c, def, s.plan.pkg, s.end, h[k+1..], w');
    forall o ensures Approved(w'.ledger, o, s.plan.name, s.number) == Standing(s, s.t, o) {
      OtherNames(c, s.end, h[k+1..], w', s.plan.name, o, s.number);
    }
  }

  function Attempts(h: seq<Segment>): nat {
    if h == [] then 0 else Attempts(h[..|h|-1]) + |h[|h|-1].t|
  }
}
