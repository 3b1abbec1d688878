/** Renewal on a tree of files: a read fails where the tree says so, a write at any time. */
module Reissue {
  import opened Wrappers
  import opened Decimal
  import opened Order
  import opened Certs
  import opened Strings
  import opened Renewals
  import Names

  /** days: None when --days is not given.  now: None means the clock. */
  datatype Options = Options(now: Option<int>, config: Path, kind: string, nodes: seq<string>, days: Option<int>,
                             allExpired: bool, all: bool, dryRun: bool, noBackup: bool)

  /** What became of a target: reissued, refused with ErrReissue, the run ended
      there, or it does not come back from there. */
  datatype Outcome = Done | Skipped | Stopped | Endless

  /** A name matches a node itself or up to a dot. */
  predicate Matches(node: string, pattern: string) {
    node == pattern || pattern + "." <= node
  }

  lemma ShortNameIsShorter(domain: string, i: int, j: int, k: int)
    requires i >= 0 && j >= 0 && k >= 0
    ensures Names.PeerName(domain, i, j) != "peer" + Itoa(k)
  {
    hide Itoa, Names.OrgName;
    var rest := "." + Names.OrgName(domain, i);
    Names.DigitsOf(Itoa(j), rest);
    Names.DigitsOf(Itoa(k), "");
    assert Itoa(k) + "" == Itoa(k) == ("peer" + Itoa(k))[4..];
    assert Names.PeerName(domain, i, j)[4..] == Itoa(j) + rest;
  }

  /** The short name peer<k> matches the peers with that number, and no other. */
  lemma ShortNameMatches(domain: string, i: int, j: int, k: int)
    requires i >= 0 && j >= 0 && k >= 0
    ensures Matches(Names.PeerName(domain, i, j), "peer" + Itoa(k)) <==> j == k
  {
    hide Itoa, Names.OrgName;
    var org, digits := Names.OrgName(domain, i), Itoa(k);
    var node, pattern := Names.PeerName(domain, i, j), "peer" + digits + ".";
    ShortNameIsShorter(domain, i, j, k);
    if pattern <= node {
      var tail := node[|pattern|..];
      assert node[4..] == Itoa(j) + ("." + org);
      assert node[4..] == (pattern + tail)[4..] == digits + ("." + tail);
      Names.NumberBeforePoint(j, org, k, tail);
    }
    if j == k {
      assert node == pattern + org;
    }
  }

  predicate MatchesAny(node: string, patterns: seq<string>) {
    exists p :: p in patterns && Matches(node, p)
  }

  predicate MatchesSome(leaves: seq<Leaf>, pattern: string) {
    exists l :: l in leaves && Matches(l.node, pattern)
  }

  /** --type asks for this kind. */
  predicate Wanted(asked: string, kind: Kind) {
    asked == "" || asked == "both" || asked == (if kind == TLS then "tls" else "signcert")
  }

  predicate WantsSome(asked: string) {
    Wanted(asked, SignCert) || Wanted(asked, TLS)
  }

  predicate Covers(asked: string, kinds: seq<Kind>) {
    forall kind :: kind in kinds <==> Wanted(asked, kind)
  }

  predicate Selecting(o: Options) {
    o.all || o.allExpired || o.nodes != []
  }

  predicate Expired(c: Certificate, now: int) {
    c.notAfter * SECOND <= now
  }

  predicate Selected(o: Options, now: int, l: Leaf) {
    && Selecting(o)
    && (o.nodes != [] ==> MatchesAny(l.node, o.nodes))
    && (o.allExpired ==> Expired(l.cert, now))
  }

  ghost predicate IsTarget(f: Tree, o: Options, now: int, l: Leaf) {
    Wanted(o.kind, l.kind) && IsLeaf(f, o.config, l) && Selected(o, now, l)
  }

  /** Discover's result: each leaf of these kinds once. */
  ghost predicate LeavesAre(f: Tree, config: Path, kinds: seq<Kind>, ls: seq<Leaf>) {
    && (forall l :: l in ls <==> l.kind in kinds && IsLeaf(f, config, l))
    && (forall i, j :: 0 <= i < j < |ls| ==> ls[i].path != ls[j].path)
  }

  function KindRank(kinds: seq<Kind>, kind: Kind): nat {
    if kinds == [] || kinds[0] == kind then 0 else 1 + KindRank(kinds[1..], kind)
  }

  /** The order in which Discover finds leaves: by parent, then by node directory,
      then by kind as given. */
  predicate FoundBefore(config: Path, kinds: seq<Kind>, a: Leaf, b: Leaf) {
    var n := |config| + 4;
    && |a.path| > n && |b.path| > n
    && if a.path[n-2] != b.path[n-2] then ParentRank(a.path[n-2]) < ParentRank(b.path[n-2])
       else if a.path[..n] != b.path[..n] then PathLess(a.path[..n], b.path[..n])
       else KindRank(kinds, a.kind) < KindRank(kinds, b.kind)
  }

  ghost predicate InOrder(config: Path, kinds: seq<Kind>, ls: seq<Leaf>) {
    forall i, j :: 0 <= i < j < |ls| ==> FoundBefore(config, kinds, ls[i], ls[j])
  }

  lemma InOrderConcat(config: Path, kinds: seq<Kind>, ls: seq<Leaf>, ms: seq<Leaf>)
    requires InOrder(config, kinds, ls) && InOrder(config, kinds, ms)
    requires forall l, m :: l in ls && m in ms ==> FoundBefore(config, kinds, l, m)
    ensures InOrder(config, kinds, ls + ms)
  {
    hide FoundBefore;
    forall i, j | 0 <= i < j < |ls + ms| ensures FoundBefore(config, kinds, (ls + ms)[i], (ls + ms)[j]) {
      if i < |ls| <= j {
        assert ls[i] in ls && ms[j - |ls|] in ms;
      }
    }
  }

  lemma {:induction false} KindRankAt(kinds: seq<Kind>, k: nat)
    requires k < |kinds| && forall i, j :: 0 <= i < j < |kinds| ==> kinds[i] != kinds[j]
    ensures KindRank(kinds, kinds[k]) == k
    decreases |kinds|
  {
    if k > 0 {
      assert kinds[1..][k-1] == kinds[k];
      KindRankAt(kinds[1..], k - 1);
    }
  }

  ghost predicate AllParse(f: Tree, config: Path, kinds: seq<Kind>) {
    forall kind, p :: kind in kinds && LeafPath(f.Keys, config, kind, p) ==> f[p].Cert?
  }

  /** The leaf at p is the one that stopped Discover, with this error. */
  ghost predicate BadLeaf(f: Tree, config: Path, kind: Kind, p: Path, e: Error) {
    LeafPath(f.Keys, config, kind, p) && !f[p].Cert? && e == if f[p].Unreadable? then Io else Malformed(p)
  }

  ghost predicate BadAmong(f: Tree, config: Path, kinds: seq<Kind>, e: Error) {
    exists kind, p :: kind in kinds && BadLeaf(f, config, kind, p, e)
  }

  lemma BadIsWanted(f: Tree, o: Options, kinds: seq<Kind>, e: Error)
    requires Covers(o.kind, kinds) && BadAmong(f, o.config, kinds, e)
    ensures e != NeverReturns && exists kind, p :: Wanted(o.kind, kind) && BadLeaf(f, o.config, kind, p, e)
  {
    hide LeafPath, Wanted;
  }

  ghost predicate Parse(f: Tree, o: Options) {
    forall kind, p :: Wanted(o.kind, kind) && LeafPath(f.Keys, o.config, kind, p) ==> f[p].Cert?
  }

  lemma ParseIs(f: Tree, o: Options, kinds: seq<Kind>)
    requires Covers(o.kind, kinds)
    ensures Parse(f, o) <==> AllParse(f, o.config, kinds)
  {
    hide LeafPath, Wanted;
  }

  ghost predicate Known(f: Tree, o: Options, pattern: string) {
    exists l: Leaf :: Wanted(o.kind, l.kind) && IsLeaf(f, o.config, l) && Matches(l.node, pattern)
  }

  /** The checks that come before anything is selected. */
  ghost predicate CanStart(f: Tree, o: Options) {
    && (o.days.Some? ==> o.days.value >= 1)
    && WantsSome(o.kind)
    && Parse(f, o)
    && (exists l: Leaf :: Wanted(o.kind, l.kind) && IsLeaf(f, o.config, l))
    && (forall i :: 0 <= i < |o.nodes| ==> Known(f, o, o.nodes[i]))
  }

  /** The error of the first check that fails. */
  ghost predicate Rejects(f: Tree, o: Options, e: Error) {
    if o.days.Some? && o.days.value < 1 then e == BadDays
    else if !WantsSome(o.kind) then e == BadType(o.kind)
    else if !Parse(f, o) then exists kind, p :: Wanted(o.kind, kind) && BadLeaf(f, o.config, kind, p, e)
    else if forall l: Leaf :: Wanted(o.kind, l.kind) ==> !IsLeaf(f, o.config, l) then e == NoLeaves
    else e.Unmatched? && forall p :: p in e.patterns <==> p in o.nodes && !Known(f, o, p)
  }

  /** A certificate of the type that was asked for, by its place in the tree. */
  predicate OfType(asked: string, p: Path) {
    && (asked == "tls" ==> |p| >= 2 && p[|p|-2..] == ["tls", "server.crt"])
    && (asked == "signcert" ==> |p| >= 3 && p[|p|-3..|p|-1] == ["msp", "signcerts"])
  }

  /** The end of a leaf's path. */
  lemma LeafTail(f: Tree, config: Path, l: Leaf)
    requires IsLeaf(f, config, l)
    ensures
      var p := l.path;
      && |p| >= 3
      && (l.kind == TLS ==> p[|p|-2..] == ["tls", "server.crt"] && p[|p|-2] == "tls")
      && (l.kind == SignCert ==> p[|p|-3..|p|-1] == ["msp", "signcerts"] && p[|p|-2] == "signcerts")
  {
    LeafIsPlaced(f, config, l);
    var n, p := |config| + 4, l.path;
    if l.kind == TLS {
      assert p[|p|-2..] == ["tls", "server.crt"];
    } else {
      assert p[|p|-2] == p[..n+2][n+1];
      assert p[|p|-3..|p|-1] == p[..n+2][n..];
    }
  }

  lemma TypeIs(f: Tree, o: Options, l: Leaf)
    requires IsLeaf(f, o.config, l)
    ensures Wanted(o.kind, l.kind) ==> OfType(o.kind, l.path)
    ensures WantsSome(o.kind) && OfType(o.kind, l.path) ==> Wanted(o.kind, l.kind)
  {
    LeafTail(f, o.config, l);
    hide IsLeaf;
    var p := l.path;
    assert p[|p|-2..][0] == p[|p|-2] == p[|p|-3..|p|-1][1];
    assert |"tls"| == 3 && |"signcert"| == 8 && |""| == 0 && |"both"| == 4 && |"signcerts"| == 9;
  }

  /** A leaf that cannot be reissued safely: no CA here, no key here, or the CA has expired. */
  ghost predicate MustRefuse(f: Tree, l: Leaf, now: int) {
    || Unresolved(f, l.caDir, l.cert.issuer)
    || exists ca :: Resolves(f, l.caDir, l.cert.issuer, ca) && Expired(ca, now)
  }

  /** c is l's certificate dated and signed again by the CA that issued it. */
  ghost predicate RenewalOf(f: Tree, l: Leaf, days: Option<int>, now: int, c: Certificate) {
    exists ca, clock, serial ::
      && Resolves(f, l.caDir, l.cert.issuer, ca) && !Expired(ca, now)
      && c == Rebuilt(l.cert, ca, NewExpiry(days, now, ca.notAfter * SECOND), clock, serial)
  }

  lemma RenewalIdentity(f: Tree, l: Leaf, days: Option<int>, now: int, c: Certificate)
    requires RenewalOf(f, l, days, now, c)
    ensures SameIdentity(l.cert, c)
    ensures (days.Some? ==> 1 <= days.value <= MAX_DAYS) ==> !Expired(c, now)
    ensures days.None? ==> exists ca :: Resolves(f, l.caDir, l.cert.issuer, ca) && c.notAfter == ca.notAfter
  {
    var ca, clock, serial :|
      && Resolves(f, l.caDir, l.cert.issuer, ca) && !Expired(ca, now)
      && c == Rebuilt(l.cert, ca, NewExpiry(days, now, ca.notAfter * SECOND), clock, serial);
    if days.Some? ==> 1 <= days.value <= MAX_DAYS {
      ExpiryIsLater(days, now, ca.notAfter);
    }
  }

  lemma RenewalStays(config: Path, f: Tree, f': Tree, l: Leaf, days: Option<int>, now: int)
    requires Frame(config, f, f') && |l.caDir| == |config| + 3
    ensures forall c :: RenewalOf(f', l, days, now, c) <==> RenewalOf(f, l, days, now, c)
    ensures MustRefuse(f', l, now) <==> MustRefuse(f, l, now)
  {
    hide Frame, Resolves, Unresolved;
    IssuersStay(config, f, f', l.caDir, l.cert.issuer);
  }

  predicate LeafLess(a: Leaf, b: Leaf) {
    if a.org != b.org then StrLess(a.org, b.org)
    else if a.node != b.node then StrLess(a.node, b.node)
    else a.kind == SignCert && b.kind == TLS
  }

  lemma LeafOrder()
    ensures WeakOrder(LeafLess)
  {
    forall a, b ensures LeafLess(a, b) ==> !LeafLess(b, a) {
      StrLessAsymmetric(a.org, b.org);
      StrLessAsymmetric(a.node, b.node);
    }
    forall a, b, c ensures LeafLess(a, c) ==> LeafLess(a, b) || LeafLess(b, c) {
      StrLessBetween(a.org, b.org, c.org);
      StrLessBetween(a.node, b.node, c.node);
      StrLessTotal(a.org, b.org);
      StrLessTotal(a.node, b.node);
      StrLessTotal(b.node, c.node);
    }
  }

  /** The order of the listing: by org, then by node, the signing certificate before
      the server's. */
  predicate ListedBefore(a: Leaf, b: Leaf) {
    || StrLess(a.org, b.org)
    || (a.org == b.org && (StrLess(a.node, b.node) || (a.node == b.node && (a.kind == b.kind || b.kind == TLS))))
  }

  lemma InListingOrder(ls: seq<Leaf>)
    requires Order.Sorted(ls, LeafLess)
    ensures forall i, j :: 0 <= i < j < |ls| ==> ListedBefore(ls[i], ls[j])
  {
    hide StrLess;
    forall i, j | 0 <= i < j < |ls| ensures ListedBefore(ls[i], ls[j]) {
      assert !LeafLess(ls[j], ls[i]);
      StrLessTotal(ls[i].org, ls[j].org);
      StrLessTotal(ls[i].node, ls[j].node);
    }
  }

  /** What one target's outcome says about its file. */
  ghost predicate Reported(f: Tree, f': Tree, o: Options, now: int, l: Leaf, out: Outcome) {
    && l.path in f && l.path in f'
    && (out == Skipped <==> MustRefuse(f, l, now))
    && (if out == Done && !o.dryRun
        then f'[l.path].Cert? && RenewalOf(f, l, o.days, now, f'[l.path].cert)
        else f'[l.path] == f[l.path])
  }

  /** Nothing follows these. */
  predicate Last(out: Outcome) {
    out == Stopped || out == Endless
  }

  /** What time.Format writes for a backup's name. */
  predicate IsClock(ts: string) {
    |ts| == 14 && AllDigits(ts)
  }

  /** There may be no room for the name of p's backup. */
  predicate Cramped(dom: set<Path>, limit: nat, p: Path) {
    p != [] && |p[|p|-1]| + |".yyyymmddhhmmss-.bak"| + |Itoa(|dom|)| > limit
  }

  predicate Hangs(outs: seq<Outcome>) {
    outs != [] && outs[|outs|-1] == Endless
  }

  /** Only an error or a backup without room for its name keeps a run from its
      later targets. */
  predicate Ended(dom: set<Path>, limit: nat, targets: seq<Leaf>, outs: seq<Outcome>) {
    && |outs| <= |targets|
    && (forall i :: 0 <= i < |outs| - 1 ==> !Last(outs[i]))
    && (|outs| < |targets| ==> outs != [] && Last(outs[|outs|-1]))
    && (Hangs(outs) ==> Cramped(dom, limit, targets[|outs|-1].path))
  }

  predicate AllDone(outs: seq<Outcome>) {
    forall i :: 0 <= i < |outs| ==> outs[i] == Done
  }

  lemma AllDoneMore(outs: seq<Outcome>, out: Outcome)
    ensures AllDone([]) && (AllDone(outs + [out]) <==> AllDone(outs) && out == Done)
  {
    assert (outs + [out])[|outs|] == out;
    assert AllDone(outs + [out]) ==> forall i :: 0 <= i < |outs| ==> outs[i] == (outs + [out])[i];
  }

  /** How far a run has come: outs are the outcomes of the first targets. */
  ghost predicate Progress(f: Tree, f': Tree, o: Options, now: int, targets: seq<Leaf>, outs: seq<Outcome>) {
    && |outs| <= |targets|
    && Renewed(o.config, f, f') && (!o.noBackup ==> Evolves(o.config, f, f'))
    && (o.dryRun ==> f' == f)
    && (forall i :: 0 <= i < |outs| ==> Reported(f, f', o, now, targets[i], outs[i]))
    && (forall p :: p in f && At(f', p) != Some(f[p]) ==> Changed(targets, outs, p))
    && (forall p :: p in f' && p !in f ==> !o.noBackup && Saved(f, targets, outs, p, f'[p]))
  }

  /** p is a backup of a target that was not refused, with its old content. */
  ghost predicate Saved(f: Tree, targets: seq<Leaf>, outs: seq<Outcome>, p: Path, was: Content) {
    exists i :: 0 <= i < |outs| <= |targets| && SavedAt(f, targets[i], outs[i], p, was)
  }

  predicate SavedAt(f: Tree, l: Leaf, out: Outcome, p: Path, was: Content) {
    out != Skipped && BackupOf(p, l.path) && At(f, l.path) == Some(was)
  }

  ghost predicate Changed(targets: seq<Leaf>, outs: seq<Outcome>, p: Path) {
    exists i :: 0 <= i < |outs| <= |targets| && targets[i].path == p && outs[i] == Done
  }

  /** Targets are leaves, each a file of its own. */
  ghost predicate ProperTargets(f: Tree, config: Path, targets: seq<Leaf>) {
    && (forall l :: l in targets ==> IsLeaf(f, config, l))
    && (forall i, j :: 0 <= i < j < |targets| ==> targets[i].path != targets[j].path)
  }

  lemma LeafFacts(f: Tree, config: Path, l: Leaf)
    requires IsLeaf(f, config, l)
    ensures l.path in f && f[l.path] == Cert(l.cert) && LeafCert(f.Keys, config, l.path) && |l.caDir| == |config| + 3
  {
  }

  lemma NoProgress(f: Tree, o: Options, now: int, targets: seq<Leaf>)
    ensures Progress(f, f, o, now, targets, [])
  {
    EvolvesReflexive(o.config, f);
  }

  /** The target that is next is as Discover found it. */
  lemma NextIsUntouched(f: Tree, f': Tree, o: Options, now: int, targets: seq<Leaf>, outs: seq<Outcome>)
    requires Progress(f, f', o, now, targets, outs) && ProperTargets(f, o.config, targets) && |outs| < |targets|
    ensures
      var l := targets[|outs|];
      l.path in f' && f'[l.path] == Cert(l.cert) && LeafCert(f'.Keys, o.config, l.path)
  {
    hide IsLeaf, LeafCert;
    var l := targets[|outs|];
    LeafFacts(f, o.config, l);
    AllLeavesStay(o.config, f, f');
    assert !Changed(targets, outs, l.path);
  }

  lemma MoreProgress(f: Tree, m: Tree, o: Options, now: int, targets: seq<Leaf>, outs: seq<Outcome>,
                     out: Outcome, bak: Option<Path>, c: Option<Certificate>, f': Tree)
    requires CleanTree(m) && Progress(f, m, o, now, targets, outs) && ProperTargets(f, o.config, targets) && |outs| < |targets|
    requires targets[|outs|].path in m && f' == Written(m, targets[|outs|].path, bak, c)
    requires out == Skipped <==> MustRefuse(m, targets[|outs|], now)
    requires bak.Some? ==> FreshBackup(m, targets[|outs|].path, bak.value)
    requires o.dryRun || o.noBackup || out == Skipped ==> bak.None?
    requires c.Some? <==> out == Done && !o.dryRun
    requires c.Some? ==> RenewalOf(m, targets[|outs|], o.days, now, c.value) && (o.noBackup || bak.Some?)
    ensures Progress(f, f', o, now, targets, outs + [out])
  {
    hide IsLeaf, LeafCert, Renewed, Evolves, RenewalOf, MustRefuse, FreshBackup, BackupOf, Saved;
    var l := targets[|outs|];
    NextIsUntouched(f, m, o, now, targets, outs);
    LeafFacts(f, o.config, l);
    assert m[l.path] == f[l.path];
    if c.Some? {
      RenewalIdentity(m, l, o.days, now, c.value);
    }
    WrittenRenews(o.config, m, l.path, bak, c);
    assert Frame(o.config, f, m) by {
      RenewedFrames(o.config, f, m);
    }
    RenewalStays(o.config, f, m, l, o.days, now);
    RenewedTransitive(o.config, f, m, f');
    if !o.noBackup {
      EvolvesTransitive(o.config, f, m, f');
    }
    assert bak.Some? ==> bak.value !in m && bak.value !in f && BackupOf(bak.value, l.path) by {
      FreshIsFree(f, m, l.path, bak);
    }
    var outs' := outs + [out];
    forall i | 0 <= i < |outs| ensures Reported(f, f', o, now, targets[i], outs'[i]) {
      assert Reported(f, m, o, now, targets[i], outs[i]);
    }
    assert Reported(f, f', o, now, l, out);
    forall p | p in f && At(f', p) != Some(f[p]) ensures Changed(targets, outs', p) {
      if p == l.path {
        assert outs'[|outs|] == out;
      } else {
        assert Changed(targets, outs, p);
        var i :| 0 <= i < |outs| && targets[i].path == p && outs[i] == Done;
        assert outs'[i] == Done;
      }
    }
    forall p | p in f' && p !in f ensures !o.noBackup && Saved(f, targets, outs', p, f'[p]) {
      if Some(p) == bak {
        assert SavedAt(f, l, out, p, f'[p]);
        SavedLast(f, targets, outs, out, p, f'[p]);
      } else {
        SavedStays(f, targets, outs, out, p, m[p]);
      }
    }
  }

  lemma SavedLast(f: Tree, targets: seq<Leaf>, outs: seq<Outcome>, out: Outcome, p: Path, was: Content)
    requires |outs| < |targets| && SavedAt(f, targets[|outs|], out, p, was)
    ensures Saved(f, targets, outs + [out], p, was)
  {
    hide SavedAt;
    assert (outs + [out])[|outs|] == out;
  }

  lemma SavedStays(f: Tree, targets: seq<Leaf>, outs: seq<Outcome>, out: Outcome, p: Path, was: Content)
    requires |outs| < |targets| && Saved(f, targets, outs, p, was)
    ensures Saved(f, targets, outs + [out], p, was)
  {
    hide SavedAt;
    var i :| 0 <= i < |outs| && SavedAt(f, targets[i], outs[i], p, was);
    assert (outs + [out])[i] == outs[i];
  }

  lemma RenewedFrames(config: Path, f: Tree, f': Tree)
    requires Renewed(config, f, f')
    ensures Frame(config, f, f') && f.Keys <= f'.Keys
  {
  }

  lemma FreshIsFree(f: Tree, m: Tree, p: Path, bak: Option<Path>)
    requires f.Keys <= m.Keys && (bak.Some? ==> FreshBackup(m, p, bak.value))
    ensures bak.Some? ==> bak.value !in m && bak.value !in f && BackupOf(bak.value, p)
  {
  }

  lemma ChangedOfType(f: Tree, f': Tree, o: Options, now: int, targets: seq<Leaf>, outs: seq<Outcome>)
    requires Progress(f, f', o, now, targets, outs) && forall l :: l in targets ==> OfType(o.kind, l.path)
    ensures forall p :: p in f && At(f', p) != Some(f[p]) ==> OfType(o.kind, p)
  {
    hide OfType, Renewed, Evolves, Reported, Saved;
    forall p | p in f && At(f', p) != Some(f[p]) ensures OfType(o.kind, p) {
      assert Changed(targets, outs, p);
      var i :| 0 <= i < |outs| <= |targets| && targets[i].path == p && outs[i] == Done;
      assert targets[i] in targets;
    }
  }

  /** After a run that renewed every expired target, none is left: a second run
      at the same time selects nothing. */
  lemma {:induction false} NothingExpired(f: Tree, f': Tree, o: Options, now: int, targets: seq<Leaf>, outs: seq<Outcome>)
    requires Progress(f, f', o, now, targets, outs) && |outs| == |targets| && AllDone(outs)
    requires forall l :: l in targets <==> IsTarget(f, o, now, l)
    requires Parse(f, o)
    requires o.allExpired && !o.dryRun && (o.days.Some? ==> 1 <= o.days.value <= MAX_DAYS)
    ensures forall l :: !IsTarget(f', o, now, l)
  {
    hide LeafCert, LeafPath, Frame, RenewalOf, MustRefuse;
    forall l ensures !IsTarget(f', o, now, l) {
      if IsTarget(f', o, now, l) {
        LeavesStay(o.config, f, f', l.kind, l.path);
        LeafLength(f.Keys, o.config, l.kind, l.path);
        var was := LeafFor(o.config, l.kind, l.path, f[l.path].cert);
        assert IsLeaf(f, o.config, was) && was.node == l.node;
        if was in targets {
          var i :| 0 <= i < |targets| && targets[i] == was;
          assert Reported(f, f', o, now, was, Done);
          RenewalIdentity(f, was, o.days, now, l.cert);
        } else {
          OtherLeaves(f, o.config, targets, was);
        }
      }
    }
  }

  /** A leaf that is no target shares its file with none. */
  lemma OtherLeaves(f: Tree, config: Path, targets: seq<Leaf>, l: Leaf)
    requires IsLeaf(f, config, l) && l !in targets && forall t :: t in targets ==> IsLeaf(f, config, t)
    ensures forall i :: 0 <= i < |targets| ==> targets[i].path != l.path
  {
    hide LeafPath;
    forall i | 0 <= i < |targets| ensures targets[i].path != l.path {
      assert targets[i] in targets;
      if targets[i].path == l.path {
        LeafKindOf(f, config, targets[i], l);
      }
    }
  }

  lemma LeafKindOf(f: Tree, config: Path, a: Leaf, b: Leaf)
    requires IsLeaf(f, config, a) && IsLeaf(f, config, b) && a.path == b.path
    ensures a == b
  {
    hide LeafPath;
    if a.kind != b.kind {
      LeafKind(f.Keys, config, a.path);
    }
  }

  lemma LeafLength(dom: set<Path>, config: Path, kind: Kind, p: Path)
    requires LeafPath(dom, config, kind, p)
    ensures |p| > |config| + 4 && p in dom
  {
  }

  class CryptoConfig {
    /** The longest name that the file system takes. */
    const nameMax: nat

    var files: Tree

    constructor (files: Tree, nameMax: nat)
      requires CleanTree(files)
      ensures Valid() && this.files == files && this.nameMax == nameMax
    {
      this.files, this.nameMax := files, nameMax;
    }

    ghost predicate Valid()
      reads this
    {
      CleanTree(files)
    }

    method Write(p: Path, c: Content) returns (ok: bool)
      requires Valid() && CleanPath(p)
      modifies this
      ensures Valid() && files == if ok then old(files)[p := c] else old(files)
    {
      ok := *;
      if ok {
        files := files[p := c];
      }
    }

    method Sorted(ps: set<Path>) returns (r: seq<Path>)
      ensures Order.Sorted(r, PathLess) && Distinct(r) && forall p :: p in r <==> p in ps
    {
      var left, all := ps, [];
      while left != {}
        invariant left <= ps && Distinct(all) && forall p :: p in all <==> p in ps - left
        decreases |left|
      {
        var p :| p in left;
        forall i | 0 <= i < |all| ensures all[i] != p {
          assert all[i] in all;
        }
        all, left := all + [p], left - {p};
      }
      PathOrder();
      r := SortSeq(all, PathLess);
      SameMembers(all, r);
      SortedDistinct(all, r);
    }

    /** The CA in dir that issued a leaf, and its key. */
    method ResolveCA(dir: Path, issuer: string) returns (r: Result<Issuer, Error>)
      requires Valid()
      ensures r.Success? <==> exists ca :: Resolves(files, dir, issuer, ca)
      ensures r.Success? ==> Resolves(files, dir, issuer, r.value.cert) && r.value.key == r.value.cert.pub
      ensures r == Failure(Refused) <==> Unresolved(files, dir, issuer)
    {
      var pems := Sorted(InDir(files.Keys, dir, ".pem"));
      var i := 0;
      while i < |pems|
        invariant i <= |pems|
        invariant forall j :: 0 <= j < i ==> OtherSubject(files, pems[j], issuer)
      {
        var c := Load(files, pems[i]);
        if c.Failure? {
          NotResolved(pems, i, dir, issuer);
          return Failure(c.error);
        }
        if c.value.subject == issuer {
          break;
        }
        i := i + 1;
      }
      if i == |pems| {
        assert NoIssuer(files, dir, issuer) by {
          forall q | q in InDir(files.Keys, dir, ".pem") ensures OtherSubject(files, q, issuer) {
            assert q in pems;
          }
        }
        return Failure(Refused);
      }
      FoundIssuer(pems, i, dir, issuer);
      var ca := files[pems[i]].cert;
      var keys := Sorted(InDir(files.Keys, dir, "_sk"));
      for k := 0 to |keys|
        invariant forall j :: 0 <= j < k ==> At(files, keys[j]) != Some(Key(ca.pub))
      {
        if At(files, keys[k]) == Some(Key(ca.pub)) {
          assert HasKey(files, dir, ca.pub);
          assert Resolves(files, dir, issuer, ca);
          ResolvesOnce(files, dir, issuer, ca);
          return Success(Issuer(ca, ca.pub));
        }
      }
      assert !HasKey(files, dir, ca.pub);
      forall other ensures !Resolves(files, dir, issuer, other) {
        if Resolves(files, dir, issuer, other) {
          ResolvesOnce(files, dir, issuer, other);
        }
      }
      return Failure(Refused);
    }

    lemma FoundIssuer(pems: seq<Path>, i: nat, dir: Path, issuer: string)
      requires Order.Sorted(pems, PathLess) && forall p :: p in pems <==> p in InDir(files.Keys, dir, ".pem")
      requires i < |pems| && pems[i] in files && files[pems[i]].Cert? && files[pems[i]].cert.subject == issuer
      requires forall j :: 0 <= j < i ==> OtherSubject(files, pems[j], issuer)
      ensures IssuerAt(files, dir, issuer, pems[i])
    {
      forall q | q in InDir(files.Keys, dir, ".pem") && PathLess(q, pems[i])
        ensures OtherSubject(files, q, issuer)
      {
        PathOrder();
        assert q in pems;
        var j :| 0 <= j < |pems| && pems[j] == q;
        assert j < i;
      }
    }

    lemma NotResolved(pems: seq<Path>, i: nat, dir: Path, issuer: string)
      requires Valid() && Order.Sorted(pems, PathLess) && forall p :: p in pems <==> p in InDir(files.Keys, dir, ".pem")
      requires i < |pems| && Load(files, pems[i]).Failure?
      requires forall j :: 0 <= j < i ==> OtherSubject(files, pems[j], issuer)
      ensures forall ca :: !Resolves(files, dir, issuer, ca)
      ensures !Unresolved(files, dir, issuer)
    {
      assert pems[i] in InDir(files.Keys, dir, ".pem");
      forall q ensures !IssuerAt(files, dir, issuer, q) {
        if IssuerAt(files, dir, issuer, q) {
          assert q in pems;
          var j :| 0 <= j < |pems| && pems[j] == q;
          PathTotal(q, pems[i]);
        }
      }
    }

    /** The clock's date and time as 14 digits. */
    method ClockText() returns (ts: string)
      ensures IsClock(ts)
    {
      ts := "";
      while |ts| < 14
        invariant |ts| <= 14 && AllDigits(ts)
      {
        var d: int := *;
        ts := ts + [DigitChar(d % 10)];
      }
    }

    method Stat(p: Path) returns (s: Certs.Stat)
      requires p != []
      ensures s == StatOf(files.Keys, nameMax, p)
    {
      s := if p in files then Exists else if |p[|p|-1]| > nameMax then NameTooLong else NotExist;
    }

    /** The candidate that the search takes: the first that Stat does not find. */
    ghost predicate Chosen(p: Path, ts: string, bak: Path)
      requires p != []
      reads this
    {
      exists k: nat ::
        && bak == BackupName(p, ts, k) && StatOf(files.Keys, nameMax, bak) == NotExist
        && forall j :: 0 <= j < k ==> StatOf(files.Keys, nameMax, BackupName(p, ts, j)) == Exists
    }

    /** What the search finds at this second: the chosen name, exactly if it ends. */
    ghost predicate Searched(p: Path, ts: string, bak: Option<Path>)
      requires p != []
      reads this
    {
      && IsClock(ts) && (bak.Some? <==> SearchEnds(files.Keys, nameMax, p, ts))
      && (bak.Some? ==> Chosen(p, ts, bak.value))
    }

    /** The first name for a backup that Stat does not find.  None: the program's
        loop never ends, because every later name is too long as well. */
    method BackupPath(p: Path) returns (bak: Option<Path>)
      requires Valid() && CleanPath(p)
      ensures exists ts :: Searched(p, ts, bak)
      ensures bak.Some? ==> FreshBackup(files, p, bak.value)
    {
      hide BackupName, FreshBackup, CleanPath, CleanTree, StatOf, SearchEnds;
      CleanNotEmpty(p);
      var path := WithSuffix(p, ".bak");
      var ts := ClockText();
      NameAt(p, ts);
      var s := Stat(path);
      if s == NotExist {
        ChosenIsFresh(p, ts, 0);
        assert Searched(p, ts, Some(path));
        return Some(path);
      }
      if s == NameTooLong {
        NeverEnds(files.Keys, nameMax, p, ts, 0);
        assert Searched(p, ts, None);
        return None;
      }
      path := WithSuffix(p, "." + ts + ".bak");
      s := Stat(path);
      var n := 1;
      while s != NotExist
        invariant n >= 1 && path == BackupName(p, ts, n) && s == StatOf(files.Keys, nameMax, path)
        invariant forall j :: 0 <= j < n ==> StatOf(files.Keys, nameMax, BackupName(p, ts, j)) == Exists
        decreases |files.Keys| + 1 - n
      {
        if s == NameTooLong {
          NeverEnds(files.Keys, nameMax, p, ts, n);
          assert Searched(p, ts, None);
          return None;
        }
        AllExist(p, ts, n + 1);
        path := WithSuffix(p, "." + ts + "-" + Itoa(n) + ".bak");
        n := n + 1;
        s := Stat(path);
      }
      ChosenIsFresh(p, ts, n);
      assert Searched(p, ts, Some(path));
      return Some(path);
    }

    lemma AllExist(p: Path, ts: string, n: nat)
      requires p != [] && ts != []
      requires forall j :: 0 <= j < n ==> StatOf(files.Keys, nameMax, BackupName(p, ts, j)) == Exists
      ensures n <= |files.Keys|
    {
      hide BackupName;
      SomeNameIsFree(files.Keys, p, ts, n);
    }

    lemma NameAt(p: Path, ts: string)
      requires p != []
      ensures BackupName(p, ts, 0) == WithSuffix(p, ".bak") && BackupName(p, ts, 1) == WithSuffix(p, "." + ts + ".bak")
      ensures forall n: nat :: n >= 2 ==> BackupName(p, ts, n) == WithSuffix(p, "." + ts + "-" + Itoa(n - 1) + ".bak")
    {
    }

    lemma ChosenIsFresh(p: Path, ts: string, n: nat)
      requires CleanPath(p) && IsClock(ts) && p != [] && StatOf(files.Keys, nameMax, BackupName(p, ts, n)) == NotExist
      requires forall j :: 0 <= j < n ==> StatOf(files.Keys, nameMax, BackupName(p, ts, j)) == Exists
      ensures FreshBackup(files, p, BackupName(p, ts, n)) && SearchEnds(files.Keys, nameMax, p, ts)
    {
      hide BackupName, BackupOf, CleanPath;
      DigitsHaveNoSlash(ts);
      CleanNotEmpty(p);
      BackupNameIs(p, ts, n);
      NameAt(p, ts);
    }

    lemma CleanNotEmpty(p: Path)
      requires CleanPath(p)
      ensures p != []
    {
    }

    /** One target: nothing is written for a leaf that is refused. */
    method ReissueOne(l: Leaf, o: Options, now: int) returns (out: Outcome, ghost bak: Option<Path>, ghost c: Option<Certificate>)
      requires Valid() && CleanPath(l.path) && l.path in files && files[l.path] == Cert(l.cert)
      modifies this
      ensures Valid() && files == Written(old(files), l.path, bak, c)
      ensures out == Skipped <==> MustRefuse(old(files), l, now)
      ensures bak.Some? ==> FreshBackup(old(files), l.path, bak.value)
      ensures out == Skipped || o.dryRun || o.noBackup ==> bak.None?
      ensures c.Some? <==> out == Done && !o.dryRun
      ensures c.Some? ==> RenewalOf(old(files), l, o.days, now, c.value) && (o.noBackup || bak.Some?)
      ensures out == Endless ==> files == old(files) && !o.dryRun && !o.noBackup
      ensures out == Endless ==> exists ts :: IsClock(ts) && !SearchEnds(old(files).Keys, nameMax, l.path, ts)
      ensures bak.Some? ==> exists ts :: IsClock(ts) && SearchEnds(old(files).Keys, nameMax, l.path, ts)
    {
      hide Resolves, Unresolved, FreshBackup, CleanPath, Rebuilt, NewExpiry, SearchEnds;
      bak, c := None, None;
      var r := ResolveCA(l.caDir, l.cert.issuer);
      if r.Failure? {
        return if r.error == Refused then Skipped else Stopped, bak, c;
      }
      var ca := r.value.cert;
      assert Resolves(files, l.caDir, l.cert.issuer, ca);
      ResolvesOnce(files, l.caDir, l.cert.issuer, ca);
      if ca.notAfter * SECOND <= now {
        return Skipped, bak, c;
      }
      assert !MustRefuse(files, l, now);
      var notAfter := NewExpiry(o.days, now, ca.notAfter * SECOND);
      if o.dryRun {
        return Done, bak, c;
      }
      var clock: int := *;
      var random: int := *;
      var signed: bool := *;
      if !signed {
        return Stopped, bak, c;
      }
      var renewed := Rebuilt(l.cert, ca, notAfter, clock, if random < 0 then -random else random);
      assert RenewalOf(files, l, o.days, now, renewed);
      if !o.noBackup {
        var path := BackupPath(l.path);
        if path.None? {
          return Endless, bak, c;
        }
        FreshIsClean(files, l.path, path.value);
        var saved := Write(path.value, files[l.path]);
        if !saved {
          return Stopped, bak, c;
        }
        bak := path;
      }
      var written := Write(l.path, Cert(renewed));
      if !written {
        return Stopped, bak, c;
      }
      c := Some(renewed);
      return Done, bak, c;
    }

    lemma FreshIsClean(f: Tree, p: Path, bak: Path)
      requires FreshBackup(f, p, bak)
      ensures CleanPath(bak)
    {
    }

    /******* Discover *******/

    /** The directories that hold a node, under these parents. */
    function Below(config: Path, parents: seq<string>): set<Path>
      reads this
    {
      set p | p in files && |p| > |config| + 4 && NodeDir(config, p[..|config|+4]) && p[|config|+2] in parents
        :: p[..|config|+4]
    }

    predicate InDirs(config: Path, dirs: set<Path>, p: Path) {
      |p| > |config| + 4 && p[..|config|+4] in dirs
    }

    /** ls are the leaves of these nodes, each once, and all of them parse. */
    ghost predicate LeavesIn(config: Path, kinds: seq<Kind>, dirs: set<Path>, ls: seq<Leaf>)
      reads this
    {
      && (forall l :: l in ls <==> l.kind in kinds && IsLeaf(files, config, l) && InDirs(config, dirs, l.path))
      && (forall i, j :: 0 <= i < j < |ls| ==> ls[i].path != ls[j].path)
      && (forall kind, p :: kind in kinds && LeafPath(files.Keys, config, kind, p) && InDirs(config, dirs, p) ==> files[p].Cert?)
    }

    lemma EmptyLeaves(config: Path, kinds: seq<Kind>)
      ensures LeavesIn(config, kinds, {}, []) && InOrder(config, kinds, [])
      ensures forall dir :: LeavesIn(config, [], {dir}, [])
    {
    }

    lemma LeavesConcat(config: Path, kinds: seq<Kind>, dirs: set<Path>, ls: seq<Leaf>, dirs': set<Path>, ls': seq<Leaf>)
      requires LeavesIn(config, kinds, dirs, ls) && LeavesIn(config, kinds, dirs', ls') && dirs !! dirs'
      ensures LeavesIn(config, kinds, dirs + dirs', ls + ls')
    {
      hide IsLeaf, LeafPath;
      forall i, j | 0 <= i < |ls| && 0 <= j < |ls'| ensures ls[i].path != ls'[j].path {
        assert ls[i] in ls && ls'[j] in ls';
      }
    }

    method DiscoverNode(config: Path, dir: Path, kinds: seq<Kind>) returns (r: Result<seq<Leaf>, Error>)
      requires Valid() && NodeDir(config, dir) && forall i, j :: 0 <= i < j < |kinds| ==> kinds[i] != kinds[j]
      ensures r.Success? ==> LeavesIn(config, kinds, {dir}, r.value) && InOrder(config, kinds, r.value)
      ensures r.Failure? ==> !AllParse(files, config, kinds) && BadAmong(files, config, kinds, r.error)
    {
      hide IsLeaf, LeafPath, LeavesIn, NodeDir, InOrder;
      var out: seq<Leaf> := [];
      EmptyLeaves(config, kinds);
      for k := 0 to |kinds|
        invariant LeavesIn(config, kinds[..k], {dir}, out) && InOrder(config, kinds, out)
      {
        var kind := kinds[k];
        var certs := Sorted(NodeCerts(files.Keys, dir, kind));
        if |certs| == 0 {
          NoCertNoLeaf(config, dir, kind, certs);
          SameLeaves(config, dir, kinds, k, out);
          continue;
        }
        FirstIsLeaf(config, dir, kind, certs);
        var c := Load(files, certs[0]);
        if c.Failure? {
          assert certs[0] in NodeCerts(files.Keys, dir, kind) && kind in kinds && !files[certs[0]].Cert?;
          assert BadLeaf(files, config, kind, certs[0], c.error);
          return Failure(c.error);
        }
        var l := LeafFor(config, kind, certs[0], c.value);
        assert IsLeaf(files, config, l) by {
          LoadedIsLeaf(config, kind, certs[0], c.value);
        }
        OneMoreLeaf(config, dir, kinds, k, out, l);
        LaterKind(config, dir, kinds, k, out, l);
        out := out + [l];
      }
      assert kinds[..|kinds|] == kinds;
      return Success(out);
    }

    /** A leaf of the next kind is found after those of the kinds before. */
    lemma LaterKind(config: Path, dir: Path, kinds: seq<Kind>, k: nat, out: seq<Leaf>, l: Leaf)
      requires k < |kinds| && forall i, j :: 0 <= i < j < |kinds| ==> kinds[i] != kinds[j]
      requires LeavesIn(config, kinds[..k], {dir}, out) && InOrder(config, kinds, out)
      requires l.kind == kinds[k] && InDirs(config, {dir}, l.path)
      ensures InOrder(config, kinds, out + [l])
    {
      hide IsLeaf, LeafPath;
      KindRankAt(kinds, k);
      forall m | m in out ensures FoundBefore(config, kinds, m, l) {
        var i :| 0 <= i < k && kinds[i] == m.kind;
        KindRankAt(kinds, i);
        assert m.path[..|config|+4] == dir == l.path[..|config|+4];
        assert m.path[|config|+2] == dir[|config|+2] == l.path[|config|+2];
      }
      assert InOrder(config, kinds, [l]);
      InOrderConcat(config, kinds, out, [l]);
    }

    lemma LoadedIsLeaf(config: Path, kind: Kind, p: Path, c: Certificate)
      requires LeafPath(files.Keys, config, kind, p) && Load(files, p) == Success(c)
      ensures IsLeaf(files, config, LeafFor(config, kind, p, c))
    {
    }

    lemma NoCertNoLeaf(config: Path, dir: Path, kind: Kind, certs: seq<Path>)
      requires NodeDir(config, dir) && forall p :: p in certs <==> p in NodeCerts(files.Keys, dir, kind)
      requires |certs| == 0
      ensures forall p :: InDirs(config, {dir}, p) ==> !LeafPath(files.Keys, config, kind, p)
    {
      forall p | InDirs(config, {dir}, p) ensures !LeafPath(files.Keys, config, kind, p) {
        assert p !in NodeCerts(files.Keys, dir, kind);
      }
    }

    lemma FirstIsLeaf(config: Path, dir: Path, kind: Kind, certs: seq<Path>)
      requires Valid() && NodeDir(config, dir) && forall p :: p in certs <==> p in NodeCerts(files.Keys, dir, kind)
      requires |certs| > 0 && Order.Sorted(certs, PathLess)
      ensures LeafPath(files.Keys, config, kind, certs[0]) && InDirs(config, {dir}, certs[0])
      ensures forall p :: LeafPath(files.Keys, config, kind, p) && InDirs(config, {dir}, p) ==> p == certs[0]
    {
      var ps := NodeCerts(files.Keys, dir, kind);
      PathOrder();
      assert certs[0] in ps;
      assert |certs[0][|dir|..]| > 0;
      forall q | q in ps ensures !PathLess(q, certs[0]) {
        assert q in certs;
        var j :| 0 <= j < |certs| && certs[j] == q;
      }
      forall p | LeafPath(files.Keys, config, kind, p) && InDirs(config, {dir}, p) ensures p == certs[0] {
        LeastIsOne(ps, p, certs[0]);
      }
    }

    lemma LeafIs(config: Path, l: Leaf)
      requires IsLeaf(files, config, l)
      ensures LeafPath(files.Keys, config, l.kind, l.path) && l.path in files && files[l.path] == Cert(l.cert)
      ensures |l.path| > |config| + 4 && l == LeafFor(config, l.kind, l.path, l.cert)
    {
    }

    lemma SameLeaves(config: Path, dir: Path, kinds: seq<Kind>, k: nat, out: seq<Leaf>)
      requires k < |kinds| && LeavesIn(config, kinds[..k], {dir}, out)
      requires forall p :: InDirs(config, {dir}, p) ==> !LeafPath(files.Keys, config, kinds[k], p)
      ensures LeavesIn(config, kinds[..k+1], {dir}, out)
    {
      hide LeafPath, IsLeaf;
      forall m: Leaf | m.kind in kinds[..k+1] && IsLeaf(files, config, m) && InDirs(config, {dir}, m.path) ensures m in out {
        LeafIs(config, m);
      }
    }

    lemma OneMoreLeaf(config: Path, dir: Path, kinds: seq<Kind>, k: nat, out: seq<Leaf>, l: Leaf)
      requires k < |kinds| && forall i, j :: 0 <= i < j < |kinds| ==> kinds[i] != kinds[j]
      requires LeavesIn(config, kinds[..k], {dir}, out)
      requires l.kind == kinds[k] && IsLeaf(files, config, l) && InDirs(config, {dir}, l.path)
      requires forall p :: LeafPath(files.Keys, config, l.kind, p) && InDirs(config, {dir}, p) ==> p == l.path
      ensures LeavesIn(config, kinds[..k+1], {dir}, out + [l])
    {
      hide LeafPath, IsLeaf;
      LeafIs(config, l);
      forall m: Leaf | m.kind in kinds[..k+1] && IsLeaf(files, config, m) && InDirs(config, {dir}, m.path) ensures m in out + [l] {
        LeafIs(config, m);
        if m.kind == l.kind {
          assert m.path == l.path;
        } else {
          assert m in out;
        }
      }
      forall i | 0 <= i < |out| ensures out[i].path != l.path {
        assert out[i] in out && out[i].kind in kinds[..k];
        LeafIs(config, out[i]);
        KindsApart(files.Keys, config, out[i].kind, l.kind, l.path);
      }
    }

    lemma KindsApart(dom: set<Path>, config: Path, kind: Kind, other: Kind, p: Path)
      requires kind != other && LeafPath(dom, config, other, p)
      ensures !LeafPath(dom, config, kind, p)
    {
      if LeafPath(dom, config, SignCert, p) {
        LeafKind(dom, config, p);
      }
    }

    /** The nodes under one parent directory of an org, in the order of their paths. */
    method DiscoverUnder(config: Path, parent: string, kinds: seq<Kind>) returns (r: Result<seq<Leaf>, Error>)
      requires Valid() && forall i, j :: 0 <= i < j < |kinds| ==> kinds[i] != kinds[j]
      ensures r.Success? ==> LeavesIn(config, kinds, Below(config, [parent]), r.value) && InOrder(config, kinds, r.value)
      ensures r.Failure? ==> !AllParse(files, config, kinds) && BadAmong(files, config, kinds, r.error)
    {
      hide LeafPath, IsLeaf, NodeDir, LeavesIn, InOrder, CleanPath, CleanTree;
      var out: seq<Leaf> := [];
      var dirs := Sorted(Below(config, [parent]));
      EmptyLeaves(config, kinds);
      assert SetOf(dirs[..0]) == {};
      for k := 0 to |dirs|
        invariant LeavesIn(config, kinds, SetOf(dirs[..k]), out) && InOrder(config, kinds, out)
      {
        BelowIs(config, parent, dirs[k]);
        var ls := DiscoverNode(config, dirs[k], kinds);
        if ls.Failure? {
          return Failure(ls.error);
        }
        assert SetOf(dirs[..k]) !! {dirs[k]} && SetOf(dirs[..k+1]) == SetOf(dirs[..k]) + {dirs[k]};
        LeavesConcat(config, kinds, SetOf(dirs[..k]), out, {dirs[k]}, ls.value);
        LaterDir(config, parent, kinds, dirs, k, out, ls.value);
        out := out + ls.value;
      }
      assert SetOf(dirs[..|dirs|]) == Below(config, [parent]);
      return Success(out);
    }

    function SetOf(ps: seq<Path>): set<Path> {
      set p | p in ps
    }

    lemma BelowIs(config: Path, parent: string, dir: Path)
      requires Valid() && dir in Below(config, [parent])
      ensures NodeDir(config, dir) && |dir| == |config| + 4 && dir[|config|+2] == parent && CleanPath(dir)
    {
      var p :| p in files && |p| > |config| + 4 && NodeDir(config, p[..|config|+4]) && p[|config|+2] == parent && p[..|config|+4] == dir;
      assert CleanPath(p);
      assert forall c :: c in dir ==> c in p;
    }

    /** The leaves of a directory are found after those of the directories before. */
    lemma LaterDir(config: Path, parent: string, kinds: seq<Kind>, dirs: seq<Path>, k: nat, out: seq<Leaf>, ls: seq<Leaf>)
      requires Valid() && k < |dirs| && Order.Sorted(dirs, PathLess) && Distinct(dirs)
      requires forall p :: p in dirs <==> p in Below(config, [parent])
      requires LeavesIn(config, kinds, SetOf(dirs[..k]), out) && LeavesIn(config, kinds, {dirs[k]}, ls)
      requires InOrder(config, kinds, out) && InOrder(config, kinds, ls)
      ensures InOrder(config, kinds, out + ls)
    {
      hide LeafPath, IsLeaf, NodeDir, InOrder, PathLess, Below, CleanTree, CleanPath;
      var n := |config| + 4;
      forall l, m | l in out && m in ls ensures FoundBefore(config, kinds, l, m) {
        var i :| 0 <= i < k && dirs[i] == l.path[..n];
        assert m.path[..n] == dirs[k];
        assert dirs[i] in dirs && dirs[k] in dirs;
        BelowIs(config, parent, dirs[i]);
        BelowIs(config, parent, dirs[k]);
        PathTotal(dirs[i], dirs[k]);
        assert l.path[n-2] == dirs[i][n-2] && m.path[n-2] == dirs[k][n-2];
      }
      InOrderConcat(config, kinds, out, ls);
    }

    lemma BelowMore(config: Path, k: nat)
      requires k < |NODE_PARENTS|
      ensures Below(config, NODE_PARENTS[..k]) !! Below(config, [NODE_PARENTS[k]])
      ensures Below(config, NODE_PARENTS[..k+1]) == Below(config, NODE_PARENTS[..k]) + Below(config, [NODE_PARENTS[k]])
    {
      hide NodeDir;
      var n := |config|;
      forall dir, parents | dir in Below(config, parents) ensures |dir| == n + 4 && dir[n+2] in parents {
      }
      forall dir | dir in Below(config, NODE_PARENTS[..k+1])
        ensures dir in Below(config, NODE_PARENTS[..k]) || dir in Below(config, [NODE_PARENTS[k]])
      {
        var p :| p in files && |p| > n + 4 && NodeDir(config, p[..n+4]) && p[n+2] in NODE_PARENTS[..k+1] && p[..n+4] == dir;
      }
    }

    method Discover(config: Path, kinds: seq<Kind>) returns (r: Result<seq<Leaf>, Error>)
      requires Valid() && forall i, j :: 0 <= i < j < |kinds| ==> kinds[i] != kinds[j]
      ensures r.Success? ==> LeavesAre(files, config, kinds, r.value) && InOrder(config, kinds, r.value)
      ensures r.Success? <==> AllParse(files, config, kinds)
      ensures r.Failure? ==> BadAmong(files, config, kinds, r.error)
    {
      hide LeafPath, IsLeaf, NodeDir, LeavesIn, AllParse, InOrder;
      var out: seq<Leaf> := [];
      EmptyLeaves(config, kinds);
      assert Below(config, NODE_PARENTS[..0]) == {};
      for k := 0 to |NODE_PARENTS|
        invariant LeavesIn(config, kinds, Below(config, NODE_PARENTS[..k]), out) && InOrder(config, kinds, out)
      {
        var ls := DiscoverUnder(config, NODE_PARENTS[k], kinds);
        if ls.Failure? {
          return Failure(ls.error);
        }
        BelowMore(config, k);
        LeavesConcat(config, kinds, Below(config, NODE_PARENTS[..k]), out, Below(config, [NODE_PARENTS[k]]), ls.value);
        LaterParent(config, kinds, k, out, ls.value);
        out := out + ls.value;
      }
      EveryLeaf(config, kinds, out);
      return Success(out);
    }

    lemma ParentOf(config: Path, parents: seq<string>, p: Path)
      requires InDirs(config, Below(config, parents), p)
      ensures |p| > |config| + 4 && p[|config|+2] in parents
    {
      hide NodeDir;
      var n := |config| + 4;
      var q :| q in files && |q| > n && NodeDir(config, q[..n]) && q[n-2] in parents && q[..n] == p[..n];
      assert q[..n][n-2] == p[..n][n-2];
    }

    lemma ParentRanks(k: nat, parent: string)
      requires k < |NODE_PARENTS| && parent in NODE_PARENTS[..k]
      ensures parent != NODE_PARENTS[k] && ParentRank(parent) < ParentRank(NODE_PARENTS[k])
    {
      assert |"peers"| == 5 && |"orderers"| == 8 && |"users"| == 5 && "peers"[0] != "users"[0];
    }

    lemma LaterParent(config: Path, kinds: seq<Kind>, k: nat, out: seq<Leaf>, ls: seq<Leaf>)
      requires k < |NODE_PARENTS|
      requires LeavesIn(config, kinds, Below(config, NODE_PARENTS[..k]), out)
      requires LeavesIn(config, kinds, Below(config, [NODE_PARENTS[k]]), ls)
      requires InOrder(config, kinds, out) && InOrder(config, kinds, ls)
      ensures InOrder(config, kinds, out + ls)
    {
      hide LeafPath, IsLeaf, NodeDir, InOrder, PathLess, Below, InDirs, ParentRank;
      forall l, m | l in out && m in ls ensures FoundBefore(config, kinds, l, m) {
        ParentOf(config, NODE_PARENTS[..k], l.path);
        ParentOf(config, [NODE_PARENTS[k]], m.path);
        ParentRanks(k, l.path[|config|+2]);
      }
      InOrderConcat(config, kinds, out, ls);
    }

    lemma EveryLeaf(config: Path, kinds: seq<Kind>, out: seq<Leaf>)
      requires LeavesIn(config, kinds, Below(config, NODE_PARENTS[..|NODE_PARENTS|]), out)
      ensures LeavesAre(files, config, kinds, out) && AllParse(files, config, kinds)
    {
      var dirs := Below(config, NODE_PARENTS[..|NODE_PARENTS|]);
      forall kind, p | LeafPath(files.Keys, config, kind, p) ensures InDirs(config, dirs, p) {
        assert p in files && NodeDir(config, p[..|config|+4]);
      }
      forall l | IsLeaf(files, config, l) ensures InDirs(config, dirs, l.path) {
      }
    }

    /******* Reissue *******/

    method NodeMatches(node: string, patterns: seq<string>) returns (found: bool)
      ensures found <==> MatchesAny(node, patterns)
    {
      for i := 0 to |patterns|
        invariant forall j :: 0 <= j < i ==> !Matches(node, patterns[j])
      {
        if node == patterns[i] || patterns[i] + "." <= node {
          assert patterns[i] in patterns;
          return true;
        }
      }
      return false;
    }

    /** The patterns of --node that match no leaf. */
    method UnmatchedNodes(nodes: seq<string>, leaves: seq<Leaf>) returns (unmatched: seq<string>)
      ensures unmatched == [] <==> forall i :: 0 <= i < |nodes| ==> MatchesSome(leaves, nodes[i])
      ensures forall p :: p in unmatched <==> p in nodes && !MatchesSome(leaves, p)
    {
      unmatched := [];
      for i := 0 to |nodes|
        invariant forall p :: p in unmatched <==> p in nodes[..i] && !MatchesSome(leaves, p)
      {
        var found := false;
        for k := 0 to |leaves|
          invariant !found && forall j :: 0 <= j < k ==> !Matches(leaves[j].node, nodes[i])
        {
          found := NodeMatches(leaves[k].node, [nodes[i]]);
          if found {
            assert leaves[k] in leaves && Matches(leaves[k].node, nodes[i]);
            break;
          }
          assert nodes[i] in [nodes[i]];
        }
        if !found {
          unmatched := unmatched + [nodes[i]];
        }
      }
      assert nodes[..|nodes|] == nodes;
      if unmatched == [] {
        forall i | 0 <= i < |nodes| ensures MatchesSome(leaves, nodes[i]) {
          assert nodes[i] !in unmatched;
        }
      } else {
        assert unmatched[0] in unmatched;
        ghost var i :| 0 <= i < |nodes| && nodes[i] == unmatched[0];
        assert !MatchesSome(leaves, nodes[i]);
      }
    }

    method IsSelected(o: Options, now: int, l: Leaf) returns (b: bool)
      ensures b <==> Selected(o, now, l)
    {
      if |o.nodes| > 0 {
        var matched := NodeMatches(l.node, o.nodes);
        if !matched {
          return false;
        }
      }
      b := (o.all || o.allExpired || |o.nodes| > 0) && (!o.allExpired || l.cert.notAfter * SECOND <= now);
    }

    /** The selected leaves, in the order of the listing. */
    method Select(o: Options, now: int, leaves: array<Leaf>) returns (targets: seq<Leaf>)
      requires forall i, j :: 0 <= i < j < leaves.Length ==> leaves[i].path != leaves[j].path
      requires Order.Sorted(leaves[..], LeafLess)
      ensures Order.Sorted(targets, LeafLess)
      ensures forall l :: l in targets <==> l in leaves[..] && Selected(o, now, l)
      ensures forall i, j :: 0 <= i < j < |targets| ==> targets[i].path != targets[j].path
    {
      hide Selected, LeafLess;
      targets := [];
      for k := 0 to leaves.Length
        invariant forall l :: l in targets <==> l in leaves[..k] && Selected(o, now, l)
        invariant Order.Sorted(targets, LeafLess)
        invariant forall i, j :: 0 <= i < j < |targets| ==> targets[i].path != targets[j].path
      {
        var selected := IsSelected(o, now, leaves[k]);
        if selected {
          forall i | 0 <= i < |targets| ensures targets[i].path != leaves[k].path && !LeafLess(leaves[k], targets[i]) {
            assert targets[i] in targets;
            ghost var j :| 0 <= j < k && leaves[j] == targets[i];
            assert !LeafLess(leaves[..][k], leaves[..][j]);
          }
          targets := targets + [leaves[k]];
        }
      }
      assert leaves[..leaves.Length] == leaves[..];
    }

    /** The targets one by one: a refused one is skipped, another error ends the run. */
    method ReissueAll(targets: seq<Leaf>, o: Options, now: int) returns (r: Result<(), Error>, ghost outs: seq<Outcome>)
      requires Valid() && ProperTargets(files, o.config, targets)
      modifies this
      ensures Valid() && Progress(old(files), files, o, now, targets, outs)
      ensures Ended(files.Keys, nameMax, targets, outs)
      ensures r == Failure(NeverReturns) <==> Hangs(outs)
      ensures r.Success? <==> |outs| == |targets| && AllDone(outs)
    {
      hide Progress, ProperTargets, CleanTree, MustRefuse, RenewalOf, FreshBackup, Written, LeafCert, CleanPath, AllDone;
      hide SearchEnds, Cramped;
      var failures := 0;
      outs := [];
      NoProgress(files, o, now, targets);
      AllDoneMore([], Done);
      for k := 0 to |targets|
        invariant Valid() && Progress(old(files), files, o, now, targets, outs) && |outs| == k
        invariant forall i :: 0 <= i < k ==> !Last(outs[i])
        invariant failures >= 0 && (failures == 0 <==> AllDone(outs))
      {
        NextIsUntouched(old(files), files, o, now, targets, outs);
        CleanAt(targets[k].path);
        ghost var before := files;
        var out;
        ghost var bak, c;
        out, bak, c := ReissueOne(targets[k], o, now);
        MoreProgress(old(files), before, o, now, targets, outs, out, bak, c, files);
        AllDoneMore(outs, out);
        outs := outs + [out];
        if out == Endless {
          CrampedName(before.Keys, targets[k].path);
          return Failure(NeverReturns), outs;
        }
        if out == Stopped {
          return Failure(Io), outs;
        }
        if out == Skipped {
          failures := failures + 1;
        }
      }
      r := if failures > 0 then Failure(Failures(failures)) else Success(());
    }

    lemma CrampedName(dom: set<Path>, p: Path)
      requires p != []
      ensures (exists ts :: IsClock(ts) && !SearchEnds(dom, nameMax, p, ts)) ==> Cramped(dom, nameMax, p)
    {
      hide SearchEnds;
      forall ts | IsClock(ts) && !SearchEnds(dom, nameMax, p, ts) ensures !RoomForBackup(dom, nameMax, p, ts) {
        if RoomForBackup(dom, nameMax, p, ts) {
          RoomIsEnough(dom, nameMax, p, ts);
        }
      }
    }

    lemma CleanAt(p: Path)
      requires Valid() && p in files
      ensures CleanPath(p)
    {
    }

    /** The leaves in the order of the listing, and of them the selected ones. */
    method ChooseTargets(o: Options, now: int, kinds: seq<Kind>, found: seq<Leaf>) returns (targets: seq<Leaf>)
      requires Covers(o.kind, kinds) && LeavesAre(files, o.config, kinds, found)
      ensures forall l :: l in targets <==> IsTarget(files, o, now, l)
      ensures Order.Sorted(targets, LeafLess) && ProperTargets(files, o.config, targets)
    {
      hide IsLeaf, Selected, Wanted, LeafLess, IsTarget;
      var leaves := new Leaf[|found|](i requires 0 <= i < |found| => found[i]);
      assert leaves[..] == found;
      LeafOrder();
      Sort(leaves, LeafLess);
      Shuffled(o.config, kinds, found, leaves[..]);
      targets := Select(o, now, leaves);
      ChosenAreTargets(o, now, kinds, leaves[..], targets);
    }

    method KindsOf(asked: string) returns (kinds: seq<Kind>)
      ensures Covers(asked, kinds) && (kinds == [] <==> !WantsSome(asked))
      ensures forall i, j :: 0 <= i < j < |kinds| ==> kinds[i] != kinds[j]
    {
      assert |"tls"| == 3 && |"signcert"| == 8 && |""| == 0 && |"both"| == 4;
      kinds := [];
      if asked == "" || asked == "both" {
        kinds := [SignCert, TLS];
      } else if asked == "signcert" {
        kinds := [SignCert];
      } else if asked == "tls" {
        kinds := [TLS];
      }
      forall kind ensures kind in kinds <==> Wanted(asked, kind) {
        assert kind == SignCert || kind == TLS;
      }
      assert kinds == [] || kinds[0] in kinds;
    }

    method Reissue(o: Options) returns (r: Result<(), Error>, ghost now: int, ghost targets: seq<Leaf>, ghost outs: seq<Outcome>)
      requires Valid()
      modifies this
      ensures Valid() && (o.now.Some? ==> now == o.now.value)
      // A bad option, a leaf that does not parse or a mistyped node writes nothing.
      ensures !CanStart(old(files), o) ==>
                r.Failure? && Rejects(old(files), o, r.error) && files == old(files) && targets == [] && outs == []
      // Otherwise the targets are exactly the selected leaves, and nil means that all were reissued.
      ensures CanStart(old(files), o) ==> forall l :: l in targets <==> IsTarget(old(files), o, now, l)
      ensures forall i, j :: 0 <= i < j < |targets| ==> ListedBefore(targets[i], targets[j])
      ensures CanStart(old(files), o) ==>
                (r.Success? <==> |outs| == |targets| && AllDone(outs))
      // A refused target does not stop the later ones, and a run that hangs is short of room.
      ensures Ended(files.Keys, nameMax, targets, outs)
      ensures r == Failure(NeverReturns) <==> Hangs(outs)
      // What each outcome means, and what else may change.
      ensures Progress(old(files), files, o, now, targets, outs)
      // --type, by where the certificates are.
      ensures forall l :: l in targets ==> OfType(o.kind, l.path)
      ensures forall p :: p in old(files) && At(files, p) != Some(old(files)[p]) ==> OfType(o.kind, p)
      ensures CanStart(old(files), o) && o.all && !o.allExpired && o.nodes == [] ==>
                forall l :: IsLeaf(old(files), o.config, l) && OfType(o.kind, l.path) ==> l in targets
      // Convergence of --all-expired.
      ensures CanStart(old(files), o) && r.Success? && o.allExpired && !o.dryRun && (o.days.Some? ==> o.days.value <= MAX_DAYS) ==>
                forall l :: !IsTarget(files, o, now, l)
    {
      hide IsLeaf, LeafPath, Selected, AllParse, Parse, CleanTree, Cramped, OfType, Wanted, Known, Progress, ListedBefore, BadLeaf, BadAmong;
      targets, outs := [], [];
      var clock: int := *;
      var time := if o.now.Some? then o.now.value else clock;
      now := time;
      NoProgress(files, o, now, []);
      if o.days.Some? && o.days.value < 1 {
        return Failure(BadDays), now, targets, outs;
      }
      var kinds := KindsOf(o.kind);
      if kinds == [] {
        return Failure(BadType(o.kind)), now, targets, outs;
      }
      var found := Discover(o.config, kinds);
      ParseIs(files, o, kinds);
      if found.Failure? {
        BadIsWanted(files, o, kinds, found.error);
        return Failure(found.error), now, targets, outs;
      }
      if |found.value| == 0 {
        return Failure(NoLeaves), now, targets, outs;
      }
      assert found.value[0] in found.value;
      NodesKnown(o, kinds, found.value);
      var unmatched := UnmatchedNodes(o.nodes, found.value);
      if |unmatched| > 0 {
        assert unmatched[0] in unmatched;
        return Failure(Unmatched(unmatched)), now, targets, outs;
      }
      assert CanStart(files, o);
      var chosen := ChooseTargets(o, time, kinds, found.value);
      targets := chosen;
      InListingOrder(chosen);
      TargetsOfType(o, time, chosen);
      r, outs := ReissueAll(chosen, o, time);
      ChangedOfType(old(files), files, o, now, targets, outs);
      if r.Success? && o.allExpired && !o.dryRun && (o.days.Some? ==> o.days.value <= MAX_DAYS) {
        NothingExpired(old(files), files, o, now, targets, outs);
      }
    }

    lemma NodesKnown(o: Options, kinds: seq<Kind>, ls: seq<Leaf>)
      requires Covers(o.kind, kinds) && LeavesAre(files, o.config, kinds, ls)
      ensures forall p :: Known(files, o, p) <==> MatchesSome(ls, p)
      ensures (exists l: Leaf :: Wanted(o.kind, l.kind) && IsLeaf(files, o.config, l)) <==> ls != []
    {
      hide IsLeaf, Wanted;
      if ls != [] {
        assert ls[0] in ls;
      }
    }

    lemma TargetsOfType(o: Options, now: int, targets: seq<Leaf>)
      requires forall l :: l in targets <==> IsTarget(files, o, now, l)
      ensures forall l :: l in targets ==> OfType(o.kind, l.path)
      ensures WantsSome(o.kind) && o.all && !o.allExpired && o.nodes == [] ==>
                forall l :: IsLeaf(files, o.config, l) && OfType(o.kind, l.path) ==> l in targets
    {
      hide IsLeaf, OfType, Wanted;
      forall l | IsLeaf(files, o.config, l)
        ensures Wanted(o.kind, l.kind) ==> OfType(o.kind, l.path)
        ensures WantsSome(o.kind) && OfType(o.kind, l.path) ==> Wanted(o.kind, l.kind)
      {
        TypeIs(files, o, l);
      }
    }

    lemma Shuffled(config: Path, kinds: seq<Kind>, ls: seq<Leaf>, sorted: seq<Leaf>)
      requires LeavesAre(files, config, kinds, ls) && multiset(sorted) == multiset(ls)
      ensures LeavesAre(files, config, kinds, sorted)
    {
      hide IsLeaf;
      SameMembers(ls, sorted);
      SortedDistinct(ls, sorted);
      forall i, j | 0 <= i < j < |sorted| ensures sorted[i].path != sorted[j].path {
        assert sorted[i] in ls && sorted[j] in ls;
      }
    }

    lemma ChosenAreTargets(o: Options, now: int, kinds: seq<Kind>, ls: seq<Leaf>, chosen: seq<Leaf>)
      requires Covers(o.kind, kinds) && LeavesAre(files, o.config, kinds, ls)
      requires forall l :: l in chosen <==> l in ls && Selected(o, now, l)
      requires forall i, j :: 0 <= i < j < |chosen| ==> chosen[i].path != chosen[j].path
      ensures forall l :: l in chosen <==> IsTarget(files, o, now, l)
      ensures ProperTargets(files, o.config, chosen)
    {
      hide IsLeaf, Selected, Wanted;
    }
  }
}
