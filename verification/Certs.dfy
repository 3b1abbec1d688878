/**
 The certificates of a crypto-config tree: where the leaves are, which CA issued
 them, and how one is dated and signed again.  A path is the list of its
 components, a certificate the record of its fields, and a time a number of
 nanoseconds, of which a certificate keeps the whole seconds.
 */
module Certs {
  import opened Wrappers
  import opened Decimal
  import opened Order
  import opened Strings

  type Path = seq<string>

  datatype Algorithm = ECDSA | RSA | ED25519

  datatype PublicKey = PublicKey(alg: Algorithm, bits: string)

  datatype Signature = ECDSAWithSHA256(signer: PublicKey) | SHA256WithRSA(signer: PublicKey) | PureEd25519(signer: PublicKey)

  /** notBefore, notAfter: in seconds. */
  datatype Certificate = Certificate(subject: string, issuer: string, pub: PublicKey, extensions: string,
                                     serial: nat, notBefore: int, notAfter: int, signature: Signature)

  /** A file's content.  Opaque: it parses as neither.  Unreadable: reading it fails. */
  datatype Content = Cert(cert: Certificate) | Key(pub: PublicKey) | Opaque(bytes: string) | Unreadable

  type Tree = map<Path, Content>

  datatype Kind = SignCert | TLS

  datatype Leaf = Leaf(cert: Certificate, node: string, org: string, kind: Kind, path: Path, caDir: Path)

  datatype Issuer = Issuer(cert: Certificate, key: PublicKey)

  /** Refused: ErrReissue, the leaf cannot be reissued safely.
      NeverReturns stands for no error: the program does not come back. */
  datatype Error =
    | BadDays
    | BadType(given: string)
    | Io
    | Malformed(path: Path)
    | NoLeaves
    | Unmatched(patterns: seq<string>)
    | Refused
    | Failures(count: nat)
    | NeverReturns

  /******* Paths *******/

  /** Components are separated by slashes, so no component has one. */
  predicate CleanPath(p: Path) {
    p != [] && forall c :: c in p ==> '/' !in c
  }

  predicate CleanTree(f: Tree) {
    forall p :: p in f ==> CleanPath(p)
  }

  function Text(p: Path): string {
    Join(p, "/")
  }

  predicate PathLess(p: Path, q: Path) {
    StrLess(Text(p), Text(q))
  }

  lemma PathOrder()
    ensures WeakOrder(PathLess)
  {
    forall p: Path, q: Path ensures PathLess(p, q) ==> !PathLess(q, p) {
      StrLessAsymmetric(Text(p), Text(q));
    }
    forall p: Path, q: Path, r: Path ensures PathLess(p, r) ==> PathLess(p, q) || PathLess(q, r) {
      StrLessBetween(Text(p), Text(q), Text(r));
    }
  }

  /** Different paths have different texts. */
  lemma TextInjective(p: Path, q: Path)
    requires CleanPath(p) && CleanPath(q) && Text(p) == Text(q)
    ensures p == q
  {
    hide Split, Join;
    SplitJoin(p, '/');
    SplitJoin(q, '/');
  }

  lemma PathTotal(p: Path, q: Path)
    requires CleanPath(p) && CleanPath(q)
    ensures p == q || PathLess(p, q) || PathLess(q, p)
  {
    StrLessTotal(Text(p), Text(q));
    if Text(p) == Text(q) {
      TextInjective(p, q);
    }
  }

  /** The files of a directory whose name ends in suffix. */
  function InDir(dom: set<Path>, dir: Path, suffix: string): set<Path> {
    set p | p in dom && |p| == |dir| + 1 && p[..|dir|] == dir && HasSuffix(p[|dir|], suffix)
  }

  /** The files of a directory whose name is anything and the suffix. */
  lemma InDirIff(dom: set<Path>, dir: Path, suffix: string, p: Path)
    ensures p in InDir(dom, dir, suffix) <==> p in dom && exists stem :: p == dir + [stem + suffix]
  {
    if p in InDir(dom, dir, suffix) {
      var name := p[|dir|];
      var stem := name[..|name|-|suffix|];
      assert name == stem + name[|name|-|suffix|..];
      assert p == p[..|dir|] + [name] == dir + [stem + suffix];
    }
    if p in dom && exists stem :: p == dir + [stem + suffix] {
      var stem :| p == dir + [stem + suffix];
      assert p[|dir|] == stem + suffix && (stem + suffix)[|stem|..] == suffix;
    }
  }

  /** The first of these paths in the order of sort.Strings. */
  predicate Least(ps: set<Path>, p: Path) {
    p in ps && forall q :: q in ps ==> !PathLess(q, p)
  }

  lemma LeastIsOne(ps: set<Path>, p: Path, q: Path)
    requires Least(ps, p) && Least(ps, q) && CleanPath(p) && CleanPath(q)
    ensures p == q
  {
    PathTotal(p, q);
  }

  /******* Leaves *******/

  const NODE_PARENTS := ["peers", "orderers", "users"]

  function ParentRank(parent: string): nat {
    if parent == "peers" then 0 else if parent == "orderers" then 1 else 2
  }

  /** config/<any>Organizations/<org>/<parent>/<node> */
  predicate NodeDir(config: Path, dir: Path) {
    var n := |config|;
    && |dir| == n + 4 && dir[..n] == config
    && HasSuffix(dir[n], "Organizations")
    && dir[n+2] in NODE_PARENTS
  }

  /** msp/signcerts/<any>.pem, tls/server.crt */
  predicate CertGlob(kind: Kind, tail: Path) {
    match kind
    case SignCert => |tail| == 3 && tail[0] == "msp" && tail[1] == "signcerts" && HasSuffix(tail[2], ".pem")
    case TLS => tail == ["tls", "server.crt"]
  }

  function CaSubdir(kind: Kind): string {
    match kind
    case SignCert => "ca"
    case TLS => "tlsca"
  }

  function NodeCerts(dom: set<Path>, dir: Path, kind: Kind): set<Path> {
    set p | p in dom && |dir| <= |p| && p[..|dir|] == dir && CertGlob(kind, p[|dir|..])
  }

  /** p is the certificate that Discover takes for a node and a kind. */
  predicate LeafPath(dom: set<Path>, config: Path, kind: Kind, p: Path) {
    var n := |config| + 4;
    |p| > n && NodeDir(config, p[..n]) && Least(NodeCerts(dom, p[..n], kind), p)
  }

  predicate LeafCert(dom: set<Path>, config: Path, p: Path) {
    LeafPath(dom, config, SignCert, p) || LeafPath(dom, config, TLS, p)
  }

  function LeafFor(config: Path, kind: Kind, p: Path, cert: Certificate): Leaf
    requires |p| > |config| + 4
  {
    var n := |config|;
    Leaf(cert, p[n+3], p[n+1], kind, p, p[..n+2] + [CaSubdir(kind)])
  }

  /** What Discover makes of that certificate. */
  predicate IsLeaf(f: Tree, config: Path, l: Leaf) {
    && LeafPath(f.Keys, config, l.kind, l.path)
    && f[l.path] == Cert(l.cert)
    && l == LeafFor(config, l.kind, l.path, l.cert)
  }

  /** A leaf's place in the tree, and its CA's, written out. */
  predicate PlacedAt(dom: set<Path>, config: Path, group: string, parent: string, l: Leaf) {
    && HasSuffix(group, "Organizations") && parent in ["peers", "orderers", "users"]
    && l.path in dom
    && if l.kind == TLS then
         && l.path == config + [group, l.org, parent, l.node, "tls", "server.crt"]
         && l.caDir == config + [group, l.org, "tlsca"]
       else
         && FirstPem(dom, config + [group, l.org, parent, l.node, "msp", "signcerts"], l.path)
         && l.caDir == config + [group, l.org, "ca"]
  }

  predicate FirstPem(dom: set<Path>, dir: Path, p: Path) {
    && |p| == |dir| + 1 && p[..|dir|] == dir && HasSuffix(p[|dir|], ".pem")
    && forall q :: q in dom && |q| == |dir| + 1 && q[..|dir|] == dir && HasSuffix(q[|dir|], ".pem") ==> !PathLess(q, p)
  }

  /** The leaves are the server certificates and the first signing certificates of
      the nodes of peers, orderers and users. */
  lemma {:induction false} LeafIff(f: Tree, config: Path, l: Leaf)
    ensures IsLeaf(f, config, l) <==>
            l.path in f && f[l.path] == Cert(l.cert) && exists group, parent :: PlacedAt(f.Keys, config, group, parent, l)
  {
    if IsLeaf(f, config, l) {
      LeafIsPlaced(f, config, l);
    }
    if l.path in f && f[l.path] == Cert(l.cert) && exists group, parent :: PlacedAt(f.Keys, config, group, parent, l) {
      var group, parent :| PlacedAt(f.Keys, config, group, parent, l);
      PlacedIsLeaf(f, config, group, parent, l);
    }
  }

  lemma LeafIsPlaced(f: Tree, config: Path, l: Leaf)
    requires IsLeaf(f, config, l)
    ensures PlacedAt(f.Keys, config, l.path[|config|], l.path[|config|+2], l)
  {
    hide PathLess, Least, FirstPem, NodeCerts, NodeDir;
    var n, p := |config|, l.path;
    var node := p[..n+4];
    NodePath(config, p);
    LeastIff(f.Keys, node, l.kind, p);
    assert p[n..n+4] == [p[n], p[n+1], p[n+2], p[n+3]];
    assert config + [p[n], p[n+1], p[n+2], p[n+3], "tls", "server.crt"] == node + ["tls", "server.crt"];
    assert config + [p[n], p[n+1], p[n+2], p[n+3], "msp", "signcerts"] == node + ["msp", "signcerts"];
    assert p[..n+2] + [CaSubdir(l.kind)] == config + [p[n], p[n+1], CaSubdir(l.kind)];
  }

  lemma PlacedIsLeaf(f: Tree, config: Path, group: string, parent: string, l: Leaf)
    requires PlacedAt(f.Keys, config, group, parent, l) && f[l.path] == Cert(l.cert)
    ensures IsLeaf(f, config, l)
  {
    hide PathLess, Least, FirstPem, NodeCerts, CertGlob;
    var n, p, node := |config|, l.path, config + [group, l.org, parent, l.node];
    assert config + [group, l.org, parent, l.node, "tls", "server.crt"] == node + ["tls", "server.crt"];
    assert config + [group, l.org, parent, l.node, "msp", "signcerts"] == node + ["msp", "signcerts"];
    LeastIff(f.Keys, node, l.kind, p);
    BelowNode(node, l.kind, f.Keys, p);
    NodeParts(config, [group, l.org, parent, l.node], p);
  }

  /** The path of a node directory, part by part. */
  lemma NodeParts(config: Path, parts: seq<string>, p: Path)
    requires |parts| == 4 && |p| > |config| + 4 && p[..|config|+4] == config + parts
    ensures
      var n := |config|;
      && p[n] == parts[0] && p[n+1] == parts[1] && p[n+2] == parts[2] && p[n+3] == parts[3]
      && p[..n+4][..n] == config && p[..n+4][n] == parts[0] && p[..n+4][n+2] == parts[2]
      && p[..n+2] == config + [parts[0], parts[1]]
  {
    var n := |config|;
    forall i | 0 <= i < n + 4 ensures p[i] == (config + parts)[i] {
      assert p[i] == p[..n+4][i];
    }
  }

  lemma BelowNode(node: Path, kind: Kind, dom: set<Path>, p: Path)
    requires Least(NodeCerts(dom, node, kind), p)
    ensures |p| > |node| && p[..|node|] == node
  {
  }

  /** The certificate of a node and a kind, by its place. */
  lemma LeastIff(dom: set<Path>, node: Path, kind: Kind, p: Path)
    ensures Least(NodeCerts(dom, node, kind), p) <==>
            p in dom && if kind == TLS then p == node + ["tls", "server.crt"] else FirstPem(dom, node + ["msp", "signcerts"], p)
  {
    hide PathLess;
    var ps := NodeCerts(dom, node, kind);
    if kind == TLS {
      forall q ensures q in ps <==> q in dom && q == node + ["tls", "server.crt"] {
        if q in ps {
          assert q == q[..|node|] + q[|node|..];
        }
      }
      NotLessThanItself(p);
    } else {
      var dir := node + ["msp", "signcerts"];
      forall q ensures q in ps <==> q in dom && |q| == |dir| + 1 && q[..|dir|] == dir && HasSuffix(q[|dir|], ".pem") {
        if q in ps {
          SignPath(node, q);
        }
        if |q| == |dir| + 1 && q[..|dir|] == dir && HasSuffix(q[|dir|], ".pem") {
          PemIsSign(node, q);
        }
      }
    }
  }

  lemma NotLessThanItself(p: Path)
    ensures !PathLess(p, p)
  {
    StrLessAsymmetric(Text(p), Text(p));
  }

  lemma NodePath(config: Path, p: Path)
    requires |p| > |config| + 4 && NodeDir(config, p[..|config|+4])
    ensures var n := |config|; p[..n+4] == config + [p[n], p[n+1], p[n+2], p[n+3]] && p[..n+2] == config + [p[n], p[n+1]]
    ensures HasSuffix(p[|config|], "Organizations") && p[|config|+2] in NODE_PARENTS
  {
    var n := |config|;
    assert p[..n+4][..n] == p[..n] && p[..n+4][n] == p[n] && p[..n+4][n+2] == p[n+2];
  }

  /** The path of a signing certificate below its node, both ways. */
  lemma SignPath(node: Path, p: Path)
    requires |node| <= |p| && p[..|node|] == node && CertGlob(SignCert, p[|node|..])
    ensures var dir := node + ["msp", "signcerts"]; |p| == |dir| + 1 && p[..|dir|] == dir && HasSuffix(p[|dir|], ".pem")
  {
    var n := |node|;
    assert p[n..][0] == p[n] && p[n..][1] == p[n+1] && p[n..][2] == p[n+2];
    assert p[..n+2] == p[..n] + [p[n], p[n+1]];
  }

  lemma PemIsSign(node: Path, p: Path)
    requires var dir := node + ["msp", "signcerts"]; |p| == |dir| + 1 && p[..|dir|] == dir && HasSuffix(p[|dir|], ".pem")
    ensures p[..|node|] == node && CertGlob(SignCert, p[|node|..])
  {
    var n, dir := |node|, node + ["msp", "signcerts"];
    assert p[n] == p[..|dir|][n] == dir[n] && p[n+1] == p[..|dir|][n+1] == dir[n+1];
    assert p[..n] == p[..|dir|][..n] == node;
  }

  function At(f: Tree, p: Path): Option<Content> {
    if p in f then Some(f[p]) else None
  }

  function Load(f: Tree, p: Path): Result<Certificate, Error> {
    if p !in f || f[p].Unreadable? then Failure(Io)
    else if f[p].Cert? then Success(f[p].cert)
    else Failure(Malformed(p))
  }

  /** Leaves of different kinds or of different nodes are different files. */
  lemma LeafKind(dom: set<Path>, config: Path, p: Path)
    requires LeafPath(dom, config, SignCert, p)
    ensures !LeafPath(dom, config, TLS, p)
  {
  }

  /******* The issuing CA *******/

  predicate OtherSubject(f: Tree, q: Path, issuer: string) {
    q in f && f[q].Cert? && f[q].cert.subject != issuer
  }

  /** ca is the first certificate of dir whose subject is this issuer, and the
      ones before it could be read. */
  predicate IssuerAt(f: Tree, dir: Path, issuer: string, ca: Path) {
    && ca in InDir(f.Keys, dir, ".pem")
    && f[ca].Cert? && f[ca].cert.subject == issuer
    && forall q :: q in InDir(f.Keys, dir, ".pem") && PathLess(q, ca) ==> OtherSubject(f, q, issuer)
  }

  predicate NoIssuer(f: Tree, dir: Path, issuer: string) {
    forall q :: q in InDir(f.Keys, dir, ".pem") ==> OtherSubject(f, q, issuer)
  }

  /** A key of dir pairs with pub; a key that cannot be read is passed over. */
  predicate HasKey(f: Tree, dir: Path, pub: PublicKey) {
    exists k :: k in InDir(f.Keys, dir, "_sk") && f[k] == Key(pub)
  }

  /** ResolveCA finds ca for this issuer... */
  ghost predicate Resolves(f: Tree, dir: Path, issuer: string, ca: Certificate) {
    exists q :: IssuerAt(f, dir, issuer, q) && f[q].cert == ca && HasKey(f, dir, ca.pub)
  }

  /** ...or refuses: no certificate matches, or the one that does has no key here. */
  ghost predicate Unresolved(f: Tree, dir: Path, issuer: string) {
    NoIssuer(f, dir, issuer) || exists q :: IssuerAt(f, dir, issuer, q) && !HasKey(f, dir, f[q].cert.pub)
  }

  lemma OneIssuer(f: Tree, dir: Path, issuer: string, p: Path, q: Path)
    requires CleanTree(f) && IssuerAt(f, dir, issuer, p) && IssuerAt(f, dir, issuer, q)
    ensures p == q
  {
    PathTotal(p, q);
  }

  lemma ResolvesOnce(f: Tree, dir: Path, issuer: string, ca: Certificate)
    requires CleanTree(f) && Resolves(f, dir, issuer, ca)
    ensures !Unresolved(f, dir, issuer)
    ensures forall other :: Resolves(f, dir, issuer, other) ==> other == ca
  {
    var p :| IssuerAt(f, dir, issuer, p) && f[p].cert == ca && HasKey(f, dir, ca.pub);
    forall q | IssuerAt(f, dir, issuer, q) ensures q == p {
      OneIssuer(f, dir, issuer, p, q);
    }
  }

  /******* Dates *******/

  const SECOND: int := 1_000_000_000
  const DAY: int := 24 * 3600 * SECOND
  const SKEW: int := 5 * 60 * SECOND

  /** int64 arithmetic wraps. */
  function Wrap64(n: int): int {
    (n + 0x8000_0000_0000_0000) % 0x1_0000_0000_0000_0000 - 0x8000_0000_0000_0000
  }

  /** The new expiry, in nanoseconds: now plus the days, capped at the CA's. */
  function NewExpiry(days: Option<int>, now: int, caExpiry: int): int {
    match days
    case None => caExpiry
    case Some(d) =>
      var requested := now + Wrap64(d * DAY);
      if requested > caExpiry then caExpiry else requested
  }

  function SignatureBy(key: PublicKey): Signature {
    match key.alg
    case ECDSA => ECDSAWithSHA256(key)
    case RSA => SHA256WithRSA(key)
    case ED25519 => PureEd25519(key)
  }

  /** Rebuild: was dated again and signed by ca's key.  clock is its own reading. */
  function Rebuilt(was: Certificate, ca: Certificate, notAfter: int, clock: int, serial: nat): Certificate {
    var notBefore := if clock - SKEW < ca.notBefore * SECOND then ca.notBefore * SECOND else clock - SKEW;
    Certificate(was.subject, ca.subject, was.pub, was.extensions, serial,
                notBefore / SECOND, notAfter / SECOND, SignatureBy(ca.pub))
  }

  /** The largest number of days whose nanoseconds an int64 holds. */
  const MAX_DAYS: int := 106751

  lemma WrapIs(n: int)
    ensures Wrap64(n) == n <==> -0x8000_0000_0000_0000 <= n < 0x8000_0000_0000_0000
    ensures exists k :: Wrap64(n) == n + k * 0x1_0000_0000_0000_0000
  {
    var m := n + 0x8000_0000_0000_0000;
    assert Wrap64(n) == n + (-(m / 0x1_0000_0000_0000_0000)) * 0x1_0000_0000_0000_0000;
  }

  lemma DaysFit(d: int)
    requires d >= 1
    ensures Wrap64(d * DAY) == d * DAY <==> d <= MAX_DAYS
  {
    WrapIs(d * DAY);
  }

  function Min(a: int, b: int): int {
    if a < b then a else b
  }

  /** The expiry of a renewed certificate is the one asked for, capped at the
      CA's, exactly when the days fit or both the true and the wrapped date
      reach the CA's. */
  lemma ExpiryIsAsked(d: int, now: int, ca: Certificate, was: Certificate, clock: int, serial: nat)
    requires d >= 1
    ensures
      var c := Rebuilt(was, ca, NewExpiry(Some(d), now, ca.notAfter * SECOND), clock, serial);
      c.notAfter == Min((now + d * DAY) / SECOND, ca.notAfter) <==>
        || d <= MAX_DAYS
        || (now + d * DAY >= ca.notAfter * SECOND && now + Wrap64(d * DAY) >= ca.notAfter * SECOND)
  {
    DaysFit(d);
    WrapIs(d * DAY);
    if d > MAX_DAYS {
      var k :| Wrap64(d * DAY) == d * DAY + k * 0x1_0000_0000_0000_0000;
      Apart(now + d * DAY, k);
    }
  }

  lemma Apart(n: int, k: int)
    requires k != 0
    ensures (n + k * 0x1_0000_0000_0000_0000) / SECOND != n / SECOND
  {
  }

  /** With days that fit, or none, and a CA that has not expired, it lies after now. */
  lemma ExpiryIsLater(days: Option<int>, now: int, caExpiry: int)
    requires days.Some? ==> 1 <= days.value <= MAX_DAYS
    requires now < caExpiry * SECOND
    ensures now < NewExpiry(days, now, caExpiry * SECOND) / SECOND * SECOND
  {
    if days.Some? {
      DaysFit(days.value);
    }
  }

  function MaxOf(a: int, b: int): int {
    if a < b then b else a
  }

  /** The dates of a renewal in whole seconds, when the days fit: from five minutes
      before the clock to the asked day, and both within the CA's. */
  lemma {:induction false} RenewalDates(days: Option<int>, now: int, ca: Certificate, was: Certificate, clock: int, serial: nat)
    requires days.Some? ==> 1 <= days.value <= 106751
    ensures
      var c := Rebuilt(was, ca, NewExpiry(days, now, ca.notAfter * SECOND), clock, serial);
      && c.notBefore == MaxOf((clock - 300_000_000_000) / 1_000_000_000, ca.notBefore)
      && c.notAfter == match days
                       case None => ca.notAfter
                       case Some(d) => Min((now + d * 86_400_000_000_000) / 1_000_000_000, ca.notAfter)
  {
    if days.Some? {
      ExpiryIsAsked(days.value, now, ca, was, clock, serial);
    }
  }

  /** One more day and every renewal is dated in the past, whatever the CA. */
  lemma OneMoreDayIsPast(now: int, ca: Certificate, was: Certificate, clock: int, serial: nat)
    requires now < ca.notAfter * SECOND
    ensures Rebuilt(was, ca, NewExpiry(Some(MAX_DAYS + 1), now, ca.notAfter * SECOND), clock, serial).notAfter * SECOND < now
  {
  }

  /** The new window is inside the CA's (section 4.1.2.5 of RFC 5280 has the
      dates), and not empty unless the clock passed the new expiry by the skew. */
  lemma WindowInsideCA(days: Option<int>, now: int, ca: Certificate, was: Certificate, clock: int, serial: nat)
    ensures
      var expiry := NewExpiry(days, now, ca.notAfter * SECOND);
      var c := Rebuilt(was, ca, expiry, clock, serial);
      && ca.notBefore <= c.notBefore && c.notAfter <= ca.notAfter
      && (clock - SKEW <= expiry && ca.notBefore * SECOND <= expiry ==> c.notBefore <= c.notAfter)
  {
  }

  /** ca's key signed c in ca's name, with SHA-256 for every key but Ed25519, and
      ca was valid when c starts to be: the Fabric MSP checks the chain then. */
  predicate Verifies(c: Certificate, ca: Certificate) {
    && c.issuer == ca.subject && c.signature.signer == ca.pub
    && (c.signature.PureEd25519? <==> ca.pub.alg == ED25519)
    && (c.signature.SHA256WithRSA? <==> ca.pub.alg == RSA)
    && ca.notBefore <= c.notBefore <= ca.notAfter
  }

  /** A renewal verifies against its CA if the CA is valid by the clock, give or
      take the skew; nothing of the leaf but its identity and the CA's own dates
      goes into that. */
  lemma RenewalVerifies(was: Certificate, ca: Certificate, notAfter: int, clock: int, serial: nat)
    requires ca.notBefore <= ca.notAfter
    ensures Verifies(Rebuilt(was, ca, notAfter, clock, serial), ca) <==> (clock - SKEW) / SECOND <= ca.notAfter
  {
  }

  /******* Backups *******/

  function WithSuffix(p: Path, suffix: string): Path
    requires p != []
  {
    p[..|p|-1] + [p[|p|-1] + suffix]
  }

  /** .bak, .<ts>.bak, .<ts>-1.bak, .<ts>-2.bak, ... */
  function BackupSuffix(ts: string, k: nat): string {
    if k == 0 then ".bak" else if k == 1 then "." + ts + ".bak" else "." + ts + "-" + Itoa(k - 1) + ".bak"
  }

  function BackupName(p: Path, ts: string, k: nat): (b: Path)
    requires p != []
    ensures |b| == |p|
  {
    WithSuffix(p, BackupSuffix(ts, k))
  }

  lemma SuffixInjective(p: Path, s: string, t: string)
    requires p != [] && WithSuffix(p, s) == WithSuffix(p, t)
    ensures s == t
  {
    var c := p[|p|-1];
    assert WithSuffix(p, s)[|p|-1] == c + s && WithSuffix(p, t)[|p|-1] == c + t;
    assert s == (c + s)[|c|..] && t == (c + t)[|c|..];
  }

  lemma SuffixesDiffer(ts: string, j: nat, k: nat)
    requires ts != [] && j < k
    ensures BackupSuffix(ts, j) != BackupSuffix(ts, k)
  {
    var s, t := BackupSuffix(ts, j), BackupSuffix(ts, k);
    if j < 2 {
      assert |s| != |t|;
    } else if s == t {
      var n := |"." + ts + "-"|;
      assert Itoa(j - 1) == s[n..|s|-4] && Itoa(k - 1) == t[n..|t|-4];
      ItoaInjective(j - 1, k - 1);
    }
  }

  lemma BackupNamesDiffer(p: Path, ts: string, j: nat, k: nat)
    requires p != [] && ts != [] && j < k
    ensures BackupName(p, ts, j) != BackupName(p, ts, k)
  {
    SuffixesDiffer(ts, j, k);
    if BackupName(p, ts, j) == BackupName(p, ts, k) {
      SuffixInjective(p, BackupSuffix(ts, j), BackupSuffix(ts, k));
    }
  }

  /** The distinct candidates outnumber the files, so one of them is free. */
  lemma {:induction false} SomeNameIsFree(dom: set<Path>, p: Path, ts: string, k: nat)
    requires p != [] && ts != [] && forall j :: 0 <= j < k ==> BackupName(p, ts, j) in dom
    ensures k <= |dom|
    decreases k
  {
    hide BackupName;
    if k > 0 {
      var last := BackupName(p, ts, k - 1);
      forall j | 0 <= j < k - 1 ensures BackupName(p, ts, j) in dom - {last} {
        BackupNamesDiffer(p, ts, j, k - 1);
      }
      SomeNameIsFree(dom - {last}, p, ts, k - 1);
    }
  }

  /******* The search for a free name *******/

  /** What os.Stat says of a path in a directory that can be searched, on a file
      system that takes names of up to limit characters. */
  datatype Stat = Exists | NotExist | NameTooLong

  function StatOf(dom: set<Path>, limit: nat, p: Path): Stat
    requires p != []
  {
    if p in dom then Exists else if |p[|p|-1]| > limit then NameTooLong else NotExist
  }

  /** The search ends: some candidate does not exist, and could. */
  ghost predicate SearchEnds(dom: set<Path>, limit: nat, p: Path, ts: string)
    requires p != []
  {
    exists k: nat :: StatOf(dom, limit, BackupName(p, ts, k)) == NotExist
  }

  lemma {:induction false} LongerText(m: nat, n: nat)
    requires m <= n
    ensures |NatText(m)| <= |NatText(n)|
  {
    if n >= 10 && m >= 10 {
      LongerText(m / 10, n / 10);
    }
  }

  lemma LongerSuffix(ts: string, j: nat, k: nat)
    requires j <= k
    ensures |BackupSuffix(ts, j)| <= |BackupSuffix(ts, k)|
  {
    if j >= 2 {
      LongerText(j - 1, k - 1);
    }
  }

  lemma NameLength(p: Path, ts: string, k: nat)
    requires p != []
    ensures var b := BackupName(p, ts, k); |b[|b|-1]| == |p[|p|-1]| + |BackupSuffix(ts, k)|
  {
  }

  /** Once a name is too long, so is every later one. */
  lemma TooLongForGood(dom: set<Path>, limit: nat, p: Path, ts: string, k: nat)
    requires p != [] && StatOf(dom, limit, BackupName(p, ts, k)) == NameTooLong
    ensures forall j: nat :: j >= k ==> StatOf(dom, limit, BackupName(p, ts, j)) != NotExist
  {
    hide BackupName, BackupSuffix;
    forall j: nat | j >= k ensures StatOf(dom, limit, BackupName(p, ts, j)) != NotExist {
      NameLength(p, ts, k);
      NameLength(p, ts, j);
      LongerSuffix(ts, k, j);
    }
  }

  lemma NeverEnds(dom: set<Path>, limit: nat, p: Path, ts: string, k: nat)
    requires p != [] && StatOf(dom, limit, BackupName(p, ts, k)) == NameTooLong
    requires forall j :: 0 <= j < k ==> StatOf(dom, limit, BackupName(p, ts, j)) != NotExist
    ensures !SearchEnds(dom, limit, p, ts)
  {
    hide StatOf, BackupName;
    TooLongForGood(dom, limit, p, ts, k);
  }

  /** Every name that the search may need fits. */
  predicate RoomForBackup(dom: set<Path>, limit: nat, p: Path, ts: string)
    requires p != []
  {
    |p[|p|-1]| + |"." + ts + "-" + ".bak"| + |Itoa(|dom|)| <= limit
  }

  lemma RoomIsEnough(dom: set<Path>, limit: nat, p: Path, ts: string)
    requires p != [] && ts != [] && RoomForBackup(dom, limit, p, ts)
    ensures SearchEnds(dom, limit, p, ts)
  {
    hide BackupName;
    if forall k :: 0 <= k < |dom| + 1 ==> BackupName(p, ts, k) in dom {
      SomeNameIsFree(dom, p, ts, |dom| + 1);
    }
    var k :| 0 <= k < |dom| + 1 && BackupName(p, ts, k) !in dom;
    NameLength(p, ts, k);
    LongerSuffix(ts, k, |dom| + 1);
    LastSuffix(ts, |dom|);
  }

  lemma LastSuffix(ts: string, n: nat)
    ensures |BackupSuffix(ts, n + 1)| <= |"." + ts + "-" + ".bak"| + |Itoa(n)|
  {
  }

  /** When the search for a name ends.  It depends on the length of the name alone
      while there is no backup, and while there is one but none of this second;
      with room for the number of files it always ends. */
  lemma {:induction false} SearchEndsIff(dom: set<Path>, limit: nat, p: Path, ts: string)
    requires p != [] && ts != []
    ensures
      var n := |p[|p|-1]|;
      && (SearchEnds(dom, limit, p, ts) <==>
           exists k :: 0 <= k <= |dom| && n + |BackupSuffix(ts, k)| <= limit && BackupName(p, ts, k) !in dom)
      && (BackupName(p, ts, 0) !in dom ==> (SearchEnds(dom, limit, p, ts) <==> n + |".bak"| <= limit))
      && (BackupName(p, ts, 0) in dom && BackupName(p, ts, 1) !in dom ==>
            (SearchEnds(dom, limit, p, ts) <==> n + |"." + ts + ".bak"| <= limit))
      && (RoomForBackup(dom, limit, p, ts) ==> SearchEnds(dom, limit, p, ts))
  {
    hide BackupName, SearchEnds, RoomForBackup;
    var n := |p[|p|-1]|;
    assert forall k: nat :: StatOf(dom, limit, BackupName(p, ts, k)) == NotExist <==>
                              n + |BackupSuffix(ts, k)| <= limit && BackupName(p, ts, k) !in dom by {
      forall k: nat {
        NameLength(p, ts, k);
      }
    }
    if RoomForBackup(dom, limit, p, ts) {
      RoomIsEnough(dom, limit, p, ts);
    }
    FreeInBounds(dom, limit, p, ts);
    FirstDecides(dom, limit, p, ts, 0);
    if BackupName(p, ts, 0) in dom {
      FirstDecides(dom, limit, p, ts, 1);
    }
  }

  /** The first name that does not exist decides. */
  lemma FirstDecides(dom: set<Path>, limit: nat, p: Path, ts: string, k: nat)
    requires p != [] && forall j :: 0 <= j < k ==> BackupName(p, ts, j) in dom
    ensures BackupName(p, ts, k) !in dom ==>
              (SearchEnds(dom, limit, p, ts) <==> |p[|p|-1]| + |BackupSuffix(ts, k)| <= limit)
  {
    hide BackupName, BackupSuffix;
    NameLength(p, ts, k);
    if BackupName(p, ts, k) !in dom && StatOf(dom, limit, BackupName(p, ts, k)) == NameTooLong {
      NeverEnds(dom, limit, p, ts, k);
    }
  }

  lemma FreeInBounds(dom: set<Path>, limit: nat, p: Path, ts: string)
    requires p != [] && ts != []
    ensures SearchEnds(dom, limit, p, ts) <==>
            exists k :: 0 <= k <= |dom| && StatOf(dom, limit, BackupName(p, ts, k)) == NotExist
  {
    hide BackupName;
    if forall k :: 0 <= k < |dom| + 1 ==> BackupName(p, ts, k) in dom {
      SomeNameIsFree(dom, p, ts, |dom| + 1);
    }
    var k :| 0 <= k <= |dom| && BackupName(p, ts, k) !in dom;
    if StatOf(dom, limit, BackupName(p, ts, k)) == NameTooLong && SearchEnds(dom, limit, p, ts) {
      TooLongForGood(dom, limit, p, ts, k);
    }
  }

  /** b is the name of a backup of p. */
  predicate BackupOf(b: Path, p: Path) {
    && p != [] && |b| == |p| && b[..|b|-1] == p[..|p|-1]
    && p[|p|-1] + "." <= b[|b|-1] && HasSuffix(b[|b|-1], ".bak")
  }

  lemma DigitsHaveNoSlash(s: string)
    requires AllDigits(s)
    ensures '/' !in s
  {
    assert forall i :: 0 <= i < |s| ==> IsDigit(s[i]);
  }

  lemma BackupSuffixIs(ts: string, k: nat)
    requires '/' !in ts
    ensures HasPrefix(BackupSuffix(ts, k), ".") && HasSuffix(BackupSuffix(ts, k), ".bak") && '/' !in BackupSuffix(ts, k)
  {
    if k >= 2 {
      DigitsHaveNoSlash(Itoa(k - 1));
    }
  }

  lemma BackupNameIs(p: Path, ts: string, k: nat)
    requires CleanPath(p) && '/' !in ts
    ensures BackupOf(BackupName(p, ts, k), p) && CleanPath(BackupName(p, ts, k))
  {
    var b, c, s := BackupName(p, ts, k), p[|p|-1], BackupSuffix(ts, k);
    BackupSuffixIs(ts, k);
    hide BackupSuffix;
    assert b[|b|-1] == c + s;
    assert (c + s)[|c + s| - 4..] == s[|s|-4..];
    assert c + "." <= c + s;
    assert '/' !in c + s;
    forall d | d in b ensures '/' !in d {
      assert d in p || d == c + s;
    }
  }
}
