/** What any number of renewal runs does to a tree. */
module Renewals {
  import opened Wrappers
  import opened Certs
  import opened Strings

  predicate IsBak(p: Path) {
    p != [] && HasSuffix(p[|p|-1], ".bak")
  }

  predicate SameIdentity(c: Certificate, c': Certificate) {
    c'.subject == c.subject && c'.issuer == c.issuer && c'.pub == c.pub && c'.extensions == c.extensions
  }

  /** Only backups are new, and only leaves differ. */
  ghost predicate Frame(config: Path, f: Tree, f': Tree) {
    && f.Keys <= f'.Keys
    && (forall q :: q in f' && q !in f ==> IsBak(q) && CleanPath(q))
    && (forall q :: q in f && f'[q] != f[q] ==> LeafCert(f.Keys, config, q))
  }

  /** A leaf keeps its identity; what is not a certificate stays as it is. */
  ghost predicate SameLeaf(f: Tree, f': Tree, p: Path) {
    && p in f && p in f'
    && (f'[p] != f[p] ==> f[p].Cert? && f'[p].Cert? && SameIdentity(f[p].cert, f'[p].cert))
  }

  /** What p held is still there or in a backup of it, and in <cert>.bak when
      that was free. */
  ghost predicate BackedUp(f: Tree, f': Tree, p: Path) {
    && p != [] && p in f && p in f'
    && (f'[p] == f[p] || exists b :: b in f' && BackupOf(b, p) && f'[b] == f[p])
    && var first := WithSuffix(p, ".bak");
       first !in f ==> if first in f' then f'[first] == f[p] else f'[p] == f[p]
  }

  ghost predicate Renewed(config: Path, f: Tree, f': Tree) {
    Frame(config, f, f') && forall p :: LeafCert(f.Keys, config, p) ==> SameLeaf(f, f', p)
  }

  /** What one run with backups does. */
  ghost predicate Evolves(config: Path, f: Tree, f': Tree) {
    Renewed(config, f, f') && forall p :: LeafCert(f.Keys, config, p) ==> BackedUp(f, f', p)
  }

  /******* Backups are out of every glob *******/

  /** A suffix says what the last characters are. */
  lemma EndOf(s: string, t: string)
    requires HasSuffix(s, t)
    ensures forall i :: 0 <= i < |t| ==> s[|s| - |t| + i] == t[i]
  {
  }

  lemma BakIsNoCert(p: Path, kind: Kind, n: nat)
    requires IsBak(p) && n <= |p|
    ensures !CertGlob(kind, p[n..])
  {
    var c := p[|p|-1];
    assert |p[n..]| > 0 ==> p[n..][|p| - n - 1] == c;
    EndOf(c, ".bak");
    assert !HasSuffix(c, ".pem") && c != "server.crt";
  }

  lemma GlobStays(dom: set<Path>, dom': set<Path>, dir: Path, kind: Kind)
    requires dom <= dom' && forall q :: q in dom' && q !in dom ==> IsBak(q)
    ensures NodeCerts(dom', dir, kind) == NodeCerts(dom, dir, kind)
  {
    forall q | q in NodeCerts(dom', dir, kind) ensures q in dom {
      if q !in dom {
        BakIsNoCert(q, kind, |dir|);
      }
    }
  }

  lemma DirStays(dom: set<Path>, dom': set<Path>, dir: Path, suffix: string)
    requires dom <= dom' && forall q :: q in dom' && q !in dom ==> IsBak(q)
    requires suffix == ".pem" || suffix == "_sk"
    ensures InDir(dom', dir, suffix) == InDir(dom, dir, suffix)
  {
    forall q | q in InDir(dom', dir, suffix) ensures q in dom {
      var c := q[|dir|];
      EndOf(c, suffix);
      assert c[|c|-1] != 'k' || c[|c|-3] != 'b';
    }
  }

  /** Discover finds the same leaves in both trees. */
  lemma LeavesStay(config: Path, f: Tree, f': Tree, kind: Kind, p: Path)
    requires Frame(config, f, f')
    ensures LeafPath(f'.Keys, config, kind, p) <==> LeafPath(f.Keys, config, kind, p)
  {
    var n := |config| + 4;
    if |p| > n {
      GlobStays(f.Keys, f'.Keys, p[..n], kind);
    }
  }

  lemma AllLeavesStay(config: Path, f: Tree, f': Tree)
    requires Frame(config, f, f')
    ensures forall p :: LeafCert(f'.Keys, config, p) <==> LeafCert(f.Keys, config, p)
  {
    forall p ensures LeafCert(f'.Keys, config, p) <==> LeafCert(f.Keys, config, p) {
      LeavesStay(config, f, f', SignCert, p);
      LeavesStay(config, f, f', TLS, p);
    }
  }

  /** No leaf is in a CA's directory. */
  lemma LeafIsDeep(dom: set<Path>, config: Path, p: Path)
    requires LeafCert(dom, config, p)
    ensures |p| > |config| + 4 && p in dom
  {
  }

  /** The CAs, and with them which leaves are refused, are the same in both trees. */
  lemma IssuersStay(config: Path, f: Tree, f': Tree, dir: Path, issuer: string)
    requires Frame(config, f, f') && |dir| == |config| + 3
    ensures forall ca :: Resolves(f', dir, issuer, ca) <==> Resolves(f, dir, issuer, ca)
    ensures Unresolved(f', dir, issuer) <==> Unresolved(f, dir, issuer)
  {
    hide LeafCert, CleanPath, IsBak, PathLess;
    DirStays(f.Keys, f'.Keys, dir, ".pem");
    DirStays(f.Keys, f'.Keys, dir, "_sk");
    CaFilesStay(config, f, f', dir, ".pem");
    CaFilesStay(config, f, f', dir, "_sk");
    KeysStay(f, f', dir);
    forall q ensures IssuerAt(f', dir, issuer, q) <==> IssuerAt(f, dir, issuer, q) {
    }
  }

  lemma CaFilesStay(config: Path, f: Tree, f': Tree, dir: Path, suffix: string)
    requires Frame(config, f, f') && |dir| == |config| + 3
    ensures forall q :: q in InDir(f.Keys, dir, suffix) ==> q in f && q in f' && f'[q] == f[q]
  {
    hide LeafCert;
    forall q | q in InDir(f.Keys, dir, suffix) ensures f'[q] == f[q] {
      if f'[q] != f[q] {
        LeafIsDeep(f.Keys, config, q);
      }
    }
  }

  lemma KeysStay(f: Tree, f': Tree, dir: Path)
    requires InDir(f'.Keys, dir, "_sk") == InDir(f.Keys, dir, "_sk")
    requires forall q :: q in InDir(f.Keys, dir, "_sk") ==> q in f && q in f' && f'[q] == f[q]
    ensures forall pub :: HasKey(f', dir, pub) <==> HasKey(f, dir, pub)
  {
  }

  /******* Evolves is a preorder *******/

  lemma EvolvesReflexive(config: Path, f: Tree)
    ensures Evolves(config, f, f)
  {
    hide LeafCert;
    forall p | LeafCert(f.Keys, config, p) ensures SameLeaf(f, f, p) && BackedUp(f, f, p) {
      LeafIsDeep(f.Keys, config, p);
    }
  }

  lemma FrameTransitive(config: Path, f: Tree, m: Tree, f': Tree)
    requires Frame(config, f, m) && Frame(config, m, f')
    ensures Frame(config, f, f')
  {
    hide LeafCert, IsBak, CleanPath;
    AllLeavesStay(config, f, m);
  }

  lemma BackedUpTransitive(f: Tree, m: Tree, f': Tree, config: Path, p: Path)
    requires Frame(config, m, f') && (forall q :: LeafCert(m.Keys, config, q) ==> !IsBak(q))
    requires BackedUp(f, m, p) && BackedUp(m, f', p)
    ensures BackedUp(f, f', p)
  {
    hide LeafCert, CleanPath;
    forall b | b in m && BackupOf(b, p) ensures b in f' && f'[b] == m[b] {
      assert IsBak(b);
    }
    var first := WithSuffix(p, ".bak");
    assert BackupOf(first, p) by {
      var c := p[|p|-1];
      assert first[|p|-1] == c + ".bak" && (c + ".bak")[|c|..] == ".bak" && c + "." <= c + ".bak";
    }
    if m[p] != f[p] {
      var b :| b in m && BackupOf(b, p) && m[b] == f[p];
      assert f'[b] == f[p];
    }
  }

  lemma LeafIsNoBak(dom: set<Path>, config: Path, p: Path)
    requires LeafCert(dom, config, p)
    ensures !IsBak(p)
  {
    var n := |config| + 4;
    if IsBak(p) {
      BakIsNoCert(p, SignCert, n);
      BakIsNoCert(p, TLS, n);
    }
  }

  lemma {:induction false} EvolvesTransitive(config: Path, f: Tree, m: Tree, f': Tree)
    requires Evolves(config, f, m) && Evolves(config, m, f')
    ensures Evolves(config, f, f')
  {
    hide LeafCert, Frame, BackedUp;
    FrameTransitive(config, f, m, f');
    AllLeavesStay(config, f, m);
    forall q | LeafCert(m.Keys, config, q) ensures !IsBak(q) {
      LeafIsNoBak(m.Keys, config, q);
    }
    forall p | LeafCert(f.Keys, config, p) ensures SameLeaf(f, f', p) && BackedUp(f, f', p) {
      assert LeafCert(m.Keys, config, p);
      BackedUpTransitive(f, m, f', config, p);
    }
  }

  lemma RenewedTransitive(config: Path, f: Tree, m: Tree, f': Tree)
    requires Renewed(config, f, m) && Renewed(config, m, f')
    ensures Renewed(config, f, f')
  {
    hide LeafCert, Frame;
    FrameTransitive(config, f, m, f');
    AllLeavesStay(config, f, m);
    forall p | LeafCert(f.Keys, config, p) ensures SameLeaf(f, f', p) {
      assert LeafCert(m.Keys, config, p);
    }
  }

  /** One leaf written, with its old content saved first or not. */
  function Written(f: Tree, p: Path, bak: Option<Path>, c: Option<Certificate>): Tree
    requires p in f
  {
    var saved := if bak.Some? then f[bak.value := f[p]] else f;
    if c.Some? then saved[p := Cert(c.value)] else saved
  }

  /** The place BackupPath chose is free, and it is <cert>.bak if that is. */
  predicate FreshBackup(f: Tree, p: Path, bak: Path) {
    && p != [] && bak !in f && BackupOf(bak, p) && CleanPath(bak)
    && (WithSuffix(p, ".bak") !in f ==> bak == WithSuffix(p, ".bak"))
  }

  /** A directory holds at most one leaf. */
  lemma OneLeafInDir(dom: set<Path>, config: Path, p: Path, q: Path)
    requires LeafCert(dom, config, p) && LeafCert(dom, config, q) && CleanPath(p) && CleanPath(q)
    requires |p| == |q| && p[..|p|-1] == q[..|q|-1]
    ensures p == q
  {
    hide LeafPath, CleanPath;
    var kind := if LeafPath(dom, config, SignCert, p) then SignCert else TLS;
    var other := if LeafPath(dom, config, SignCert, q) then SignCert else TLS;
    LeafDepth(dom, config, kind, p);
    LeafDepth(dom, config, other, q);
    SameDirSameLeaf(dom, config, kind, p, q);
  }

  lemma LeafDepth(dom: set<Path>, config: Path, kind: Kind, p: Path)
    requires LeafPath(dom, config, kind, p)
    ensures |p| == |config| + if kind == SignCert then 7 else 6
  {
  }

  lemma SameDirSameLeaf(dom: set<Path>, config: Path, kind: Kind, p: Path, q: Path)
    requires LeafPath(dom, config, kind, p) && LeafPath(dom, config, kind, q) && CleanPath(p) && CleanPath(q)
    requires |p| == |q| && p[..|p|-1] == q[..|q|-1]
    ensures p == q
  {
    hide CleanPath, CertGlob, PathLess;
    var n := |config| + 4;
    assert p[..n] == p[..|p|-1][..n] && q[..n] == q[..|q|-1][..n];
    LeastIsOne(NodeCerts(dom, p[..n], kind), p, q);
  }

  lemma {:induction false} WrittenRenews(config: Path, f: Tree, p: Path, bak: Option<Path>, c: Option<Certificate>)
    requires CleanTree(f) && LeafCert(f.Keys, config, p) && p in f && f[p].Cert?
    requires bak.Some? ==> FreshBackup(f, p, bak.value)
    requires c.Some? ==> SameIdentity(f[p].cert, c.value)
    ensures Renewed(config, f, Written(f, p, bak, c))
    ensures c.None? || bak.Some? ==> Evolves(config, f, Written(f, p, bak, c))
  {
    hide LeafCert, CleanPath;
    var f' := Written(f, p, bak, c);
    forall q | LeafCert(f.Keys, config, q) ensures SameLeaf(f, f', q) && (c.None? || bak.Some? ==> BackedUp(f, f', q)) {
      LeafIsDeep(f.Keys, config, q);
      if q != p && bak.Some? && WithSuffix(q, ".bak") == bak.value {
        assert q[..|q|-1] == bak.value[..|q|-1];
        OneLeafInDir(f.Keys, config, p, q);
      }
    }
  }

  /******* Any number of runs *******/

  /** Each tree is what a run with backups left of the one before. */
  ghost predicate Runs(config: Path, fs: seq<Tree>) {
    fs != [] && forall i :: 0 <= i < |fs| - 1 ==> Evolves(config, fs[i], fs[i+1])
  }

  lemma {:induction false} RunsEvolve(config: Path, fs: seq<Tree>, i: nat)
    requires Runs(config, fs) && i < |fs|
    ensures Evolves(config, fs[i], fs[|fs|-1])
    decreases |fs| - i
  {
    hide Evolves;
    if i == |fs| - 1 {
      EvolvesReflexive(config, fs[i]);
    } else {
      RunsEvolve(config, fs, i + 1);
      EvolvesTransitive(config, fs[i], fs[i+1], fs[|fs|-1]);
    }
  }

  /** Over any number of runs a leaf keeps the first certificate's identity,
      everything it ever held is still there or in a backup of it, its first
      certificate is in <cert>.bak if that was free, and every other file and
      the set of leaves are as they were. */
  lemma RunsKeep(config: Path, fs: seq<Tree>, i: nat, p: Path)
    requires Runs(config, fs) && i < |fs| && LeafCert(fs[0].Keys, config, p) && p in fs[0] && fs[0][p].Cert?
    ensures
      var g := fs[|fs|-1];
      && p in g && g[p].Cert? && SameIdentity(fs[0][p].cert, g[p].cert)
      && p in fs[i] && (g[p] == fs[i][p] || exists b :: b in g && BackupOf(b, p) && g[b] == fs[i][p])
      && (WithSuffix(p, ".bak") !in fs[0] && g[p] != fs[0][p] ==> Some(fs[0][p]) == At(g, WithSuffix(p, ".bak")))
      && (forall q :: q in fs[0] && !LeafCert(fs[0].Keys, config, q) ==> At(g, q) == At(fs[0], q))
      && (forall kind, q :: LeafPath(g.Keys, config, kind, q) <==> LeafPath(fs[0].Keys, config, kind, q))
  {
    hide LeafCert, CleanPath, LeafPath;
    var g := fs[|fs|-1];
    RunsEvolve(config, fs, 0);
    RunsEvolve(config, fs, i);
    RunsEvolve(config, fs[..i+1], 0);
    AllLeavesStay(config, fs[0], fs[i]);
    forall kind, q ensures LeafPath(g.Keys, config, kind, q) <==> LeafPath(fs[0].Keys, config, kind, q) {
      LeavesStay(config, fs[0], g, kind, q);
    }
  }
}
