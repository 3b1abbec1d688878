/** The listing of a tree's certificates by expiry.  An expiry is a number of
    seconds: as the text it is printed as, it sorts the same for four-digit years. */
module Expiries {
  import opened Wrappers
  import opened Order
  import opened Certs
  import opened Strings

  datatype Expiry = Expiry(expiry: int, path: Path)

  datatype Group = Group(expiry: int, paths: seq<Path>)

  /** A file under root whose name says that it is a certificate. */
  predicate Walked(f: Tree, root: Path, p: Path) {
    p in f && root <= p && p != [] && (HasSuffix(p[|p|-1], ".pem") || HasSuffix(p[|p|-1], ".crt"))
  }

  /** The files that are listed, by their names. */
  lemma WalkedIff(f: Tree, root: Path, p: Path)
    ensures Walked(f, root, p) <==>
            p in f && root <= p && p != [] && exists stem :: p[|p|-1] == stem + ".pem" || p[|p|-1] == stem + ".crt"
  {
    if Walked(f, root, p) {
      var name := p[|p|-1];
      assert name == name[..|name|-4] + name[|name|-4..];
    }
  }

  /** Every leaf under root is listed, or an identical copy of it further up. */
  lemma {:induction false} LeafIsListed(f: Tree, root: Path, config: Path, l: Leaf) returns (q: Path)
    requires IsLeaf(f, config, l) && root <= config
    ensures Listed(f, root, q) && f[q] == Cert(l.cert) && |q| <= |l.path|
  {
    hide IsLeaf, Walked, PathLess;
    LeafIsPlaced(f, config, l);
    assert f[l.path] == Cert(l.cert) by {
      LeafHolds(f, config, l);
    }
    PlacedIsWalked(f, root, config, l.path[|config|], l.path[|config|+2], l);
    q := EachIsListed(f, root, l.path);
  }

  lemma LeafHolds(f: Tree, config: Path, l: Leaf)
    requires IsLeaf(f, config, l)
    ensures l.path in f && f[l.path] == Cert(l.cert) && |l.path| > |config| + 4
  {
  }

  lemma PlacedIsWalked(f: Tree, root: Path, config: Path, group: string, parent: string, l: Leaf)
    requires PlacedAt(f.Keys, config, group, parent, l) && root <= config
    ensures Walked(f, root, l.path)
  {
    hide PathLess;
    var p := l.path;
    if l.kind == TLS {
      assert p[|p|-1] == "server.crt" && HasSuffix("server.crt", ".crt");
      UnderRoot(root, config, p);
    } else {
      var dir := config + [group, l.org, parent, l.node, "msp", "signcerts"];
      UnderRoot(dir, dir, p);
    }
  }

  lemma UnderRoot(root: Path, config: Path, p: Path)
    requires root <= config && |p| >= |config| && p[..|config|] == config
    ensures root <= p
  {
    assert p[..|root|] == p[..|config|][..|root|];
  }

  function AllWalked(f: Tree, root: Path): set<Path> {
    set p | p in f && Walked(f, root, p)
  }

  /** No identical file has fewer components in its path. */
  ghost predicate Listed(f: Tree, root: Path, p: Path) {
    Walked(f, root, p) && forall q :: Walked(f, root, q) && f[q] == f[p] ==> |p| <= |q|
  }

  predicate Before(a: Expiry, b: Expiry) {
    a.expiry < b.expiry || (a.expiry == b.expiry && PathLess(a.path, b.path))
  }

  lemma BeforeOrder()
    ensures WeakOrder(Before)
  {
    PathOrder();
  }

  /** Every distinct certificate is listed at least once. */
  lemma {:induction false} EachIsListed(f: Tree, root: Path, p: Path) returns (q: Path)
    requires Walked(f, root, p)
    ensures Listed(f, root, q) && f[q] == f[p] && |q| <= |p|
    decreases |p|
  {
    q := p;
    if !Listed(f, root, p) {
      var shorter :| Walked(f, root, shorter) && f[shorter] == f[p] && |shorter| < |p|;
      q := EachIsListed(f, root, shorter);
    }
  }

  /** The files seen so far, grouped by their content. */
  ghost predicate Grouped(f: Tree, seen: set<Path>, groups: map<Content, Group>) {
    && (forall p :: p in seen ==> p in f && f[p] in groups)
    && (forall c :: c in groups ==> c.Cert? && groups[c].expiry == c.cert.notAfter && Distinct(groups[c].paths))
    && (forall c, p :: c in groups && p in groups[c].paths ==> p in seen && f[p] == c)
    && (forall p :: p in seen ==> p in groups[f[p]].paths)
  }

  function Added(groups: map<Content, Group>, c: Content, p: Path): map<Content, Group>
    requires c.Cert?
  {
    var g := if c in groups then groups[c] else Group(c.cert.notAfter, []);
    groups[c := g.(paths := g.paths + [p])]
  }

  lemma GroupedMore(f: Tree, seen: set<Path>, groups: map<Content, Group>, p: Path)
    requires Grouped(f, seen, groups) && p in f && p !in seen && f[p].Cert?
    ensures Grouped(f, seen + {p}, Added(groups, f[p], p))
  {
  }

  lemma NoGroups(f: Tree)
    ensures Grouped(f, {}, map[])
  {
  }

  lemma GroupedCert(f: Tree, seen: set<Path>, groups: map<Content, Group>, c: Content)
    requires Grouped(f, seen, groups) && c in groups
    ensures c.Cert? && Distinct(groups[c].paths)
  {
  }

  /** A path is in one group only. */
  lemma OneGroup(f: Tree, seen: set<Path>, groups: map<Content, Group>, c: Content, d: Content, e: Expiry)
    requires Grouped(f, seen, groups) && c in groups && d in groups
    requires ShortestOf(groups[c], e) && ShortestOf(groups[d], e)
    ensures c == d
  {
    var p := e.path;
    assert p in groups[c].paths ==> f[p] == c;
    assert p in groups[d].paths ==> f[p] == d;
  }

  lemma GroupedParse(f: Tree, root: Path, groups: map<Content, Group>)
    requires Grouped(f, AllWalked(f, root), groups)
    ensures forall p :: Walked(f, root, p) ==> f[p].Cert?
  {
    forall p | Walked(f, root, p) ensures f[p].Cert? {
      assert p in AllWalked(f, root);
    }
  }

  method GroupFiles(f: Tree, root: Path) returns (r: Result<map<Content, Group>, Error>)
    ensures r.Success? ==> Grouped(f, AllWalked(f, root), r.value)
    ensures r.Success? <==> forall p :: Walked(f, root, p) ==> f[p].Cert?
  {
    hide Grouped, Walked;
    var groups: map<Content, Group> := map[];
    assert Grouped(f, {}, groups) by {
      NoGroups(f);
    }
    var walked := AllWalked(f, root);
    var left := walked;
    assert walked - left == {};
    while left != {}
      invariant left <= walked && forall p :: p in walked - left ==> p in f && f[p] in groups
      invariant Grouped(f, walked - left, groups)
      decreases |left|
    {
      var p :| p in left;
      ghost var before := groups;
      if f[p] !in groups {
        var c := Load(f, p);
        if c.Failure? {
          return Failure(c.error);
        }
        groups := groups[f[p] := Group(c.value.notAfter, [])];
      }
      if f[p] in before {
        GroupedCert(f, walked - left, before, f[p]);
      }
      var g := groups[f[p]];
      groups := groups[f[p] := g.(paths := g.paths + [p])];
      assert groups == Added(before, f[p], p);
      GroupedMore(f, walked - left, before, p);
      assert walked - (left - {p}) == walked - left + {p};
      left := left - {p};
    }
    assert walked - left == walked;
    GroupedParse(f, root, groups);
    return Success(groups);
  }

  method LeastDepth(paths: seq<Path>) returns (least: int)
    ensures forall p :: p in paths ==> least <= |p|
    ensures paths != [] ==> exists p :: p in paths && |p| == least
  {
    least := -1;
    for i := 0 to |paths|
      invariant i == 0 <==> least < 0
      invariant forall j :: 0 <= j < i ==> least <= |paths[j]|
      invariant i > 0 ==> exists j :: 0 <= j < i && |paths[j]| == least
    {
      if least < 0 || |paths[i]| < least {
        least := |paths[i]|;
      }
    }
  }

  /** The entries of the shortest paths of one group. */
  method Shortest(g: Group) returns (out: seq<Expiry>)
    requires Distinct(g.paths)
    ensures Distinct(out)
    ensures forall e :: e in out <==>
              e.expiry == g.expiry && e.path in g.paths && forall q :: q in g.paths ==> |e.path| <= |q|
  {
    var least := LeastDepth(g.paths);
    out := [];
    for i := 0 to |g.paths|
      invariant Distinct(out)
      invariant forall e :: e in out <==> e.expiry == g.expiry && e.path in g.paths[..i] && |e.path| == least
    {
      if |g.paths[i]| == least {
        out := out + [Expiry(g.expiry, g.paths[i])];
      }
    }
    assert g.paths[..|g.paths|] == g.paths;
  }

  /** An entry of one of these groups' shortest paths. */
  ghost predicate Entry(groups: map<Content, Group>, cs: set<Content>, e: Expiry) {
    exists c :: c in cs && c in groups && ShortestOf(groups[c], e)
  }

  ghost predicate ShortestOf(g: Group, e: Expiry) {
    e.expiry == g.expiry && e.path in g.paths && forall q :: q in g.paths ==> |e.path| <= |q|
  }

  /** Every entry is a certificate no identical copy of which is higher up, with
      its own expiry; they are in the order of expiry and path, each once. */
  method ListExpiries(f: Tree, root: Path) returns (r: Result<seq<Expiry>, Error>)
    requires CleanTree(f)
    ensures r.Success? <==> forall p :: Walked(f, root, p) ==> f[p].Cert?
    ensures r.Success? ==> forall e :: e in r.value <==> Listed(f, root, e.path) && e.expiry == f[e.path].cert.notAfter
    ensures r.Success? ==> forall i, j :: 0 <= i < j < |r.value| ==>
              var a, b := r.value[i], r.value[j]; a.expiry < b.expiry || (a.expiry == b.expiry && PathLess(a.path, b.path))
  {
    hide Walked, PathLess;
    var grouped := GroupFiles(f, root);
    if grouped.Failure? {
      return Failure(grouped.error);
    }
    var groups := grouped.value;
    ghost var seen := AllWalked(f, root);
    var out: seq<Expiry> := [];
    var left := groups.Keys;
    while left != {}
      invariant left <= groups.Keys && Distinct(out)
      invariant forall e :: e in out <==> Entry(groups, groups.Keys - left, e)
      decreases |left|
    {
      var c :| c in left;
      var more := Shortest(groups[c]);
      MoreEntries(f, seen, groups, groups.Keys - left, c, out, more);
      assert groups.Keys - (left - {c}) == groups.Keys - left + {c};
      out, left := out + more, left - {c};
    }
    assert groups.Keys - left == groups.Keys;
    EntriesAreListed(f, root, seen, groups);
    BeforeOrder();
    var sorted := SortSeq(out, Before);
    StrictlySorted(f, out, sorted);
    return Success(sorted);
  }

  lemma MoreEntries(f: Tree, seen: set<Path>, groups: map<Content, Group>, cs: set<Content>, c: Content, out: seq<Expiry>, more: seq<Expiry>)
    requires Grouped(f, seen, groups) && c in groups && c !in cs && cs <= groups.Keys
    requires Distinct(out) && Distinct(more)
    requires forall e :: e in out <==> Entry(groups, cs, e)
    requires forall e :: e in more <==> ShortestOf(groups[c], e)
    ensures Distinct(out + more)
    ensures forall e :: e in out + more <==> Entry(groups, cs + {c}, e)
  {
    forall i, j | 0 <= i < |out| && 0 <= j < |more| ensures out[i] != more[j] {
      assert out[i] in out && more[j] in more;
      assert Entry(groups, cs, out[i]);
      var d :| d in cs && d in groups && ShortestOf(groups[d], out[i]);
      if out[i] == more[j] {
        OneGroup(f, seen, groups, c, d, out[i]);
      }
    }
    forall e ensures e in out + more <==> Entry(groups, cs + {c}, e) {
      assert e in out + more <==> e in out || e in more;
    }
  }

  lemma EntriesAreListed(f: Tree, root: Path, seen: set<Path>, groups: map<Content, Group>)
    requires seen == AllWalked(f, root) && Grouped(f, seen, groups)
    ensures forall e :: Entry(groups, groups.Keys, e) <==>
              Listed(f, root, e.path) && f[e.path].Cert? && e.expiry == f[e.path].cert.notAfter
  {
    hide Walked;
    assert forall p :: Walked(f, root, p) ==> p in f by {
      WalkedIsThere(f, root);
    }
    forall e ensures Entry(groups, groups.Keys, e) <==>
              Listed(f, root, e.path) && f[e.path].Cert? && e.expiry == f[e.path].cert.notAfter
    {
      if Listed(f, root, e.path) && f[e.path].Cert? && e.expiry == f[e.path].cert.notAfter {
        assert e.path in seen;
        forall q | q in groups[f[e.path]].paths ensures |e.path| <= |q| {
          assert q in seen;
        }
        assert ShortestOf(groups[f[e.path]], e);
      }
      if Entry(groups, groups.Keys, e) {
        var c :| c in groups && ShortestOf(groups[c], e);
        assert e.path in groups[c].paths;
        assert e.path in seen && f[e.path] == c;
        forall q | Walked(f, root, q) && f[q] == c ensures |e.path| <= |q| {
          assert q in seen;
        }
      }
    }
  }

  lemma WalkedIsThere(f: Tree, root: Path)
    ensures forall p :: Walked(f, root, p) ==> p in f
  {
  }

  lemma StrictlySorted(f: Tree, out: seq<Expiry>, sorted: seq<Expiry>)
    requires CleanTree(f) && Distinct(out) && (forall e :: e in out ==> e.path in f)
    requires Sorted(sorted, Before) && multiset(sorted) == multiset(out)
    ensures forall e :: e in sorted <==> e in out
    ensures forall i, j :: 0 <= i < j < |sorted| ==> Before(sorted[i], sorted[j])
  {
    SameMembers(out, sorted);
    SortedDistinct(out, sorted);
    forall i, j | 0 <= i < j < |sorted| ensures Before(sorted[i], sorted[j]) {
      assert sorted[i] in out && sorted[j] in out;
      PathTotal(sorted[i].path, sorted[j].path);
    }
  }
}
