/** The names of a network's nodes, and the way back from a peer's name. */
module Names {
  import opened Wrappers
  import opened Decimal
  import opened Strings
  import opened Fabric

  function MspId(org: int): string {
    "Org" + Itoa(org) + "MSP"
  }

  function OrgName(domain: string, i: int): string {
    "org" + (Itoa(i) + ("." + domain))
  }

  /** The host name of peer j of org i. */
  function PeerName(domain: string, i: int, j: int): string {
    "peer" + (Itoa(j) + ("." + OrgName(domain, i)))
  }

  /** The digits at the head of s. */
  function Digits(s: string): (k: nat)
    ensures k <= |s| && AllDigits(s[..k]) && (k < |s| ==> !IsDigit(s[k]))
  {
    if s == "" || !IsDigit(s[0]) then 0 else 1 + Digits(s[1..])
  }

  /** strconv.Atoi on digits, its error ignored: a number that is too large is
      the largest one. */
  function Clamped(digits: string): int
    requires AllDigits(digits)
  {
    var n := NatValue(digits);
    if n > MAX_INT then MAX_INT else n
  }

  /** What follows a prefix. */
  function Strip(s: string, prefix: string): Option<string> {
    if prefix <= s then Some(s[|prefix|..]) else None
  }

  /** The number at the head of s and what follows it. */
  function Number(s: string): Option<(int, string)> {
    var k := Digits(s);
    if k == 0 then None else Some((Clamped(s[..k]), s[k..]))
  }

  /** (\..+)?$ */
  predicate DottedTail(s: string) {
    s == "" || (s[0] == '.' && |s| > 1 && '\n' !in s[1..])
  }

  /** ^org(\d+)(\..+)?$ */
  function ParseOrg(s: string): Option<int> {
    match Strip(s, "org")
    case None => None
    case Some(t) =>
      match Number(t)
      case Some((i, tail)) => if DottedTail(tail) then Some(i) else None
      case None => None
  }

  /** ^peer(\d+)\.org(\d+)(\..+)?$ */
  function ParsePeer(s: string): Option<PeerRef> {
    match Strip(s, "peer")
    case None => None
    case Some(t) =>
      match Number(t)
      case None => None
      case Some((j, u)) =>
        match Strip(u, ".")
        case None => None
        case Some(org) =>
          match ParseOrg(org)
          case None => None
          case Some(i) => Some(PeerRef(i, j))
  }

  lemma StripIs(prefix: string, s: string)
    ensures Strip(prefix + s, prefix) == Some(s)
  {
  }

  lemma {:induction false} DigitsOf(d: string, rest: string)
    requires AllDigits(d) && (rest == "" || !IsDigit(rest[0]))
    ensures Digits(d + rest) == |d| && (d + rest)[..|d|] == d && (d + rest)[|d|..] == rest
    decreases |d|
  {
    if d == "" {
      assert d + rest == rest;
    } else {
      DigitsOf(d[1..], rest);
      assert (d + rest)[1..] == d[1..] + rest;
    }
  }

  lemma NumberIs(n: int, s: string)
    requires n >= 0
    ensures Number(Itoa(n) + ("." + s)).Some? && Number(Itoa(n) + ("." + s)).value.1 == "." + s
    ensures n <= MAX_INT ==> Number(Itoa(n) + ("." + s)).value.0 == n
  {
    DigitsOf(Itoa(n), "." + s);
    NatRoundTrip(n);
  }

  /** ParsePeer inverts PeerName exactly for a domain that is one line and not empty. */
  lemma ParsePeerIff(domain: string, i: int, j: int)
    requires 0 <= i <= MAX_INT && 0 <= j <= MAX_INT
    ensures ParsePeer(PeerName(domain, i, j)) ==
            if domain != "" && '\n' !in domain then Some(PeerRef(i, j)) else None
  {
    hide Strip, Number, Itoa;
    StripIs("peer", Itoa(j) + ("." + OrgName(domain, i)));
    NumberIs(j, OrgName(domain, i));
    StripIs(".", OrgName(domain, i));
    StripIs("org", Itoa(i) + ("." + domain));
    NumberIs(i, domain);
    assert ("." + domain)[1..] == domain;
  }

  /** peer<j>.org<i>, and after it nothing or a domain: j and i are any digits. */
  ghost predicate PeerForm(s: string, j: string, i: string, tail: string) {
    && AllDigits(j) && j != "" && AllDigits(i) && i != ""
    && s == "peer" + j + ".org" + i + tail
    && (tail == "" || (tail[0] == '.' && |tail| > 1 && '\n' !in tail))
  }

  function Capped(digits: string): int
    requires AllDigits(digits)
  {
    if NatValue(digits) <= 0x7FFF_FFFF_FFFF_FFFF then NatValue(digits) else 0x7FFF_FFFF_FFFF_FFFF
  }

  lemma NumberOf(d: string, rest: string)
    requires AllDigits(d) && d != "" && (rest == "" || !IsDigit(rest[0]))
    ensures Number(d + rest) == Some((Capped(d), rest))
  {
    DigitsOf(d, rest);
  }

  lemma NumberSplits(s: string)
    requires Number(s).Some?
    ensures
      var k := Digits(s);
      k > 0 && s == s[..k] + s[k..] && AllDigits(s[..k]) && Number(s) == Some((Capped(s[..k]), s[k..]))
  {
  }

  lemma PeerFormIsRead(s: string, j: string, i: string, tail: string)
    requires PeerForm(s, j, i, tail)
    ensures ParsePeer(s) == Some(PeerRef(Capped(i), Capped(j)))
  {
    hide Number, Strip, Capped;
    var org := "org" + (i + tail);
    assert s == "peer" + (j + ("." + org)) by {
      assert ".org" == "." + "org";
    }
    StripIs("peer", j + ("." + org));
    NumberOf(j, "." + org);
    StripIs(".", org);
    StripIs("org", i + tail);
    NumberOf(i, tail);
    assert tail != "" ==> tail[1..] <= tail[1..] && forall k :: 0 <= k < |tail| - 1 ==> tail[1..][k] == tail[k+1];
  }

  lemma StripFound(s: string, prefix: string)
    requires Strip(s, prefix).Some?
    ensures s == prefix + Strip(s, prefix).value
  {
  }

  /** ParsePeer reads exactly the names of this form, also without a domain. */
  lemma {:induction false} ParsePeerReads(s: string)
    ensures ParsePeer(s).Some? <==> exists j, i, tail :: PeerForm(s, j, i, tail)
    ensures forall j, i, tail :: PeerForm(s, j, i, tail) ==> ParsePeer(s) == Some(PeerRef(Capped(i), Capped(j)))
  {
    forall j, i, tail | PeerForm(s, j, i, tail) ensures ParsePeer(s) == Some(PeerRef(Capped(i), Capped(j))) {
      PeerFormIsRead(s, j, i, tail);
    }
    if ParsePeer(s).Some? {
      hide Strip, Number, PeerForm, Capped;
      var t := Strip(s, "peer").value;
      var (_, u) := Number(t).value;
      var org := Strip(u, ".").value;
      var rest := Strip(org, "org").value;
      var (_, tail) := Number(rest).value;
      NumberSplits(t);
      NumberSplits(rest);
      StripFound(s, "peer");
      StripFound(u, ".");
      StripFound(org, "org");
      var j, i := t[..Digits(t)], rest[..Digits(rest)];
      IsPeerForm(s, j, i, tail);
    }
  }

  lemma IsPeerForm(s: string, j: string, i: string, tail: string)
    requires AllDigits(j) && j != "" && AllDigits(i) && i != "" && DottedTail(tail)
    requires s == "peer" + (j + ("." + ("org" + (i + tail))))
    ensures PeerForm(s, j, i, tail)
  {
    assert ".org" == "." + "org";
    assert s == "peer" + j + ".org" + i + tail;
    assert tail != "" ==> tail == [tail[0]] + tail[1..];
  }

  /** The number before a point is read off a name in one way. */
  lemma NumberBeforePoint(m: int, s: string, n: int, t: string)
    requires m >= 0 && n >= 0 && Itoa(m) + ("." + s) == Itoa(n) + ("." + t)
    ensures m == n && s == t
  {
    DigitsOf(Itoa(m), "." + s);
    DigitsOf(Itoa(n), "." + t);
    assert ("." + s)[1..] == s && ("." + t)[1..] == t;
    ItoaInjective(m, n);
  }

  /** Different peers have different host names, in every domain. */
  lemma PeerNameInjective(domain: string, i: int, j: int, i': int, j': int)
    requires i >= 0 && j >= 0 && i' >= 0 && j' >= 0
    requires PeerName(domain, i, j) == PeerName(domain, i', j')
    ensures i == i' && j == j'
  {
    hide Itoa;
    StripIs("peer", Itoa(j) + ("." + OrgName(domain, i)));
    StripIs("peer", Itoa(j') + ("." + OrgName(domain, i')));
    NumberBeforePoint(j, OrgName(domain, i), j', OrgName(domain, i'));
    StripIs("org", Itoa(i) + ("." + domain));
    StripIs("org", Itoa(i') + ("." + domain));
    NumberBeforePoint(i, domain, i', domain);
  }
}
