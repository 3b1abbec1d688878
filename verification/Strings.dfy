/** What package strings does. */
module Strings {
  predicate HasPrefix(s: string, t: string) {
    t <= s
  }

  predicate HasSuffix(s: string, t: string) {
    |t| <= |s| && s[|s|-|t|..] == t
  }

  function Join(xs: seq<string>, sep: string): string {
    if xs == [] then ""
    else if |xs| == 1 then xs[0]
    else xs[0] + sep + Join(xs[1..], sep)
  }

  lemma JoinMore(xs: seq<string>, sep: string, y: string)
    ensures Join(xs + [y], sep) == if xs == [] then y else Join(xs, sep) + sep + y
  {
    if |xs| > 1 {
      JoinMore(xs[1..], sep, y);
      assert (xs + [y])[1..] == xs[1..] + [y];
    }
  }

  lemma {:induction false} JoinAvoids(xs: seq<string>, sep: string, c: char)
    requires c !in sep && forall i :: 0 <= i < |xs| ==> c !in xs[i]
    ensures c !in Join(xs, sep)
    decreases |xs|
  {
    if |xs| > 1 {
      JoinAvoids(xs[1..], sep, c);
    }
  }

  /** The number of characters before the first c, or all of them. */
  function IndexOf(s: string, c: char): (k: nat)
    ensures k <= |s| && c !in s[..k] && (k < |s| ==> s[k] == c)
  {
    if s == [] || s[0] == c then 0 else 1 + IndexOf(s[1..], c)
  }

  function Split(s: string, sep: char): (parts: seq<string>)
    ensures parts != [] && forall p :: p in parts ==> sep !in p
    decreases |s|
  {
    var k := IndexOf(s, sep);
    if k == |s| then [s] else [s[..k]] + Split(s[k+1..], sep)
  }

  lemma {:induction false} IndexOfFirst(s: string, k: nat, c: char)
    requires k <= |s| && (k < |s| ==> s[k] == c)
    requires forall i :: 0 <= i < k ==> s[i] != c
    ensures IndexOf(s, c) == k
    decreases k
  {
    if k > 0 {
      IndexOfFirst(s[1..], k - 1, c);
    }
  }

  lemma SplitFirst(x: string, sep: char, rest: string)
    requires sep !in x
    ensures Split(x, sep) == [x] && Split(x + [sep] + rest, sep) == [x] + Split(rest, sep)
  {
    var s := x + [sep] + rest;
    assert forall i :: 0 <= i < |x| ==> x[i] in x && s[i] == x[i];
    IndexOfFirst(x, |x|, sep);
    IndexOfFirst(s, |x|, sep);
    assert x[..|x|] == x && s[..|x|] == x && s[|x|+1..] == rest;
  }

  /** Joining the parts gives back what was split. */
  lemma {:induction false} JoinSplit(s: string, sep: char)
    ensures Join(Split(s, sep), [sep]) == s
    decreases |s|
  {
    hide Split, IndexOf, Join;
    var k := IndexOf(s, sep);
    SplitStep(s, sep);
    if k < |s| {
      JoinSplit(s[k+1..], sep);
      JoinFirst(s[..k], Split(s[k+1..], sep), [sep]);
      assert s == s[..k] + [sep] + s[k+1..];
    }
  }

  lemma SplitStep(s: string, sep: char)
    ensures var k := IndexOf(s, sep); if k == |s| then Join(Split(s, sep), [sep]) == s else Split(s, sep) == [s[..k]] + Split(s[k+1..], sep)
  {
    hide IndexOf;
  }

  lemma JoinFirst(x: string, xs: seq<string>, sep: string)
    requires xs != []
    ensures Join([x] + xs, sep) == x + sep + Join(xs, sep)
  {
    assert ([x] + xs)[1..] == xs;
  }

  /** Splitting what was joined gives the parts back. */
  lemma {:induction false} SplitJoin(xs: seq<string>, sep: char)
    requires xs != [] && forall i :: 0 <= i < |xs| ==> sep !in xs[i]
    ensures Split(Join(xs, [sep]), sep) == xs
    decreases |xs|
  {
    hide Split;
    SplitFirst(xs[0], sep, Join(xs[1..], [sep]));
    if |xs| > 1 {
      SplitJoin(xs[1..], sep);
    }
  }
}
