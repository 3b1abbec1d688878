/** Decimal text of integers, as strconv.Itoa writes it and strconv.Atoi reads it. */
module Decimal {
  import opened Wrappers

  predicate IsDigit(c: char) {
    '0' <= c <= '9'
  }

  predicate AllDigits(s: string) {
    forall i :: 0 <= i < |s| ==> IsDigit(s[i])
  }

  function DigitChar(d: nat): (c: char)
    requires d < 10
    ensures IsDigit(c) && DigitValue(c) == d
  {
    ('0' as int + d) as char
  }

  function DigitValue(c: char): (d: nat)
    requires IsDigit(c)
    ensures d < 10
  {
    c as int - '0' as int
  }

  function NatText(n: nat): (s: string)
    ensures s != [] && AllDigits(s)
  {
    if n < 10 then [DigitChar(n)] else NatText(n / 10) + [DigitChar(n % 10)]
  }

  function NatValue(s: string): nat
    requires AllDigits(s)
  {
    if s == [] then 0 else 10 * NatValue(s[..|s|-1]) + DigitValue(s[|s|-1])
  }

  lemma {:induction false} NatRoundTrip(n: nat)
    ensures NatValue(NatText(n)) == n
  {
    if n >= 10 {
      NatRoundTrip(n / 10);
      assert NatText(n)[..|NatText(n)| - 1] == NatText(n / 10);
    }
  }

  lemma {:induction false} NatValueConcat(s: string, u: string)
    requires AllDigits(s) && AllDigits(u)
    ensures AllDigits(s + u) && NatValue(s + u) == NatValue(s) * Power10(|u|) + NatValue(u)
    decreases |u|
  {
    EmptyIsZero();
    hide NatValue, DigitValue;
    if u == [] {
      assert s + u == s;
    } else {
      var v := u[..|u|-1];
      NatValueConcat(s, v);
      assert (s + u)[..|s + u| - 1] == s + v && (s + u)[|s + u| - 1] == u[|u|-1];
      TimesTen(NatValue(s), Power10(|v|));
      NatValueLast(s + u);
      NatValueLast(u);
    }
  }

  lemma EmptyIsZero()
    ensures NatValue("") == 0
  {
  }

  lemma NatValueLast(s: string)
    requires s != [] && AllDigits(s)
    ensures NatValue(s) == 10 * NatValue(s[..|s|-1]) + DigitValue(s[|s|-1])
  {
  }

  lemma TimesTen(a: nat, p: nat)
    ensures 10 * (a * p) == a * (10 * p)
  {
  }

  function Power10(n: nat): nat {
    if n == 0 then 1 else 10 * Power10(n - 1)
  }

  function Itoa(n: int): (s: string)
    ensures s != []
    ensures n >= 0 ==> AllDigits(s)
  {
    if n < 0 then "-" + NatText(-n) else NatText(n)
  }

  const MAX_INT: int := 0x7FFF_FFFF_FFFF_FFFF
  const MIN_INT: int := -0x8000_0000_0000_0000

  /** strconv.Atoi on a 64-bit platform: an optional sign, digits, and no overflow. */
  function Atoi(s: string): Option<int> {
    var signed := s != [] && (s[0] == '-' || s[0] == '+');
    var digits := if signed then s[1..] else s;
    if digits == [] || !AllDigits(digits) then None
    else
      var n := (if signed && s[0] == '-' then -1 else 1) * NatValue(digits);
      if MIN_INT <= n <= MAX_INT then Some(n) else None
  }

  lemma AtoiItoa(n: int)
    requires MIN_INT <= n <= MAX_INT
    ensures Atoi(Itoa(n)) == Some(n)
  {
    hide NatText, NatValue;
    if n < 0 {
      assert Itoa(n)[1..] == NatText(-n);
      NatRoundTrip(-n);
    } else {
      NatRoundTrip(n);
      assert IsDigit(Itoa(n)[0]);
    }
  }

  /** s is a sign or none, and then digits. */
  ghost predicate Signed(s: string, sign: string, digits: string) {
    s == sign + digits && sign in ["", "+", "-"] && digits != "" && AllDigits(digits)
  }

  /** Atoi reads exactly the signed digits that stand for a 64-bit integer. */
  lemma {:induction false} AtoiIff(s: string)
    ensures forall sign, digits :: Signed(s, sign, digits) ==>
              var n: int := if sign == "-" then 0 - NatValue(digits) else NatValue(digits);
              Atoi(s) == if -0x8000_0000_0000_0000 <= n <= 0x7FFF_FFFF_FFFF_FFFF then Some(n) else None
    ensures Atoi(s).Some? ==> exists sign, digits :: Signed(s, sign, digits)
  {
    hide NatValue;
    forall sign, digits | Signed(s, sign, digits)
      ensures
        var n: int := if sign == "-" then 0 - NatValue(digits) else NatValue(digits);
        Atoi(s) == if -0x8000_0000_0000_0000 <= n <= 0x7FFF_FFFF_FFFF_FFFF then Some(n) else None
    {
      if sign == "" {
        assert s == digits && IsDigit(s[0]);
      } else {
        assert s[1..] == digits && s[0] == sign[0];
      }
    }
    if Atoi(s).Some? {
      if s[0] == '-' || s[0] == '+' {
        assert s == [s[0]] + s[1..];
        assert Signed(s, [s[0]], s[1..]);
      } else {
        assert Signed(s, "", s) by {
          assert "" + s == s;
        }
      }
    }
  }

  lemma ItoaInjective(m: int, n: int)
    requires m >= 0 && n >= 0 && Itoa(m) == Itoa(n)
    ensures m == n
  {
    NatRoundTrip(m);
    NatRoundTrip(n);
  }
}
