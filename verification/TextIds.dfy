/**
 The identifiers the coordinator prints.  Work ids, decision ids and instance ids are formatted
 strings, so two of them differ only if the formatting can be read back.
 */
module TextIds {

  const DIGITS := "0123456789"

  /** `str(n)` for a non-negative integer. */
  function Decimal(n: nat): (s: string)
    ensures |s| > 0
    ensures AllDigits(s)
    decreases n
  {
    if n < 10 then [DIGITS[n]] else Decimal(n / 10) + [DIGITS[n % 10]]
  }

  predicate AllDigits(s: string) {
    forall c <- s :: c in DIGITS
  }

  function DigitValue(c: char): nat {
    if '0' <= c <= '9' then (c as int) - ('0' as int) else 0
  }

  /** The number a digit string denotes, leading zeros included. */
  function Value(s: string): nat {
    if s == [] then 0 else 10 * Value(s[..|s| - 1]) + DigitValue(s[|s| - 1])
  }

  lemma {:induction false} ValueOfDecimal(n: nat)
    ensures Value(Decimal(n)) == n
    decreases n
  {
    if n >= 10 {
      ValueOfDecimal(n / 10);
      assert Decimal(n)[..|Decimal(n)| - 1] == Decimal(n / 10);
    } else {
      assert Decimal(n)[..0] == [];
    }
  }

  /** `f"{n:06d}"`: padded with zeros to six characters. */
  function Pad6(n: nat): (s: string)
    ensures AllDigits(s)
  {
    var d := Decimal(n);
    Zeros(if |d| < 6 then 6 - |d| else 0) + d
  }

  function Zeros(k: nat): (s: string)
    ensures |s| == k && AllDigits(s)
  {
    if k == 0 then "" else "0" + Zeros(k - 1)
  }

  lemma {:induction false} LeadingZeros(k: nat, s: string)
    ensures Value(Zeros(k) + s) == Value(s)
    decreases k + |s|
  {
    if s != [] {
      var z := Zeros(k) + s;
      assert z[..|z| - 1] == Zeros(k) + s[..|s| - 1];
      LeadingZeros(k, s[..|s| - 1]);
    } else if k > 0 {
      var z := Zeros(k);
      assert Zeros(k) + s == z;
      ZerosEnd(k);
      LeadingZeros(k - 1, []);
      assert Zeros(k - 1) + [] == Zeros(k - 1);
    }
  }

  lemma {:induction false} ZerosEnd(k: nat)
    requires k > 0
    ensures Zeros(k)[..k - 1] == Zeros(k - 1) && Zeros(k)[k - 1] == '0'
  {
    if k > 1 {
      ZerosEnd(k - 1);
      assert Zeros(k)[..k - 1] == "0" + Zeros(k - 1)[..k - 2];
    } else {
      assert Zeros(1) == "0";
    }
  }

  lemma ValueOfPad6(n: nat)
    ensures Value(Pad6(n)) == n
  {
    var d := Decimal(n);
    LeadingZeros(if |d| < 6 then 6 - |d| else 0, d);
    ValueOfDecimal(n);
  }

  function WorkId(branchId: string, rngId: nat): string {
    branchId + "-" + Decimal(rngId)
  }

  function DecisionId(branchId: string, n: nat): string {
    "d-" + branchId + "-" + Pad6(n)
  }

  function InstanceId(n: nat): string {
    "inst-" + Pad6(n)
  }

  /** In `a-x` with `x` all digits, the dash at |a| is the last one. */
  lemma LastDash(a: string, x: string)
    requires AllDigits(x)
    ensures var s := a + "-" + x;
            && s[|a|] == '-'
            && forall i | |a| < i < |s| :: s[i] != '-'
  {
    var s := a + "-" + x;
    forall i | |a| < i < |s|
      ensures s[i] != '-'
    {
      assert s[i] == x[i - |a| - 1];
      assert s[i] in x;
    }
  }

  /** A dash-free suffix after the last dash can always be read back. */
  lemma SplitAtLastDash(a: string, b: string, x: string, y: string)
    requires AllDigits(x) && AllDigits(y)
    requires a + "-" + x == b + "-" + y
    ensures a == b && x == y
  {
    var s := a + "-" + x;
    LastDash(a, x);
    LastDash(b, y);
    assert |a| == |b|;
    assert a == s[..|a|] == b;
    assert x == s[|a| + 1..] == (b + "-" + y)[|b| + 1..] == y;
  }

  /** Distinct (branch id, rng id) pairs get distinct work ids, whatever dashes a branch id holds. */
  lemma WorkIdsAreDistinct(b1: string, r1: nat, b2: string, r2: nat)
    ensures WorkId(b1, r1) == WorkId(b2, r2) <==> b1 == b2 && r1 == r2
  {
    if WorkId(b1, r1) == WorkId(b2, r2) {
      SplitAtLastDash(b1, b2, Decimal(r1), Decimal(r2));
      ValueOfDecimal(r1);
      ValueOfDecimal(r2);
    }
  }

  /** A decision id names the branch and the count it was issued under. */
  lemma DecisionIdsAreDistinct(b1: string, n1: nat, b2: string, n2: nat)
    ensures DecisionId(b1, n1) == DecisionId(b2, n2) <==> b1 == b2 && n1 == n2
  {
    if DecisionId(b1, n1) == DecisionId(b2, n2) {
      var x, y := "d-" + b1, "d-" + b2;
      SplitAtLastDash(x, y, Pad6(n1), Pad6(n2));
      assert b1 == x[2..] && b2 == y[2..];
      ValueOfPad6(n1);
      ValueOfPad6(n2);
    }
  }

  lemma InstanceIdsAreDistinct(m: nat, n: nat)
    ensures InstanceId(m) == InstanceId(n) <==> m == n
  {
    if InstanceId(m) == InstanceId(n) {
      assert Pad6(m) == InstanceId(m)[5..];
      assert Pad6(n) == InstanceId(n)[5..];
      ValueOfPad6(m);
      ValueOfPad6(n);
    }
  }
}
