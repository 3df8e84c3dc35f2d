/** The logarithmic calibration of the SCOS-2000 MIB interface control
    document EGOS-MCS-S2K-ICD-0001 v6.9: Y = 1 / (A0 + A1 ln X + ... + An ln^n X).
    The natural logarithm is a parameter (floating point is outside the
    model); the sum is exact over the reals. */
module LogCalibration {
  import opened Wrappers

  /** The polynomial in Horner form: `a[0] + u * (a[1] + u * (...))`. */
  function Horner(u: real, a: seq<real>): real
    decreases |a|
  {
    if |a| == 0 then 0.0 else a[0] + u * Horner(u, a[1..])
  }

  function Power(u: real, n: nat): real {
    if n == 0 then 1.0 else u * Power(u, n - 1)
  }

  /** The polynomial as written in the formula: the sum of `a[i] * u^i`. */
  function PowerSum(u: real, a: seq<real>): real
    decreases |a|
  {
    if |a| == 0 then 0.0 else PowerSum(u, a[..|a| - 1]) + a[|a| - 1] * Power(u, |a| - 1)
  }

  /** Taking the constant coefficient off the front of a power sum. */
  lemma {:induction false} PowerSumCons(u: real, c: real, t: seq<real>)
    ensures PowerSum(u, [c] + t) == c + u * PowerSum(u, t)
    decreases |t|
  {
    var s := [c] + t;
    if |t| == 0 {
      assert s[..0] == [];
    } else {
      var n := |t|;
      var init := t[..n - 1];
      var last := t[n - 1];
      assert s[..|s| - 1] == [c] + init;
      PowerSumCons(u, c, init);
      var x := PowerSum(u, init);
      var p := Power(u, n - 1);
      assert PowerSum(u, s) == c + u * x + last * (u * p);
      assert PowerSum(u, t) == x + last * p;
      assert u * (x + last * p) == u * x + last * (u * p);
    }
  }

  /** Horner form and power sum agree for every coefficient list. */
  lemma {:induction false} HornerIsPowerSum(u: real, a: seq<real>)
    ensures Horner(u, a) == PowerSum(u, a)
    decreases |a|
  {
    if |a| > 0 {
      HornerIsPowerSum(u, a[1..]);
      PowerSumCons(u, a[0], a[1..]);
      assert [a[0]] + a[1..] == a;
    }
  }

  /** `LogCalibration.calibrate(v, a)` given `u = ln v`: the loop runs from
      the top coefficient down, and the result is the reciprocal of the sum.
      A zero sum is the host's infinity, which the model leaves as `None`. */
  method Calibrate(u: real, a: seq<real>) returns (r: Option<real>)
    ensures PowerSum(u, a) == 0.0 ==> r.None?
    ensures PowerSum(u, a) != 0.0 ==> r == Some(1.0 / PowerSum(u, a))
  {
    var sum := 0.0;
    var i := |a|;
    while i > 0
      invariant 0 <= i <= |a|
      invariant sum == Horner(u, a[i..])
      decreases i
    {
      i := i - 1;
      assert a[i..][1..] == a[i + 1..];
      sum := u * sum + a[i];
    }
    assert a[0..] == a;
    HornerIsPowerSum(u, a);
    if sum == 0.0 {
      r := None;
    } else {
      r := Some(1.0 / sum);
    }
  }

  /** Zero coefficients appended at the high end change nothing: the LGF
      loader pads every row to five coefficients. */
  lemma {:induction false} PaddingNeutral(u: real, a: seq<real>)
    ensures Horner(u, a + [0.0]) == Horner(u, a)
    decreases |a|
  {
    if |a| == 0 {
      assert [0.0][1..] == [];
    } else {
      assert (a + [0.0])[1..] == a[1..] + [0.0];
      PaddingNeutral(u, a[1..]);
    }
  }

  /** With only the constant coefficient, padded to the five the LGF
      loader stores, the sum is `a0` whatever the value: the result is
      `1 / a0`. */
  lemma ConstantOnly(u: real, a0: real)
    ensures PowerSum(u, [a0, 0.0, 0.0, 0.0, 0.0]) == a0
  {
    var a := [a0];
    assert [a0][1..] == [];
    PaddingNeutral(u, a);
    PaddingNeutral(u, a + [0.0]);
    PaddingNeutral(u, a + [0.0] + [0.0]);
    PaddingNeutral(u, a + [0.0] + [0.0] + [0.0]);
    assert a + [0.0] + [0.0] + [0.0] + [0.0] == [a0, 0.0, 0.0, 0.0, 0.0];
    HornerIsPowerSum(u, [a0, 0.0, 0.0, 0.0, 0.0]);
  }
}
