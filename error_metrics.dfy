/** The comparison of the simulated ascent with the recorded one: absolute
    and percentage errors of two series sampled on the same time grid, and
    the largest absolute error with the percentage at that sample. */
module ErrorMetrics {
  import opened Numerics

  /** The absolute difference of each pair of samples, as far as the shorter
      series reaches. */
  function AbsErrors(xs: seq<real>, ys: seq<real>): (r: seq<real>)
    ensures |r| == Min(|xs|, |ys|)
    ensures forall k :: 0 <= k < |r| ==> 0.0 <= r[k]
    ensures forall k :: 0 <= k < |r| ==> (r[k] == 0.0 <==> xs[k] == ys[k])
  {
    seq(Min(|xs|, |ys|), k requires 0 <= k < Min(|xs|, |ys|) => Abs(xs[k] - ys[k]))
  }

  /** The error of `interpolated` relative to `model`, in percent, with 0
      when the model value is 0. */
  function PercentError(model: real, interpolated: real): real {
    if model != 0.0 then Abs(model - interpolated) / model * 100.0 else 0.0
  }

  /** A percentage error vanishes when the values agree or the model value is
      0; it is positive for a positive model value that disagrees, and, since
      the divisor keeps its sign, negative for a negative one. */
  lemma PercentErrorSign(model: real, interpolated: real)
    ensures model == interpolated || model == 0.0 ==> PercentError(model, interpolated) == 0.0
    ensures 0.0 < model && model != interpolated ==> 0.0 < PercentError(model, interpolated)
    ensures model < 0.0 && model != interpolated ==> PercentError(model, interpolated) < 0.0
  {
    var d := Abs(model - interpolated);
    if 0.0 < model && model != interpolated {
      DivPos(d, model);
    } else if model < 0.0 && model != interpolated {
      DivPos(d, -model);
      assert d / model == -(d / -model);
    }
  }

  /** The percentage errors of two series, as far as the shorter one reaches. */
  function PercentErrors(model: seq<real>, interpolated: seq<real>): (r: seq<real>)
    ensures |r| == Min(|model|, |interpolated|)
    ensures forall k :: 0 <= k < |r| && (model[k] == 0.0 || model[k] == interpolated[k]) ==> r[k] == 0.0
    ensures forall k :: 0 <= k < |r| && 0.0 < model[k] && model[k] != interpolated[k] ==> 0.0 < r[k]
  {
    var n := Min(|model|, |interpolated|);
    var r := seq(n, k requires 0 <= k < n => PercentError(model[k], interpolated[k]));
    PercentErrorsSigns(model, interpolated, r);
    r
  }

  lemma PercentErrorsSigns(model: seq<real>, interpolated: seq<real>, r: seq<real>)
    requires |r| <= |model| && |r| <= |interpolated|
    requires forall k :: 0 <= k < |r| ==> r[k] == PercentError(model[k], interpolated[k])
    ensures forall k :: 0 <= k < |r| && (model[k] == 0.0 || model[k] == interpolated[k]) ==> r[k] == 0.0
    ensures forall k :: 0 <= k < |r| && 0.0 < model[k] && model[k] != interpolated[k] ==> 0.0 < r[k]
  {
    forall k | 0 <= k < |r| {
      PercentErrorSign(model[k], interpolated[k]);
    }
  }

  /** Each percentage error is the absolute error at that sample over the
      model value, in percent. */
  lemma PercentOfAbsolute(model: seq<real>, interpolated: seq<real>, k: nat)
    requires k < Min(|model|, |interpolated|) && model[k] != 0.0
    ensures PercentErrors(model, interpolated)[k] == AbsErrors(model, interpolated)[k] / model[k] * 100.0
  {
  }

  // ---------------------------------------------------------------------
  // The largest error

  /** A time and the percentage error reported for it. */
  datatype Peak = Peak(time: real, percent: real)

  /** The number of samples the three series have in common. */
  function Common(times: seq<real>, model: seq<real>, interpolated: seq<real>): nat {
    Min(|times|, Min(|model|, |interpolated|))
  }

  /** The position of the largest of the first `n` entries, scanning from
      the front and moving on at every entry that is at least as large. */
  function LastMaxIndex(errs: seq<real>, n: nat): (k: nat)
    requires 0 < n <= |errs|
    ensures k < n
  {
    if n == 1 then 0
    else
      var k := LastMaxIndex(errs, n - 1);
      if errs[n - 1] >= errs[k] then n - 1 else k
  }

  /** The scan finds the largest entry, and the last of several equal ones. */
  lemma {:induction false} LastMaxIndexIsLastMaximum(errs: seq<real>, n: nat)
    requires 0 < n <= |errs|
    ensures forall j :: 0 <= j < n ==> errs[j] <= errs[LastMaxIndex(errs, n)]
    ensures forall j :: LastMaxIndex(errs, n) < j < n ==> errs[j] < errs[LastMaxIndex(errs, n)]
  {
    if n > 1 {
      LastMaxIndexIsLastMaximum(errs, n - 1);
    }
  }

  /** What the comparison reports: the time and percentage error at the last
      largest absolute error, or (0, 0) when there are no samples. */
  function PeakError(times: seq<real>, model: seq<real>, interpolated: seq<real>): Peak {
    var n := Common(times, model, interpolated);
    if n == 0 then Peak(0.0, 0.0)
    else
      var k := LastMaxIndex(AbsErrors(model, interpolated), n);
      Peak(times[k], PercentError(model[k], interpolated[k]))
  }

  /** The reported peak sits at a sample whose absolute error is the largest
      of all, and no later sample's is as large; its percentage is the one at
      that sample. */
  lemma PeakErrorIsLargest(times: seq<real>, model: seq<real>, interpolated: seq<real>)
    requires Common(times, model, interpolated) > 0
    ensures var n := Common(times, model, interpolated);
      exists k :: 0 <= k < n
        && PeakError(times, model, interpolated) == Peak(times[k], PercentError(model[k], interpolated[k]))
        && (forall j :: 0 <= j < n ==> Abs(model[j] - interpolated[j]) <= Abs(model[k] - interpolated[k]))
        && (forall j :: k < j < n ==> Abs(model[j] - interpolated[j]) < Abs(model[k] - interpolated[k]))
  {
    var n := Common(times, model, interpolated);
    var errs := AbsErrors(model, interpolated);
    LastMaxIndexIsLastMaximum(errs, n);
    var k := LastMaxIndex(errs, n);
    assert forall j :: 0 <= j < n ==> errs[j] == Abs(model[j] - interpolated[j]);
  }

  /** The loop over the three zipped series, keeping the largest absolute
      error so far and the report for it; the printed message becomes the
      returned peak. */
  method MaxPercentError(times: seq<real>, model: seq<real>, interpolated: seq<real>) returns (result: Peak)
    ensures result == PeakError(times, model, interpolated)
    ensures Common(times, model, interpolated) == 0 ==> result == Peak(0.0, 0.0)
  {
    var n := Common(times, model, interpolated);
    ghost var errs := AbsErrors(model, interpolated);
    assert n <= |times| && n <= |model| && n <= |interpolated| && n <= |errs|;
    ghost var k := 0;
    var seen := false;  // `maximum` is still minus infinity
    var maximum := 0.0;
    result := Peak(0.0, 0.0);
    var i := 0;
    while i < n
      invariant 0 <= i <= n
      invariant seen <==> 0 < i
      invariant seen ==> k == LastMaxIndex(errs, i) && maximum == errs[k]
      invariant seen ==> result == Peak(times[k], PercentError(model[k], interpolated[k]))
      invariant !seen ==> result == Peak(0.0, 0.0)
    {
      var e := Abs(model[i] - interpolated[i]);
      assert e == errs[i];
      assert seen ==> LastMaxIndex(errs, i + 1) == if e >= maximum then i else k;
      if !seen || e >= maximum {
        maximum := e;
        result := Peak(times[i], if model[i] != 0.0 then e / model[i] * 100.0 else 0.0);
        k := i;
      }
      seen := true;
      i := i + 1;
    }
  }
}
