// The shift-based moving average kept by the epoch handler (src/throttling_hidden.c:44-57).
// Samples are numbers of blocked threads; the stored value is scaled by 1024.
module MovingAverage {

  // One update. `curr_blocked << 10` and `>> 2` are exact on naturals.
  function AverageStep(stored: nat, sample: nat): nat
  {
    if stored == 0 then sample * 1024 else stored - stored / 4 + sample * 1024 / 4
  }

  // The stored value after a whole history of samples, oldest first.
  function Average(samples: seq<nat>): nat
  {
    if samples == [] then 0
    else AverageStep(Average(samples[..|samples| - 1]), samples[|samples| - 1])
  }

  // The exact rational average the shifts approximate: it starts at 1024 times the
  // first non-zero sample and then keeps three quarters of itself.
  function ExactAverage(samples: seq<nat>): real
  {
    if samples == [] then 0.0
    else
      var front, last := samples[..|samples| - 1], samples[|samples| - 1];
      if AllZero(front) then 1024.0 * last as real
      else 0.75 * ExactAverage(front) + 256.0 * last as real
  }

  predicate AllZero(samples: seq<nat>)
  {
    forall i :: 0 <= i < |samples| ==> samples[i] == 0
  }

  function Peak(samples: seq<nat>): nat
  {
    if samples == [] then 0
    else
      var p, last := Peak(samples[..|samples| - 1]), samples[|samples| - 1];
      if last > p then last else p
  }

  // Peak is the maximum of the samples (0 for the empty history).
  lemma {:induction false} PeakIsMaximum(samples: seq<nat>)
    ensures forall i :: 0 <= i < |samples| ==> samples[i] <= Peak(samples)
    ensures samples == [] ==> Peak(samples) == 0
    ensures samples != [] ==> Peak(samples) in samples
  {
    if samples != [] {
      var front := samples[..|samples| - 1];
      PeakIsMaximum(front);
      assert forall i :: 0 <= i < |front| ==> samples[i] == front[i];
      if front != [] {
        assert Peak(front) in samples;
      }
    }
  }

  // The `temp == 0` test recognises exactly the histories without a non-zero sample.
  lemma {:induction false} ZeroIffAllSamplesZero(samples: seq<nat>)
    ensures Average(samples) == 0 <==> AllZero(samples)
  {
    if samples != [] {
      var front, last := samples[..|samples| - 1], samples[|samples| - 1];
      ZeroIffAllSamplesZero(front);
      assert AllZero(samples) <==> AllZero(front) && last == 0;
    }
  }

  lemma {:induction false} AverageAtMostPeak(samples: seq<nat>)
    ensures Average(samples) <= 1024 * Peak(samples)
  {
    if samples != [] {
      AverageAtMostPeak(samples[..|samples| - 1]);
    }
  }

  // Truncation costs less than 3 units of 1/1024 thread, for ever.
  lemma {:induction false} FixedPointError(samples: seq<nat>)
    ensures 0.0 <= Average(samples) as real - ExactAverage(samples) < 3.0
  {
    if samples != [] {
      var front := samples[..|samples| - 1];
      FixedPointError(front);
      ZeroIffAllSamplesZero(front);
      var e := Average(front);
      assert 4 * (e / 4) <= e <= 4 * (e / 4) + 3;
    }
  }

  // `n` further updates with a constant sample.
  function Constant(stored: nat, sample: nat, n: nat): nat
    decreases n
  {
    if n == 0 then stored else Constant(AverageStep(stored, sample), sample, n - 1)
  }

  // Where a constant sample drives the stored value: exactly 1024 * sample from
  // below, the top of the dead band from above, nowhere inside the band.
  function Limit(stored: nat, sample: nat): nat
  {
    if stored < 1024 * sample then 1024 * sample
    else if stored > 1024 * sample + 3 then 1024 * sample + 3
    else stored
  }

  function Distance(stored: nat, sample: nat): nat
  {
    var l := Limit(stored, sample);
    if stored < l then l - stored else stored - l
  }

  // Each update strictly approaches the limit, never crosses it, and keeps it.
  lemma ConstantSampleApproaches(stored: nat, sample: nat)
    ensures Limit(AverageStep(stored, sample), sample) == Limit(stored, sample)
    ensures Distance(stored, sample) > 0 ==> Distance(AverageStep(stored, sample), sample) < Distance(stored, sample)
    ensures Distance(stored, sample) == 0 ==> AverageStep(stored, sample) == stored
  {
    var q, r := stored / 4, stored % 4;
    assert stored == 4 * q + r;
    assert sample * 1024 / 4 == 256 * sample;
    assert stored != 0 ==> AverageStep(stored, sample) == 3 * q + r + 256 * sample;
    if stored != 0 {
      StepTowards(q, r, sample);
    }
  }

  // The same fact on the quotient and remainder of the stored value by 4.
  lemma StepTowards(q: nat, r: nat, sample: nat)
    requires r < 4
    ensures var stored, next := 4 * q + r, 3 * q + r + 256 * sample;
            && (stored < 1024 * sample ==> stored < next <= 1024 * sample)
            && (1024 * sample <= stored <= 1024 * sample + 3 ==> next == stored)
            && (stored > 1024 * sample + 3 ==> 1024 * sample + 3 <= next < stored)
  {
  }

  // After at most Distance updates the limit is reached and held.
  lemma {:induction false} ConstantSampleConverges(stored: nat, sample: nat, n: nat)
    requires n >= Distance(stored, sample)
    ensures Constant(stored, sample, n) == Limit(stored, sample)
    ensures 1024 * sample <= Constant(stored, sample, n) <= 1024 * sample + 3
    decreases n
  {
    if n > 0 {
      ConstantSampleApproaches(stored, sample);
      ConstantSampleConverges(AverageStep(stored, sample), sample, n - 1);
    }
  }
}
