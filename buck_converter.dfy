/** Time-domain simulation of a buck converter: the switch follows a fixed duty cycle within
    each switching period, the inductor current and capacitor voltage advance by explicit
    Euler steps, and the output voltage is averaged over the second half of the run. */
module BuckConverter {
  import opened JavaMath

  /** Circuit values: input voltage, inductance, capacitance, load resistance, switching
      period and duty cycle. */
  datatype Circuit = Circuit(vin: real, l: real, c: real, r: real, tSw: real, d: real)

  /** The equations can be evaluated: no zero divisor. */
  predicate Evaluable(cir: Circuit) {
    cir.l != 0.0 && cir.c != 0.0 && cir.r * cir.c != 0.0 && cir.tSw != 0.0
  }

  /** One logged sample: time, inductor current, capacitor voltage. */
  datatype Sample = Sample(t: real, iL: real, vC: real)

  /** The switch is on while the time within the current switching period (Java's `%`)
      is below d * tSw. From time 0 on, a duty cycle of 1 or more keeps it on and a duty
      cycle of 0 or less keeps it off. */
  function SwitchOn(cir: Circuit, t: real): (on: bool)
    requires cir.tSw != 0.0
    ensures cir.tSw > 0.0 && t >= 0.0 && cir.d >= 1.0 ==> on
    ensures cir.tSw > 0.0 && t >= 0.0 && cir.d <= 0.0 ==> !on
  {
    FMod(t, cir.tSw) < cir.d * cir.tSw
  }

  /** The inductor slope: (vin - vC) / l with the switch on, -vC / l with the diode
      conducting; l times it is the voltage across the inductor. */
  function InductorSlope(cir: Circuit, on: bool, vC: real): (slope: real)
    requires cir.l != 0.0
    ensures cir.l * slope == (if on then cir.vin else 0.0) - vC
  {
    if on then (cir.vin - vC) / cir.l else -vC / cir.l
  }

  /** The capacitor slope: the inductor current charges it, the load discharges it; c
      times it is the inductor current less the load current vC / r. */
  function CapacitorSlope(cir: Circuit, iL: real, vC: real): (slope: real)
    requires cir.c != 0.0 && cir.r * cir.c != 0.0
    ensures cir.c * slope == iL - vC / cir.r
  {
    iL / cir.c - vC / (cir.r * cir.c)
  }

  /** One explicit Euler step of size dt from sample s: the time advances by dt, and
      inductor current and capacitor voltage change by dt times their slopes, so l and c
      times the changes are dt times the inductor voltage and the capacitor current. */
  function EulerStep(cir: Circuit, dt: real, s: Sample): (next: Sample)
    requires Evaluable(cir)
    ensures next.t == s.t + dt
    ensures cir.l * (next.iL - s.iL) == dt * ((if SwitchOn(cir, s.t) then cir.vin else 0.0) - s.vC)
    ensures cir.c * (next.vC - s.vC) == dt * (s.iL - s.vC / cir.r)
  {
    var diL := InductorSlope(cir, SwitchOn(cir, s.t), s.vC);
    var dvC := CapacitorSlope(cir, s.iL, s.vC);
    Sample(s.t + dt, s.iL + diL * dt, s.vC + dvC * dt)
  }

  /** Sample k of a run that starts at rest at time 0; it is taken after k steps of dt. */
  function Run(cir: Circuit, dt: real, k: nat): (s: Sample)
    requires Evaluable(cir)
    ensures s.t == Periods(dt, k)
  {
    if k == 0 then Sample(0.0, 0.0, 0.0) else EulerStep(cir, dt, Run(cir, dt, k - 1))
  }

  /** Sample k of the run is taken at time k * dt. */
  lemma RunTime(cir: Circuit, dt: real, k: nat)
    requires Evaluable(cir)
    ensures Run(cir, dt, k).t == k as real * dt
  {
    PeriodsLength(dt, k);
  }

  /** Sample i of the logged series is sample i of the run. */
  ghost predicate SampleLogged(cir: Circuit, dt: real, time: seq<real>, iL: seq<real>, vC: seq<real>, i: nat)
    requires Evaluable(cir)
    requires i < |time| && |iL| == |time| && |vC| == |time|
  {
    Sample(time[i], iL[i], vC[i]) == Run(cir, dt, i)
  }

  /** The three logged series have one length and hold the run sample by sample. */
  ghost predicate RunLogged(cir: Circuit, dt: real, time: seq<real>, iL: seq<real>, vC: seq<real>)
    requires Evaluable(cir)
  {
    && |iL| == |time| && |vC| == |time|
    && forall i :: 0 <= i < |time| ==> SampleLogged(cir, dt, time, iL, vC, i)
  }

  /** Appending the Euler step from the last logged sample keeps the series on the run. */
  lemma RunLoggedSnoc(cir: Circuit, dt: real, time: seq<real>, iL: seq<real>, vC: seq<real>, next: Sample)
    requires Evaluable(cir)
    requires RunLogged(cir, dt, time, iL, vC) && |time| > 0
    requires next == EulerStep(cir, dt, Sample(time[|time| - 1], iL[|iL| - 1], vC[|vC| - 1]))
    ensures RunLogged(cir, dt, time + [next.t], iL + [next.iL], vC + [next.vC])
  {
    var n := |time|;
    var time', iL', vC' := time + [next.t], iL + [next.iL], vC + [next.vC];
    forall i | 0 <= i < |time'|
      ensures SampleLogged(cir, dt, time', iL', vC', i)
    {
      if i < n {
        assert SampleLogged(cir, dt, time, iL, vC, i);
      } else {
        assert SampleLogged(cir, dt, time, iL, vC, n - 1);
      }
    }
  }

  /** Within the first period the switch is on exactly for t < d * tSw. */
  lemma SwitchWithinPeriod(cir: Circuit, t: real)
    requires cir.tSw > 0.0 && 0.0 <= t < cir.tSw
    ensures SwitchOn(cir, t) <==> t < cir.d * cir.tSw
  {
    var q := t / cir.tSw;
    assert q * cir.tSw == t;
    if q >= 1.0 {
      assert q * cir.tSw >= 1.0 * cir.tSw;
    }
    assert Trunc(q) == 0;
  }

  /** The switch state repeats every switching period. */
  lemma SwitchPeriodic(cir: Circuit, t: real)
    requires cir.tSw > 0.0 && t >= 0.0
    ensures SwitchOn(cir, t + cir.tSw) == SwitchOn(cir, t)
  {
    FModPeriodic(t, cir.tSw);
  }

  /** The switch state at any non-negative time is the one at the matching instant of the
      first period. */
  lemma SwitchRepeats(cir: Circuit, t: real, k: nat)
    requires cir.tSw > 0.0 && t >= 0.0
    ensures SwitchOn(cir, t + k as real * cir.tSw) == SwitchOn(cir, t)
  {
    FModShift(t, cir.tSw, k);
  }

  /** The inductor current stops changing exactly when vC equals the voltage across the
      switch side: vin with the switch on, 0 with the diode conducting. */
  lemma InductorBalance(cir: Circuit, on: bool, vC: real)
    requires cir.l != 0.0
    ensures InductorSlope(cir, on, vC) == 0.0 <==> vC == (if on then cir.vin else 0.0)
  {
    ZeroQuotient(cir.vin - vC, cir.l);
    ZeroQuotient(-vC, cir.l);
  }

  /** The capacitor voltage stops changing exactly when the inductor current equals the
      load current vC / r. */
  lemma CapacitorBalance(cir: Circuit, iL: real, vC: real)
    requires cir.c != 0.0 && cir.r != 0.0
    ensures CapacitorSlope(cir, iL, vC) == 0.0 <==> iL == vC / cir.r
  {
    var rc := cir.r * cir.c;
    assert rc != 0.0;
    assert vC / rc == (vC / cir.r) / cir.c;
    assert iL / cir.c - (vC / cir.r) / cir.c == (iL - vC / cir.r) / cir.c;
    ZeroQuotient(iL - vC / cir.r, cir.c);
  }

  /** The sum of s[lo], ..., s[hi - 1]. */
  function SumRange(s: seq<real>, lo: int, hi: int): real
    requires 0 <= lo && hi <= |s|
    decreases hi - lo
  {
    if hi <= lo then 0.0 else SumRange(s, lo, hi - 1) + s[hi - 1]
  }

  /** The mean of the second half of the first n values: indices n / 2 to n - 1. Times
      the number of those values, it gives their sum back. */
  function WindowAverage(s: seq<real>, n: int): (avg: real)
    requires 1 <= n <= |s|
    ensures avg * (n - n / 2) as real == SumRange(s, n / 2, n)
  {
    SumRange(s, n / 2, n) / (n - n / 2) as real
  }

  /** A window of equal values sums to its length times the value. */
  lemma {:induction false} SumRangeConstant(s: seq<real>, lo: int, hi: int, v: real)
    requires 0 <= lo <= hi <= |s|
    requires forall i :: lo <= i < hi ==> s[i] == v
    ensures SumRange(s, lo, hi) == (hi - lo) as real * v
    decreases hi - lo
  {
    if hi > lo {
      SumRangeConstant(s, lo, hi - 1, v);
    }
  }

  /** A window of values within [lo, hi] sums to within count * lo and count * hi. */
  lemma {:induction false} SumRangeBounds(s: seq<real>, first: int, last: int, lo: real, hi: real)
    requires 0 <= first <= last <= |s|
    requires forall i :: first <= i < last ==> lo <= s[i] <= hi
    ensures (last - first) as real * lo <= SumRange(s, first, last) <= (last - first) as real * hi
    decreases last - first
  {
    if last > first {
      SumRangeBounds(s, first, last - 1, lo, hi);
    }
  }

  /** The window is never empty: it holds n - n / 2 >= 1 values. */
  lemma WindowSize(n: int)
    requires n >= 1
    ensures n - n / 2 >= 1 && n / 2 >= 0
  {
  }

  /** If the second half holds one value v throughout, the average is v. */
  lemma AverageOfConstant(s: seq<real>, n: int, v: real)
    requires 1 <= n <= |s|
    requires forall i :: n / 2 <= i < n ==> s[i] == v
    ensures WindowAverage(s, n) == v
  {
    var k := (n - n / 2) as real;
    SumRangeConstant(s, n / 2, n, v);
    assert SumRange(s, n / 2, n) / k == k * v / k;
  }

  /** The average lies within any bounds that hold over the second half. */
  lemma AverageBounded(s: seq<real>, n: int, lo: real, hi: real)
    requires 1 <= n <= |s|
    requires forall i :: n / 2 <= i < n ==> lo <= s[i] <= hi
    ensures lo <= WindowAverage(s, n) <= hi
  {
    var k := (n - n / 2) as real;
    SumRangeBounds(s, n / 2, n, lo, hi);
    DivideBounds(k * lo, SumRange(s, n / 2, n), k * hi, k);
    CancelScale(k, lo);
    CancelScale(k, hi);
  }

  lemma CancelScale(k: real, v: real)
    requires k != 0.0
    ensures k * v / k == v
  {
  }

  lemma DivideBounds(a: real, x: real, b: real, k: real)
    requires k > 0.0 && a <= x <= b
    ensures a / k <= x / k <= b / k
  {
    assert x / k - a / k == (x - a) / k;
    assert b / k - x / k == (b - x) / k;
  }

  /** The sum of values[n / 2 .. n - 1] divided by the number of those values. */
  method AverageWindow(values: seq<real>, n: int) returns (avg: real)
    requires 1 <= n <= |values|
    ensures avg == WindowAverage(values, n)
  {
    var sumVC := 0.0;
    var i := n / 2;
    while i < n
      invariant n / 2 <= i <= n
      invariant sumVC == SumRange(values, n / 2, i)
    {
      sumVC := sumVC + values[i];
      i := i + 1;
    }
    avg := sumVC / (n - n / 2) as real;
  }

  class BuckConverterSimulation {
    const vin: real := 12.0
    const l: real := 0.0001
    const c: real := 0.0001
    const r: real := 10.0
    const fSw: real := 100000.0
    const tSw: real := 1.0 / fSw
    const d: real := 0.4
    const tSim: real := 0.01
    const dt: real := 0.000001
    /** The number of samples: tSim / dt truncated to an integer. */
    const numSteps: int := Trunc(tSim / dt)
    var time: seq<real>
    var iL: seq<real>
    var vC: seq<real>

    /** The circuit the fields describe. */
    function Params(): Circuit {
      Circuit(vin, l, c, r, tSw, d)
    }

    /** Building the simulation runs it once on empty series. */
    constructor ()
      ensures |time| == numSteps && RunLogged(Params(), dt, time, iL, vC)
    {
      time, iL, vC := [], [], [];
      new;
      var average, ideal := SimulateBuckConverter();
    }

    /** The simulation: starting at rest at time 0, numSteps - 1 Euler steps, each reading
        the latest sample and appending the next; then the average output voltage over the
        second half of the run and the ideal output d * vin. It runs once, from the
        constructor, on empty series. */
    method SimulateBuckConverter() returns (vOutAvg: real, vOutTheoretical: real)
      requires time == [] && iL == [] && vC == []
      modifies this
      ensures |time| == numSteps && RunLogged(Params(), dt, time, iL, vC)
      ensures vOutAvg == WindowAverage(vC, numSteps)
      ensures vOutTheoretical == d * vin
    {
      DefaultSampleCount();
      time := time + [0.0];
      iL := iL + [0.0];
      vC := vC + [0.0];
      assert SampleLogged(Params(), dt, time, iL, vC, 0);

      for n := 0 to numSteps - 1
        invariant |time| == n + 1
        invariant RunLogged(Params(), dt, time, iL, vC)
      {
        var currentTime := time[n];
        var currentIL := iL[n];
        var currentVC := vC[n];
        var diLdt: real;
        var dvCdt: real;

        if FMod(currentTime, tSw) < d * tSw {
          diLdt := (vin - currentVC) / l;
        } else {
          diLdt := -currentVC / l;
        }

        dvCdt := currentIL / c - currentVC / (r * c);

        ghost var next := Sample(currentTime + dt, currentIL + diLdt * dt, currentVC + dvCdt * dt);
        assert next == EulerStep(Params(), dt, Sample(currentTime, currentIL, currentVC));
        RunLoggedSnoc(Params(), dt, time, iL, vC, next);
        iL := iL + [currentIL + diLdt * dt];
        vC := vC + [currentVC + dvCdt * dt];
        time := time + [currentTime + dt];
      }

      vOutAvg := AverageWindow(vC, numSteps);
      vOutTheoretical := d * vin;
    }
  }

  /** The program's run: 0.01 s in steps of 1 us gives 10000 samples. */
  lemma DefaultSampleCount()
    ensures Trunc(0.01 / 0.000001) == 10000
  {
  }
}
