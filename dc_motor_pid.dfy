/** PID speed control of a DC motor: the piecewise speed reference, the armature and
    mechanical equations, one explicit Euler step per control period, and the control loop
    that logs time, armature current, speed, applied voltage and reference in lock-step. */
module DcMotorPid {
  import opened JavaMath

  /** Motor parameters: armature resistance and inductance, back-EMF and torque constants,
      inertia, viscous friction and load torque. */
  datatype Motor = Motor(ra: real, la: real, kb: real, kt: real, j: real, b: real, tl: real)

  /** The program's motor (kt equals kb). */
  const DefaultMotor: Motor := Motor(2.0, 0.05, 0.01, 0.01, 0.005, 0.001, 0.1)

  /** PID gains. */
  datatype Gains = Gains(kp: real, ki: real, kd: real)

  const DefaultGains: Gains := Gains(1.0, 0.5, 0.1)

  /** Motor state: armature current and angular speed. */
  datatype State = State(ia: real, omega: real)

  /** Time derivatives of the motor state. */
  datatype Derivatives = Derivatives(dIa: real, dOmega: real)

  /** The speed reference: 50 rad/s before 1 s, 100 rad/s until 3 s, 75 rad/s after. */
  function SpeedRef(t: real): (r: real)
    ensures t < 1.0 ==> r == 50.0
    ensures 1.0 <= t < 3.0 ==> r == 100.0
    ensures 3.0 <= t ==> r == 75.0
  {
    if t < 1.0 then 50.0
    else if t < 3.0 then 100.0
    else 75.0
  }

  /** The reference rises in two steps up to 3 s and then settles to 75 rad/s for good. */
  lemma SpeedRefProfile(t1: real, t2: real)
    ensures t1 <= t2 < 3.0 ==> SpeedRef(t1) <= SpeedRef(t2)
    ensures 3.0 <= t1 && 3.0 <= t2 ==> SpeedRef(t1) == SpeedRef(t2)
    ensures 50.0 <= SpeedRef(t1) <= 100.0
  {
  }

  /** The motor equations solved for the derivatives: the armature inductance times the
      current's rate is the applied voltage less the resistive drop and the back EMF, and
      the inertia times the speed's rate is the motor torque less friction and load. */
  function ComputeDerivatives(m: Motor, appliedVoltage: real, y: State): (d: Derivatives)
    requires m.la != 0.0 && m.j != 0.0
    ensures m.la * d.dIa == appliedVoltage - y.ia * m.ra - m.kb * y.omega
    ensures m.j * d.dOmega == m.kt * y.ia - m.b * y.omega - m.tl
  {
    Derivatives((appliedVoltage - y.ia * m.ra - m.kb * y.omega) / m.la,
                (m.kt * y.ia - m.b * y.omega - m.tl) / m.j)
  }

  /** The motor is at rest exactly when the applied voltage balances the resistive drop
      and the back EMF, and the motor torque balances friction and load. */
  lemma EquilibriumCondition(m: Motor, appliedVoltage: real, y: State)
    requires m.la != 0.0 && m.j != 0.0
    ensures ComputeDerivatives(m, appliedVoltage, y).dIa == 0.0 <==>
              appliedVoltage == y.ia * m.ra + m.kb * y.omega
    ensures ComputeDerivatives(m, appliedVoltage, y).dOmega == 0.0 <==>
              m.kt * y.ia == m.b * y.omega + m.tl
  {
    ZeroQuotient(appliedVoltage - y.ia * m.ra - m.kb * y.omega, m.la);
    ZeroQuotient(m.kt * y.ia - m.b * y.omega - m.tl, m.j);
  }

  /** One explicit Euler step of size dt from state y under the applied voltage: each
      quantity changes by dt times its rate, so the motor equations hold for the changes
      scaled by la and j. */
  function EulerStep(m: Motor, appliedVoltage: real, y: State, dt: real): (next: State)
    requires m.la != 0.0 && m.j != 0.0
    ensures m.la * (next.ia - y.ia) == dt * (appliedVoltage - y.ia * m.ra - m.kb * y.omega)
    ensures m.j * (next.omega - y.omega) == dt * (m.kt * y.ia - m.b * y.omega - m.tl)
  {
    var d := ComputeDerivatives(m, appliedVoltage, y);
    State(y.ia + dt * d.dIa, y.omega + dt * d.dOmega)
  }

  /** A step from equilibrium stays put. */
  lemma EulerStepKeepsEquilibrium(m: Motor, appliedVoltage: real, y: State, dt: real)
    requires m.la != 0.0 && m.j != 0.0
    requires appliedVoltage == y.ia * m.ra + m.kb * y.omega
    requires m.kt * y.ia == m.b * y.omega + m.tl
    ensures EulerStep(m, appliedVoltage, y, dt) == y
  {
    EquilibriumCondition(m, appliedVoltage, y);
  }

  /** The armature-voltage limit: the control signal clamped to [-12, 12] V. */
  function Saturate(u: real): (v: real)
    ensures -12.0 <= v <= 12.0
    ensures -12.0 <= u <= 12.0 ==> v == u
    ensures u > 12.0 ==> v == 12.0
    ensures u < -12.0 ==> v == -12.0
  {
    Max(Min(u, 12.0), -12.0)
  }

  /** The PID law: proportional plus accumulated integral plus the derivative of the error
      over one step. An unchanged error contributes no derivative term, and otherwise the
      derivative term times dt is kd times the change in the error. */
  function ControlSignal(g: Gains, dt: real, error: real, integral: real, previousError: real): (u: real)
    requires dt != 0.0
    ensures error == previousError ==> u == g.kp * error + integral
    ensures (u - g.kp * error - integral) * dt == g.kd * (error - previousError)
  {
    var proportional := g.kp * error;
    var derivative := g.kd * (error - previousError) / dt;
    proportional + integral + derivative
  }

  /** The integral state after the given errors: each step adds ki * error * dt. */
  function IntegralOf(integral0: real, ki: real, dt: real, errors: seq<real>): real {
    if |errors| == 0 then integral0
    else IntegralOf(integral0, ki, dt, errors[..|errors| - 1]) + ki * errors[|errors| - 1] * dt
  }

  function Sum(s: seq<real>): real {
    if |s| == 0 then 0.0 else Sum(s[..|s| - 1]) + s[|s| - 1]
  }

  /** The integral term is ki * dt times the plain sum of the errors. */
  lemma {:induction false} IntegralIsScaledSum(integral0: real, ki: real, dt: real, errors: seq<real>)
    ensures IntegralOf(integral0, ki, dt, errors) == integral0 + ki * dt * Sum(errors)
  {
    if |errors| > 0 {
      var init, e := errors[..|errors| - 1], errors[|errors| - 1];
      IntegralIsScaledSum(integral0, ki, dt, init);
      assert ki * dt * (Sum(init) + e) == ki * dt * Sum(init) + ki * e * dt;
    }
  }

  /** The speed errors of the steps logged from index `o` on: the reference logged at
      i + 1 minus the speed logged at i. */
  function Errors(refs: seq<real>, omegas: seq<real>, o: nat, n: nat): (e: seq<real>)
    requires o + n < |refs| && o + n <= |omegas|
    ensures |e| == n
    ensures forall m :: 0 <= m < n ==> e[m] == refs[o + m + 1] - omegas[o + m]
  {
    seq(n, m requires 0 <= m < n => refs[o + m + 1] - omegas[o + m])
  }

  /** The error the derivative term of step m compares against. */
  function PreviousError(previous0: real, errors: seq<real>, m: nat): real
    requires m <= |errors|
  {
    if m == 0 then previous0 else errors[m - 1]
  }

  lemma ShiftQuotient(a: real, d: real)
    requires d != 0.0
    ensures (a - d) / d == a / d - 1.0
  {
    assert (a - d) / d == a / d - d / d;
  }

  /** Sample i's time is below tSim and sample i + 1 lies dt later. */
  ghost predicate TimeStepAt(tSim: real, dt: real, time: seq<real>, i: nat)
    requires i + 1 < |time|
  {
    time[i] < tSim && time[i + 1] == time[i] + dt
  }

  /** From sample o on, each sample's time is below tSim and the next one lies dt later. */
  ghost predicate TimeSteps(tSim: real, dt: real, time: seq<real>, o: nat) {
    forall i :: o <= i < |time| - 1 ==> TimeStepAt(tSim, dt, time, i)
  }

  /** From sample o on, each step logs the reference taken at the step's start time. */
  ghost predicate RefsLogged(time: seq<real>, refs: seq<real>, o: nat)
    requires |refs| == |time|
  {
    forall i :: o <= i < |time| - 1 ==> refs[i + 1] == SpeedRef(time[i])
  }

  /** Sample i + 1 is one Euler step of the motor from sample i under the voltage logged
      with it. */
  ghost predicate MotorStepAt(m: Motor, dt: real, ia: seq<real>, omega: seq<real>, va: seq<real>, i: nat)
    requires m.la != 0.0 && m.j != 0.0
    requires i + 1 < |ia| && |omega| == |ia| && |va| == |ia|
  {
    State(ia[i + 1], omega[i + 1]) == EulerStep(m, va[i + 1], State(ia[i], omega[i]), dt)
  }

  /** From sample o on, each sample is one Euler step of the motor from the previous one. */
  ghost predicate MotorSteps(m: Motor, dt: real, ia: seq<real>, omega: seq<real>, va: seq<real>, o: nat)
    requires m.la != 0.0 && m.j != 0.0
    requires |omega| == |ia| && |va| == |ia|
  {
    forall i :: o <= i < |ia| - 1 ==> MotorStepAt(m, dt, ia, omega, va, i)
  }

  /** Each logged voltage is the clamped PID signal for its step's error, with the integral
      over the errors so far and the error of the step before. */
  ghost predicate ControlApplied(g: Gains, dt: real, integral0: real, previous0: real,
                                 errors: seq<real>, va: seq<real>, o: nat)
    requires dt != 0.0
    requires o + |errors| < |va|
  {
    forall k :: 0 <= k < |errors| ==> va[o + k + 1] == StepVoltage(g, dt, integral0, previous0, errors, k)
  }

  /** The clamped PID voltage of step k of an error series. */
  function StepVoltage(g: Gains, dt: real, integral0: real, previous0: real, errors: seq<real>, k: nat): real
    requires dt != 0.0
    requires k < |errors|
  {
    Saturate(ControlSignal(g, dt, errors[k], IntegralOf(integral0, g.ki, dt, errors[..k + 1]),
                           PreviousError(previous0, errors, k)))
  }

  /** The series logged from index o on record the control loop: sample o is the start;
      each later sample i + 1 comes from sample i, whose time was still below tSim, by one
      step of dt, with the reference taken at time[i] and the clamped PID voltage for
      that step's error applied to one Euler step of the motor. */
  ghost predicate ControlLog(m: Motor, g: Gains, tSim: real, dt: real, integral0: real, previous0: real,
                             time: seq<real>, ia: seq<real>, omega: seq<real>, va: seq<real>,
                             refs: seq<real>, o: nat)
  {
    && m.la != 0.0 && m.j != 0.0 && dt != 0.0
    && o < |time| && |ia| == |time| && |omega| == |time| && |va| == |time| && |refs| == |time|
    && TimeSteps(tSim, dt, time, o)
    && RefsLogged(time, refs, o)
    && MotorSteps(m, dt, ia, omega, va, o)
    && ControlApplied(g, dt, integral0, previous0, Errors(refs, omega, o, |time| - 1 - o), va, o)
  }

  /** Logging one more step appends that step's error to the error series. */
  lemma ErrorsSnoc(refs: seq<real>, omegas: seq<real>, o: nat, n: nat, r: real, w: real)
    requires o + n + 1 == |refs| == |omegas|
    ensures Errors(refs + [r], omegas + [w], o, n + 1) == Errors(refs, omegas, o, n) + [r - omegas[o + n]]
  {
  }

  lemma TimeStepsSnoc(tSim: real, dt: real, time: seq<real>, o: nat)
    requires TimeSteps(tSim, dt, time, o) && o < |time| && time[|time| - 1] < tSim
    ensures TimeSteps(tSim, dt, time + [time[|time| - 1] + dt], o)
  {
    var time' := time + [time[|time| - 1] + dt];
    forall i | o <= i < |time'| - 1
      ensures TimeStepAt(tSim, dt, time', i)
    {
      if i < |time| - 1 {
        assert TimeStepAt(tSim, dt, time, i);
      }
    }
  }

  lemma RefsLoggedSnoc(time: seq<real>, refs: seq<real>, o: nat, t: real)
    requires |refs| == |time| > o && RefsLogged(time, refs, o)
    ensures RefsLogged(time + [t], refs + [SpeedRef(time[|time| - 1])], o)
  {
  }

  lemma MotorStepsSnoc(m: Motor, dt: real, ia: seq<real>, omega: seq<real>, va: seq<real>, o: nat, u: real)
    requires m.la != 0.0 && m.j != 0.0
    requires |omega| == |ia| && |va| == |ia| > o
    requires MotorSteps(m, dt, ia, omega, va, o)
    ensures var next := EulerStep(m, u, State(ia[|ia| - 1], omega[|omega| - 1]), dt);
            MotorSteps(m, dt, ia + [next.ia], omega + [next.omega], va + [u], o)
  {
    var next := EulerStep(m, u, State(ia[|ia| - 1], omega[|omega| - 1]), dt);
    var ia', omega', va' := ia + [next.ia], omega + [next.omega], va + [u];
    forall i | o <= i < |ia'| - 1
      ensures MotorStepAt(m, dt, ia', omega', va', i)
    {
      if i < |ia| - 1 {
        assert MotorStepAt(m, dt, ia, omega, va, i);
      }
    }
  }

  lemma ControlAppliedSnoc(g: Gains, dt: real, integral0: real, previous0: real,
                           errors: seq<real>, va: seq<real>, o: nat, e: real, u: real)
    requires dt != 0.0
    requires o + |errors| + 1 == |va|
    requires ControlApplied(g, dt, integral0, previous0, errors, va, o)
    requires u == StepVoltage(g, dt, integral0, previous0, errors + [e], |errors|)
    ensures ControlApplied(g, dt, integral0, previous0, errors + [e], va + [u], o)
  {
    var errors' := errors + [e];
    forall k | 0 <= k < |errors|
      ensures StepVoltage(g, dt, integral0, previous0, errors', k) == StepVoltage(g, dt, integral0, previous0, errors, k)
    {
      assert errors'[..k + 1] == errors[..k + 1];
      assert PreviousError(previous0, errors', k) == PreviousError(previous0, errors, k);
    }
  }

  /** The voltage of a newly logged step: the integral grows by ki * e * dt and the
      derivative compares against the last error before it. */
  lemma StepVoltageSnoc(g: Gains, dt: real, integral0: real, previous0: real, errors: seq<real>, e: real)
    requires dt != 0.0
    ensures IntegralOf(integral0, g.ki, dt, errors + [e]) == IntegralOf(integral0, g.ki, dt, errors) + g.ki * e * dt
    ensures PreviousError(previous0, errors + [e], |errors|) == PreviousError(previous0, errors, |errors|)
    ensures StepVoltage(g, dt, integral0, previous0, errors + [e], |errors|) ==
              Saturate(ControlSignal(g, dt, e, IntegralOf(integral0, g.ki, dt, errors) + g.ki * e * dt,
                                     PreviousError(previous0, errors, |errors|)))
  {
    assert (errors + [e])[..|errors|] == errors;
    assert (errors + [e])[..|errors| + 1] == errors + [e];
  }

  /** A logged run extended by one control step is still a logged run. */
  lemma ControlLogSnoc(m: Motor, g: Gains, tSim: real, dt: real, integral0: real, previous0: real,
                       time: seq<real>, ia: seq<real>, omega: seq<real>, va: seq<real>,
                       refs: seq<real>, o: nat, u: real)
    requires ControlLog(m, g, tSim, dt, integral0, previous0, time, ia, omega, va, refs, o)
    requires time[|time| - 1] < tSim
    requires var errors := Errors(refs, omega, o, |time| - 1 - o);
             var e := SpeedRef(time[|time| - 1]) - omega[|omega| - 1];
             u == StepVoltage(g, dt, integral0, previous0, errors + [e], |errors|)
    ensures var t := time[|time| - 1];
            var next := EulerStep(m, u, State(ia[|ia| - 1], omega[|omega| - 1]), dt);
            ControlLog(m, g, tSim, dt, integral0, previous0, time + [t + dt], ia + [next.ia],
                       omega + [next.omega], va + [u], refs + [SpeedRef(t)], o)
  {
    var t := time[|time| - 1];
    var next := EulerStep(m, u, State(ia[|ia| - 1], omega[|omega| - 1]), dt);
    var errors := Errors(refs, omega, o, |time| - 1 - o);
    TimeStepsSnoc(tSim, dt, time, o);
    RefsLoggedSnoc(time, refs, o, t + dt);
    MotorStepsSnoc(m, dt, ia, omega, va, o, u);
    ErrorsSnoc(refs, omega, o, |errors|, SpeedRef(t), next.omega);
    ControlAppliedSnoc(g, dt, integral0, previous0, errors, va, o, SpeedRef(t) - omega[|omega| - 1], u);
  }

  /** One pass of the control loop keeps the log and the controller state in agreement:
      the step's error is the reference at the current time minus the current speed, the
      integral grows by ki * error * dt, and the clamped signal drives one Euler step. */
  lemma ControlLoopStep(m: Motor, g: Gains, tSim: real, dt: real, integral0: real, previous0: real, o: nat,
                        time: seq<real>, ia: seq<real>, omega: seq<real>, va: seq<real>, refs: seq<real>,
                        integral: real, previous: real,
                        time': seq<real>, ia': seq<real>, omega': seq<real>, va': seq<real>, refs': seq<real>,
                        integral': real, previous': real, t: real, y: State, t': real, next: State)
    requires ControlLog(m, g, tSim, dt, integral0, previous0, time, ia, omega, va, refs, o)
    requires t == time[|time| - 1] && y == State(ia[|ia| - 1], omega[|omega| - 1]) && t < tSim
    requires var errors := Errors(refs, omega, o, |time| - 1 - o);
             integral == IntegralOf(integral0, g.ki, dt, errors) &&
             previous == PreviousError(previous0, errors, |errors|)
    requires previous' == SpeedRef(t) - omega[|omega| - 1]
    requires integral' == integral + g.ki * previous' * dt
    requires va' == va + [Saturate(ControlSignal(g, dt, previous', integral', previous))]
    requires next == EulerStep(m, va'[|va'| - 1], y, dt)
    requires t' == t + dt
    requires time' == time + [t'] && ia' == ia + [next.ia] && omega' == omega + [next.omega]
    requires refs' == refs + [SpeedRef(t)]
    ensures ControlLog(m, g, tSim, dt, integral0, previous0, time', ia', omega', va', refs', o)
    ensures time'[o] == time[o] && ia'[o] == ia[o] && omega'[o] == omega[o]
    ensures va'[o] == va[o] && refs'[o] == refs[o]
    ensures var errors' := Errors(refs', omega', o, |time'| - 1 - o);
            && integral' == IntegralOf(integral0, g.ki, dt, errors')
            && previous' == PreviousError(previous0, errors', |errors'|)
  {
    var t := time[|time| - 1];
    var errors := Errors(refs, omega, o, |time| - 1 - o);
    ErrorsSnoc(refs, omega, o, |errors|, SpeedRef(t), next.omega);
    StepVoltageSnoc(g, dt, integral0, previous0, errors, previous');
    ControlLogSnoc(m, g, tSim, dt, integral0, previous0, time, ia, omega, va, refs, o, va'[|va'| - 1]);
  }

  /** The number of whole steps of dt that still fit before tSim. */
  function StepsLeft(tSim: real, t: real, dt: real): int
    requires dt > 0.0
  {
    ((tSim - t) / dt).Floor
  }

  /** The loop measure is non-negative while t < tSim and drops by one per step. */
  lemma StepDecreases(tSim: real, t: real, t': real, dt: real)
    requires t < tSim && dt > 0.0 && t' == t + dt
    ensures 0 <= StepsLeft(tSim, t, dt)
    ensures StepsLeft(tSim, t', dt) == StepsLeft(tSim, t, dt) - 1
  {
    ShiftQuotient(tSim - t, dt);
    assert tSim - t' == (tSim - t) - dt;
    assert (tSim - t) / dt > 0.0;
  }

  /** Starting from time 0, the k-th logged step ends at k * dt. */
  lemma {:induction false} LoggedTimes(tSim: real, dt: real, time: seq<real>, o: nat, k: nat)
    requires TimeSteps(tSim, dt, time, o) && o + k < |time| && time[o] == 0.0
    ensures time[o + k] == k as real * dt
  {
    if k > 0 {
      LoggedTimes(tSim, dt, time, o, k - 1);
      assert TimeStepAt(tSim, dt, time, o + k - 1);
    }
  }

  /** A run started at time 0 and stopped at the first sample reaching tSim takes the
      smallest number of steps n with n * dt >= tSim. */
  lemma StepCount(tSim: real, dt: real, time: seq<real>, o: nat)
    requires TimeSteps(tSim, dt, time, o) && o < |time| && time[o] == 0.0
    requires time[|time| - 1] >= tSim
    ensures var n := |time| - 1 - o;
            n as real * dt >= tSim && (n > 0 ==> (n - 1) as real * dt < tSim)
  {
    var n := |time| - 1 - o;
    LoggedTimes(tSim, dt, time, o, n);
    if n > 0 {
      LoggedTimes(tSim, dt, time, o, n - 1);
      assert TimeStepAt(tSim, dt, time, o + n - 1);
    }
  }

  /** The program's run (5 s in steps of 1 ms) logs exactly 5000 steps after the initial
      sample. */
  lemma DefaultRunLength(time: seq<real>)
    requires TimeSteps(5.0, 0.001, time, 0) && 0 < |time| && time[0] == 0.0
    requires time[|time| - 1] >= 5.0
    ensures |time| == 5001
  {
    StepCount(5.0, 0.001, time, 0);
  }

  /** Every voltage logged by a step lies within the +-12 V limit. */
  lemma LoggedVoltageWithinLimits(m: Motor, g: Gains, tSim: real, dt: real, integral0: real, previous0: real,
                                  time: seq<real>, ia: seq<real>, omega: seq<real>, va: seq<real>,
                                  refs: seq<real>, o: nat)
    requires ControlLog(m, g, tSim, dt, integral0, previous0, time, ia, omega, va, refs, o)
    ensures forall i :: o < i < |va| ==> -12.0 <= va[i] <= 12.0
  {
    var errors := Errors(refs, omega, o, |time| - 1 - o);
    forall i | o < i < |va|
      ensures -12.0 <= va[i] <= 12.0
    {
      assert va[o + (i - o - 1) + 1] == StepVoltage(g, dt, integral0, previous0, errors, i - o - 1);
    }
  }

  /** Starting from time 0, the error of step k is the reference at k * dt minus the speed
      logged at the start of the step. */
  lemma ErrorsTrackReference(m: Motor, g: Gains, tSim: real, dt: real, integral0: real, previous0: real,
                             time: seq<real>, ia: seq<real>, omega: seq<real>, va: seq<real>,
                             refs: seq<real>, o: nat)
    requires ControlLog(m, g, tSim, dt, integral0, previous0, time, ia, omega, va, refs, o)
    requires time[o] == 0.0
    ensures var errors := Errors(refs, omega, o, |time| - 1 - o);
            forall k :: 0 <= k < |errors| ==> errors[k] == SpeedRef(k as real * dt) - omega[o + k]
  {
    var errors := Errors(refs, omega, o, |time| - 1 - o);
    forall k | 0 <= k < |errors|
      ensures errors[k] == SpeedRef(k as real * dt) - omega[o + k]
    {
      LoggedTimes(tSim, dt, time, o, k);
    }
  }

  class DcMotorPidControl {
    const motor: Motor := DefaultMotor
    const gains: Gains := DefaultGains
    /** Simulation length and step (s). */
    const tSim: real := 5.0
    const dt: real := 0.001
    var time: seq<real>
    var omega: seq<real>
    var ia: seq<real>
    var va: seq<real>
    var omegaRefList: seq<real>
    var integralError: real
    var previousError: real

    /** The parameters allow the equations to be evaluated, the step is positive, and the
        five logged series have one length. */
    ghost predicate Valid()
      reads this
    {
      && motor.la != 0.0 && motor.j != 0.0 && dt > 0.0
      && |omega| == |time| && |ia| == |time| && |va| == |time| && |omegaRefList| == |time|
    }

    /** Building the controller runs the simulation once on empty series and a zeroed
        controller. */
    constructor ()
      ensures Valid() && |time| > 0
      ensures time[0] == 0.0 && ia[0] == 0.0 && omega[0] == 0.0 && va[0] == 0.0
      ensures omegaRefList[0] == SpeedRef(0.0)
      ensures time[|time| - 1] >= tSim
      ensures ControlLog(motor, gains, tSim, dt, 0.0, 0.0, time, ia, omega, va, omegaRefList, 0)
      ensures var errors := Errors(omegaRefList, omega, 0, |time| - 1);
              && integralError == IntegralOf(0.0, gains.ki, dt, errors)
              && previousError == PreviousError(0.0, errors, |errors|)
    {
      time, omega, ia, va, omegaRefList := [], [], [], [], [];
      integralError := 0.0;
      previousError := 0.0;
      new;
      SimulateDcMotorControl();
    }

    /** One control period: logs the reference for the current time, applies the clamped
        PID signal for the current speed error, advances the motor one Euler step and logs
        the new time, current and speed. */
    method ControlStep(currentTime: real, state: State) returns (nextTime: real, next: State)
      requires Valid() && |time| > 0
      modifies this
      ensures Valid()
      ensures previousError == SpeedRef(currentTime) - old(omega[|omega| - 1])
      ensures integralError == old(integralError) + gains.ki * previousError * dt
      ensures va == old(va) + [Saturate(ControlSignal(gains, dt, previousError, integralError, old(previousError)))]
      ensures next == EulerStep(motor, va[|va| - 1], state, dt)
      ensures nextTime == currentTime + dt
      ensures time == old(time) + [nextTime] && ia == old(ia) + [next.ia]
      ensures omega == old(omega) + [next.omega]
      ensures omegaRefList == old(omegaRefList) + [SpeedRef(currentTime)]
    {
      var omegaRef := SpeedRef(currentTime);
      omegaRefList := omegaRefList + [omegaRef];
      var currentOmega := omega[|omega| - 1];

      var error := omegaRef - currentOmega;

      integralError := integralError + gains.ki * error * dt;
      var controlSignal := ControlSignal(gains, dt, error, integralError, previousError);

      var vaApplied := Max(Min(controlSignal, 12.0), -12.0);
      assert vaApplied == Saturate(controlSignal);
      va := va + [vaApplied];

      next := EulerStep(motor, vaApplied, state, dt);

      nextTime := currentTime + dt;
      time := time + [nextTime];
      ia := ia + [next.ia];
      omega := omega + [next.omega];

      previousError := error;
    }

    /** The simulation: logs the initial sample, then, while the time is below tSim,
        computes the PID control for the current error, clamps it, advances the motor one
        Euler step and logs the new sample. It runs once, from the constructor, on empty
        series and a zeroed controller. */
    method SimulateDcMotorControl()
      requires Valid()
      requires time == [] && ia == [] && omega == [] && va == [] && omegaRefList == []
      requires integralError == 0.0 && previousError == 0.0
      modifies this
      ensures Valid() && |time| > 0
      // the initial sample
      ensures time[0] == 0.0 && ia[0] == 0.0 && omega[0] == 0.0 && va[0] == 0.0
      ensures omegaRefList[0] == SpeedRef(0.0)
      // the loop runs until the time reaches tSim
      ensures time[|time| - 1] >= tSim
      // every logged step follows the control law and the motor equations
      ensures ControlLog(motor, gains, tSim, dt, 0.0, 0.0, time, ia, omega, va, omegaRefList, 0)
      // the controller state is the one the logged errors leave behind
      ensures var errors := Errors(omegaRefList, omega, 0, |time| - 1);
              && integralError == IntegralOf(0.0, gains.ki, dt, errors)
              && previousError == PreviousError(0.0, errors, |errors|)
    {
      var currentTime := 0.0;
      var state := State(0.0, 0.0);
      time := time + [currentTime];
      ia := ia + [state.ia];
      omega := omega + [state.omega];
      va := va + [0.0];
      omegaRefList := omegaRefList + [SpeedRef(currentTime)];
      while currentTime < tSim
        invariant Valid() && |time| > 0
        invariant time[0] == 0.0 && ia[0] == 0.0 && omega[0] == 0.0 && va[0] == 0.0
        invariant omegaRefList[0] == SpeedRef(0.0)
        invariant currentTime == time[|time| - 1]
        invariant state == State(ia[|ia| - 1], omega[|omega| - 1])
        invariant ControlLog(motor, gains, tSim, dt, 0.0, 0.0, time, ia, omega, va, omegaRefList, 0)
        invariant var errors := Errors(omegaRefList, omega, 0, |time| - 1);
                  && integralError == IntegralOf(0.0, gains.ki, dt, errors)
                  && previousError == PreviousError(0.0, errors, |errors|)
        decreases StepsLeft(tSim, currentTime, dt)
      {
        ghost var t0, ia0, om0, va0, r0 := time, ia, omega, va, omegaRefList;
        ghost var integral, previous := integralError, previousError;
        ghost var previousTime, previousState := currentTime, state;
        currentTime, state := ControlStep(currentTime, state);
        StepDecreases(tSim, previousTime, currentTime, dt);
        ControlLoopStep(motor, gains, tSim, dt, 0.0, 0.0, 0, t0, ia0, om0, va0, r0, integral, previous,
                        time, ia, omega, va, omegaRefList, integralError, previousError,
                        previousTime, previousState, currentTime, state);
      }
    }
  }
}
