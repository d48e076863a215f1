/** Overcurrent relay analysis: the inverse-time tripping rule of IEC 60255-151 (Table 1,
    standard-inverse, very-inverse and extremely-inverse curves), the relay-by-fault
    tripping table, the filter of the time-current curve points and the coordination-interval
    verdict between a primary and a backup relay. */
module OvercurrentRelay {
  import opened Wrappers

  /** A tripping time as the program's doubles carry it: +Infinity is "does not trip",
      NaN is "unknown characteristic", and otherwise a time in seconds. */
  datatype TripTime = NoTrip | Unknown | Time(seconds: real)

  /** The constants of a characteristic: t = tms * k / (ratio^n - 1). */
  datatype Curve = Curve(k: real, n: real)

  /** One relay setting: identifier, pickup current (pu), time multiplier setting and
      characteristic name. */
  datatype Relay = Relay(id: string, pickupCurrent: real, tms: real, characteristic: string)

  /** `Math.pow` for an exponent other than 1 or 2 (the standard-inverse 0.02). */
  type PowerFn = (real, real) -> real

  /** What the model needs of `Math.pow`: a base above one raised to a positive exponent
      stays above one. */
  ghost predicate PowAboveOne(pow: PowerFn) {
    forall x: real, e: real :: x > 1.0 && e > 0.0 ==> pow(x, e) > 1.0
  }

  /** The characteristic table: the constants (k, n) for the three names the program knows. */
  function Characteristic(name: string): (c: Option<Curve>)
    ensures name == "Inverse" <==> c == Some(Curve(0.14, 0.02))
    ensures name == "Very Inverse" <==> c == Some(Curve(13.5, 1.0))
    ensures name == "Extremely Inverse" <==> c == Some(Curve(80.0, 2.0))
    ensures c.None? <==> name != "Inverse" && name != "Very Inverse" && name != "Extremely Inverse"
    ensures c.Some? ==> c.value.k > 0.0 && c.value.n > 0.0
  {
    if name == "Inverse" then Some(Curve(0.14, 0.02))
    else if name == "Very Inverse" then Some(Curve(13.5, 1.0))
    else if name == "Extremely Inverse" then Some(Curve(80.0, 2.0))
    else None
  }

  /** ratio^n: exact for the exponents 1 and 2, `pow` otherwise. */
  function Power(x: real, n: real, pow: PowerFn): (r: real)
    requires x > 1.0 && n > 0.0 && PowAboveOne(pow)
    ensures r > 1.0
  {
    if n == 1.0 then x
    else if n == 2.0 then
      assert x * x > x * 1.0;
      x * x
    else pow(x, n)
  }

  /** The tripping time of a relay for a fault current: no trip at or below pickup, an
      unknown result for an unknown characteristic, otherwise tms * k / (ratio^n - 1). */
  function CalculateTrippingTime(faultCurrent: real, pickupCurrent: real, tms: real,
                                 characteristic: string, pow: PowerFn): (t: TripTime)
    requires pickupCurrent != 0.0 && PowAboveOne(pow)
    ensures t == NoTrip <==> faultCurrent / pickupCurrent <= 1.0
    ensures faultCurrent / pickupCurrent > 1.0 ==>
              (t == Unknown <==> Characteristic(characteristic) == None)
    ensures faultCurrent / pickupCurrent > 1.0 && Characteristic(characteristic).Some? ==>
              var c := Characteristic(characteristic).value;
              t.Time? && t.seconds * (Power(faultCurrent / pickupCurrent, c.n, pow) - 1.0) == tms * c.k
  {
    var ratio := faultCurrent / pickupCurrent;
    if ratio <= 1.0 then NoTrip
    else match Characteristic(characteristic)
      case None => Unknown
      case Some(c) => Time(tms * (c.k / (Power(ratio, c.n, pow) - 1.0)))
  }

  // ---------------------------------------------------------------------------
  // Properties of the tripping rule

  /** Very Inverse above pickup: t = tms * 13.5 / (ratio - 1), positive when tms is. */
  lemma VeryInverseTime(faultCurrent: real, pickupCurrent: real, tms: real, pow: PowerFn)
    requires pickupCurrent != 0.0 && PowAboveOne(pow)
    requires faultCurrent / pickupCurrent > 1.0
    ensures var ratio := faultCurrent / pickupCurrent;
            CalculateTrippingTime(faultCurrent, pickupCurrent, tms, "Very Inverse", pow)
              == Time(tms * (13.5 / (ratio - 1.0)))
    ensures tms > 0.0 ==>
              CalculateTrippingTime(faultCurrent, pickupCurrent, tms, "Very Inverse", pow).seconds > 0.0
  {
    var ratio := faultCurrent / pickupCurrent;
    if tms > 0.0 {
      assert 13.5 / (ratio - 1.0) > 0.0;
      PositiveProduct(tms, 13.5 / (ratio - 1.0));
    }
  }

  /** Extremely Inverse above pickup: t = tms * 80 / (ratio^2 - 1). */
  lemma ExtremelyInverseTime(faultCurrent: real, pickupCurrent: real, tms: real, pow: PowerFn)
    requires pickupCurrent != 0.0 && PowAboveOne(pow)
    requires faultCurrent / pickupCurrent > 1.0
    ensures var ratio := faultCurrent / pickupCurrent;
            CalculateTrippingTime(faultCurrent, pickupCurrent, tms, "Extremely Inverse", pow)
              == Time(tms * (80.0 / (ratio * ratio - 1.0)))
  {
  }

  /** Standard Inverse above pickup: t = tms * 0.14 / (ratio^0.02 - 1). */
  lemma StandardInverseTime(faultCurrent: real, pickupCurrent: real, tms: real, pow: PowerFn)
    requires pickupCurrent != 0.0 && PowAboveOne(pow)
    requires faultCurrent / pickupCurrent > 1.0
    ensures var ratio := faultCurrent / pickupCurrent;
            CalculateTrippingTime(faultCurrent, pickupCurrent, tms, "Inverse", pow)
              == Time(tms * (0.14 / (pow(ratio, 0.02) - 1.0)))
  {
  }

  lemma PositiveProduct(a: real, b: real)
    requires a > 0.0 && b > 0.0
    ensures a * b > 0.0
  {
  }

  /** Any known characteristic above pickup with a positive multiplier gives a positive,
      finite time. */
  lemma KnownCharacteristicTripsInPositiveTime(faultCurrent: real, pickupCurrent: real, tms: real,
                                                characteristic: string, pow: PowerFn)
    requires pickupCurrent != 0.0 && PowAboveOne(pow)
    requires faultCurrent / pickupCurrent > 1.0 && tms > 0.0
    requires Characteristic(characteristic).Some?
    ensures CalculateTrippingTime(faultCurrent, pickupCurrent, tms, characteristic, pow).Time?
    ensures CalculateTrippingTime(faultCurrent, pickupCurrent, tms, characteristic, pow).seconds > 0.0
  {
    var c := Characteristic(characteristic).value;
    var ratio := faultCurrent / pickupCurrent;
    var d := Power(ratio, c.n, pow) - 1.0;
    assert d > 0.0;
    assert c.k / d > 0.0;
    PositiveProduct(tms, c.k / d);
  }

  /** The curves with an exact exponent are inverse-time: a larger fault current trips
      strictly sooner. */
  lemma InverseTimeForExactExponents(f1: real, f2: real, pickupCurrent: real, tms: real,
                                     characteristic: string, pow: PowerFn)
    requires pickupCurrent > 0.0 && PowAboveOne(pow) && tms > 0.0
    requires characteristic == "Very Inverse" || characteristic == "Extremely Inverse"
    requires pickupCurrent < f1 < f2
    ensures CalculateTrippingTime(f2, pickupCurrent, tms, characteristic, pow).seconds <
            CalculateTrippingTime(f1, pickupCurrent, tms, characteristic, pow).seconds
  {
    var r1, r2 := f1 / pickupCurrent, f2 / pickupCurrent;
    RatioOrder(f1, f2, pickupCurrent);
    var c := Characteristic(characteristic).value;
    var p1, p2 := Power(r1, c.n, pow), Power(r2, c.n, pow);
    if c.n == 2.0 {
      SquareOrder(r1, r2);
    }
    assert 1.0 < p1 < p2;
    QuotientOrder(c.k, p1 - 1.0, p2 - 1.0);
    ProductOrder(tms, c.k / (p2 - 1.0), c.k / (p1 - 1.0));
  }

  lemma SquareOrder(a: real, b: real)
    requires 1.0 < a < b
    ensures a * a < b * b
  {
    assert a * a < b * a;
    assert b * a < b * b;
  }

  lemma RatioOrder(f1: real, f2: real, p: real)
    requires p > 0.0 && p < f1 < f2
    ensures 1.0 < f1 / p < f2 / p
  {
    assert f1 / p > p / p;
    assert f2 / p > f1 / p;
  }

  lemma QuotientOrder(k: real, d1: real, d2: real)
    requires k > 0.0 && 0.0 < d1 < d2
    ensures k / d2 < k / d1
  {
    assert k / d2 * d2 == k == k / d1 * d1;
    assert k / d1 * d2 > k / d1 * d1;
  }

  lemma ProductOrder(a: real, b: real, c: real)
    requires a > 0.0 && b < c
    ensures a * b < a * c
  {
  }

  // ---------------------------------------------------------------------------
  // The tripping table

  predicate PickupsNonZero(relays: seq<Relay>) {
    forall i :: 0 <= i < |relays| ==> relays[i].pickupCurrent != 0.0
  }

  /** The ids of the listed relays. */
  function Ids(relays: seq<Relay>): set<string> {
    set i | 0 <= i < |relays| :: relays[i].id
  }

  /** The ids of a list are those of all but its last relay, and the last one's. */
  lemma IdsSnoc(relays: seq<Relay>)
    requires |relays| > 0
    ensures Ids(relays) == Ids(relays[..|relays| - 1]) + {relays[|relays| - 1].id}
  {
    var init := relays[..|relays| - 1];
    forall id | id in Ids(relays)
      ensures id in Ids(init) + {relays[|relays| - 1].id}
    {
      var i :| 0 <= i < |relays| && relays[i].id == id;
      if i < |init| {
        assert init[i] == relays[i];
      }
    }
    forall id | id in Ids(init)
      ensures id in Ids(relays)
    {
      var i :| 0 <= i < |init| && init[i].id == id;
      assert relays[i] == init[i];
    }
  }

  /** One relay's tripping time for every fault. */
  function FaultTimes(relay: Relay, faults: map<string, real>, pow: PowerFn): map<string, TripTime>
    requires relay.pickupCurrent != 0.0 && PowAboveOne(pow)
  {
    map f | f in faults :: CalculateTrippingTime(faults[f], relay.pickupCurrent, relay.tms,
                                                 relay.characteristic, pow)
  }

  /** The table after putting each relay's times under its id, in list order: its keys
      are the old ones and the relay ids. */
  function TimesTable(table: map<string, map<string, TripTime>>, relays: seq<Relay>,
                      faults: map<string, real>, pow: PowerFn): (t: map<string, map<string, TripTime>>)
    requires PickupsNonZero(relays) && PowAboveOne(pow)
    ensures t.Keys == table.Keys + Ids(relays)
  {
    if |relays| == 0 then table
    else
      IdsSnoc(relays);
      var last := relays[|relays| - 1];
      TimesTable(table, relays[..|relays| - 1], faults, pow)[last.id := FaultTimes(last, faults, pow)]
  }

  /** After the table is built, every relay id maps to a time for every fault, the keys are
      the old ones plus the relay ids, and ids of no listed relay keep their old entries. */
  lemma {:induction false} TableComplete(table: map<string, map<string, TripTime>>, relays: seq<Relay>,
                                         faults: map<string, real>, pow: PowerFn)
    requires PickupsNonZero(relays) && PowAboveOne(pow)
    ensures var t := TimesTable(table, relays, faults, pow);
            && t.Keys == table.Keys + Ids(relays)
            && (forall i :: 0 <= i < |relays| ==> relays[i].id in t && t[relays[i].id].Keys == faults.Keys)
            && (forall id :: id in table && (forall i :: 0 <= i < |relays| ==> relays[i].id != id)
                  ==> t[id] == table[id])
  {
    TableCoversRelays(table, relays, faults, pow);
    TableKeepsOthers(table, relays, faults, pow);
  }

  /** Every listed relay has an entry, holding a time for every fault. */
  lemma {:induction false} TableCoversRelays(table: map<string, map<string, TripTime>>, relays: seq<Relay>,
                                             faults: map<string, real>, pow: PowerFn)
    requires PickupsNonZero(relays) && PowAboveOne(pow)
    ensures var t := TimesTable(table, relays, faults, pow);
            forall i :: 0 <= i < |relays| ==> relays[i].id in t && t[relays[i].id].Keys == faults.Keys
  {
    if |relays| > 0 {
      var init := relays[..|relays| - 1];
      TableCoversRelays(table, init, faults, pow);
      var t := TimesTable(table, relays, faults, pow);
      forall i | 0 <= i < |relays|
        ensures relays[i].id in t && t[relays[i].id].Keys == faults.Keys
      {
        if i < |init| {
          assert init[i] == relays[i];
        }
      }
    }
  }

  /** An id no listed relay carries keeps its old entry. */
  lemma {:induction false} TableKeepsOthers(table: map<string, map<string, TripTime>>, relays: seq<Relay>,
                                            faults: map<string, real>, pow: PowerFn)
    requires PickupsNonZero(relays) && PowAboveOne(pow)
    ensures var t := TimesTable(table, relays, faults, pow);
            forall id :: id in table && (forall i :: 0 <= i < |relays| ==> relays[i].id != id) ==> t[id] == table[id]
  {
    if |relays| > 0 {
      var init := relays[..|relays| - 1];
      TableKeepsOthers(table, init, faults, pow);
      assert forall i :: 0 <= i < |init| ==> init[i] == relays[i];
    }
  }

  /** With distinct relay ids, each relay's entry holds exactly its own times. */
  lemma {:induction false} TableEntries(table: map<string, map<string, TripTime>>, relays: seq<Relay>,
                                        faults: map<string, real>, pow: PowerFn)
    requires PickupsNonZero(relays) && PowAboveOne(pow)
    requires forall i, j :: 0 <= i < j < |relays| ==> relays[i].id != relays[j].id
    ensures forall i :: 0 <= i < |relays| ==>
              relays[i].id in TimesTable(table, relays, faults, pow) &&
              TimesTable(table, relays, faults, pow)[relays[i].id] == FaultTimes(relays[i], faults, pow)
  {
    if |relays| > 0 {
      var init := relays[..|relays| - 1];
      TableEntries(table, init, faults, pow);
      forall i | 0 <= i < |init|
        ensures TimesTable(table, relays, faults, pow)[relays[i].id] == FaultTimes(relays[i], faults, pow)
      {
        assert init[i] == relays[i];
        assert relays[i].id != relays[|relays| - 1].id;
      }
    }
  }

  // ---------------------------------------------------------------------------
  // The coordination verdict

  /** A double as the coordination analysis subtracts and compares it. */
  datatype Extended = NegInf | PosInf | NaN | Finite(value: real)

  function AsDouble(t: TripTime): Extended {
    match t
    case NoTrip => PosInf
    case Unknown => NaN
    case Time(s) => Finite(s)
  }

  /** IEEE-754 subtraction on extended values. */
  function Sub(a: Extended, b: Extended): Extended {
    match (a, b)
    case (NaN, _) => NaN
    case (_, NaN) => NaN
    case (PosInf, PosInf) => NaN
    case (NegInf, NegInf) => NaN
    case (PosInf, _) => PosInf
    case (NegInf, _) => NegInf
    case (Finite(_), PosInf) => NegInf
    case (Finite(_), NegInf) => PosInf
    case (Finite(x), Finite(y)) => Finite(x - y)
  }

  /** IEEE-754 `a > c` for a finite constant `c`: false for NaN. */
  predicate Above(a: Extended, c: real) {
    match a
    case Finite(x) => x > c
    case PosInf => true
    case NegInf => false
    case NaN => false
  }

  /** IEEE-754 `a < c` for a finite constant `c`: false for NaN. */
  predicate Below(a: Extended, c: real) {
    match a
    case Finite(x) => x < c
    case PosInf => false
    case NegInf => true
    case NaN => false
  }

  /** The outcome of the coordination analysis: missing data, or both times, the
      coordination interval and whether it is likely acceptable. */
  datatype Coordination =
    | MissingData
    | Analyzed(primary: TripTime, backup: TripTime, interval: Extended, acceptable: bool)

  /** Coordination between a primary and a backup relay for one fault: missing data unless
      both relays have a time for the fault; otherwise acceptable iff the interval
      backup - primary lies strictly between 0.2 s and 0.5 s. */
  function AnalyzeCoordination(times: map<string, map<string, TripTime>>,
                               primaryId: string, backupId: string, fault: string): (c: Coordination)
    ensures c == MissingData <==>
              !(primaryId in times && backupId in times &&
                fault in times[primaryId] && fault in times[backupId])
    ensures c.Analyzed? ==>
              c.primary == times[primaryId][fault] && c.backup == times[backupId][fault]
    ensures c.Analyzed? ==>
              (c.acceptable <==>
                 c.primary.Time? && c.backup.Time? &&
                 0.2 < c.backup.seconds - c.primary.seconds < 0.5)
  {
    if primaryId in times && backupId in times &&
       fault in times[primaryId] && fault in times[backupId]
    then
      var primary := times[primaryId][fault];
      var backup := times[backupId][fault];
      var interval := Sub(AsDouble(backup), AsDouble(primary));
      Analyzed(primary, backup, interval, Above(interval, 0.2) && Below(interval, 0.5))
    else MissingData
  }

  /** Both ends of the window are excluded: an interval of exactly 0.2 s or 0.5 s needs
      adjustment, and so does any pair in which a relay does not trip. */
  lemma CoordinationWindowStrict(times: map<string, map<string, TripTime>>,
                                 primaryId: string, backupId: string, fault: string)
    requires primaryId in times && backupId in times
    requires fault in times[primaryId] && fault in times[backupId]
    ensures var c := AnalyzeCoordination(times, primaryId, backupId, fault);
            var p, b := times[primaryId][fault], times[backupId][fault];
            && c.Analyzed?
            && (p.Time? && b.Time? && b.seconds - p.seconds == 0.2 ==> !c.acceptable)
            && (p.Time? && b.Time? && b.seconds - p.seconds == 0.5 ==> !c.acceptable)
            && (p == NoTrip || b == NoTrip || p == Unknown || b == Unknown ==> !c.acceptable)
  {
  }

  // ---------------------------------------------------------------------------
  // The time-current curve

  /** The current of the k-th curve step: 1.1 * pickup plus k steps of 0.05 * pickup. */
  function CurveCurrent(pickupCurrent: real, k: nat): real {
    1.1 * pickupCurrent + (k as real) * (0.05 * pickupCurrent)
  }

  /** Each step raises the current by 0.05 * pickup. */
  lemma CurveCurrentStep(pickupCurrent: real, k: nat)
    ensures CurveCurrent(pickupCurrent, k + 1) == CurveCurrent(pickupCurrent, k) + 0.05 * pickupCurrent
  {
    assert ((k + 1) as real) * (0.05 * pickupCurrent) == (k as real) * (0.05 * pickupCurrent) + 0.05 * pickupCurrent;
  }

  /** Number of steps the curve loop makes: 179 (multiples 1.1, 1.15, ..., 10.0) for a
      positive pickup, none for a negative one. */
  function CurveSteps(pickupCurrent: real): nat {
    if pickupCurrent > 0.0 then 179 else 0
  }

  /** The loop condition `current <= 10 * pickup` holds exactly before the last step. */
  lemma CurveGuard(pickupCurrent: real, k: nat)
    requires pickupCurrent != 0.0 && k <= CurveSteps(pickupCurrent)
    ensures CurveCurrent(pickupCurrent, k) <= 10.0 * pickupCurrent <==> k < CurveSteps(pickupCurrent)
  {
    var p := pickupCurrent;
    assert 10.0 * p - CurveCurrent(p, k) == p * (8.9 - 0.05 * (k as real));
    if p > 0.0 {
      if k < 179 {
        assert 8.9 - 0.05 * (k as real) >= 0.0;
      } else {
        assert 8.9 - 0.05 * (k as real) < 0.0;
      }
    }
  }

  /** The point the k-th step plots, if it is kept: a finite time below 100 s, plotted
      against the multiple of pickup. */
  function CurvePoint(pickupCurrent: real, tms: real, characteristic: string, pow: PowerFn, k: nat)
    : Option<(real, real)>
    requires pickupCurrent != 0.0 && PowAboveOne(pow)
  {
    var current := CurveCurrent(pickupCurrent, k);
    var t := CalculateTrippingTime(current, pickupCurrent, tms, characteristic, pow);
    if t.Time? && t.seconds < 100.0 then Some((current / pickupCurrent, t.seconds)) else None
  }

  /** The points kept from the first k steps, in step order: at most one per step, each
      with a time below 100 s. */
  function CurvePoints(pickupCurrent: real, tms: real, characteristic: string, pow: PowerFn, k: nat)
    : (pts: seq<(real, real)>)
    requires pickupCurrent != 0.0 && PowAboveOne(pow)
    ensures |pts| <= k
    ensures forall j :: 0 <= j < |pts| ==> pts[j].1 < 100.0
  {
    if k == 0 then []
    else
      var pts := CurvePoints(pickupCurrent, tms, characteristic, pow, k - 1);
      match CurvePoint(pickupCurrent, tms, characteristic, pow, k - 1)
      case None => pts
      case Some(pt) => pts + [pt]
  }

  /** The series of one relay's time-current curve: steps the current from 1.1 to 10 times
      pickup and keeps the finite times below 100 s. */
  method GenerateTcCurve(pickupCurrent: real, tms: real, characteristic: string, pow: PowerFn)
    returns (series: seq<(real, real)>)
    requires pickupCurrent != 0.0 && PowAboveOne(pow)
    ensures series == CurvePoints(pickupCurrent, tms, characteristic, pow, CurveSteps(pickupCurrent))
  {
    series := [];
    var currentPu := 1.1 * pickupCurrent;
    ghost var k: nat := 0;
    CurveGuard(pickupCurrent, k);
    while currentPu <= 10.0 * pickupCurrent
      invariant k <= CurveSteps(pickupCurrent)
      invariant currentPu == CurveCurrent(pickupCurrent, k)
      invariant series == CurvePoints(pickupCurrent, tms, characteristic, pow, k)
      decreases CurveSteps(pickupCurrent) - k
    {
      CurveGuard(pickupCurrent, k);
      var time := CalculateTrippingTime(currentPu, pickupCurrent, tms, characteristic, pow);
      if time.Time? && time.seconds < 100.0 {
        series := series + [(currentPu / pickupCurrent, time.seconds)];
      }
      CurveCurrentStep(pickupCurrent, k);
      currentPu := currentPu + 0.05 * pickupCurrent;
      k := k + 1;
    }
    CurveGuard(pickupCurrent, k);
  }

  /** Only the ratio of fault current to pickup matters to the tripping rule. */
  lemma TripTimeDependsOnRatio(faultCurrent: real, pickupCurrent: real, tms: real,
                               characteristic: string, pow: PowerFn)
    requires pickupCurrent != 0.0 && PowAboveOne(pow)
    ensures CalculateTrippingTime(faultCurrent, pickupCurrent, tms, characteristic, pow) ==
            CalculateTrippingTime(faultCurrent / pickupCurrent, 1.0, tms, characteristic, pow)
  {
  }

  /** Every plotted point lies at a multiple in [1.1, 10] of pickup, carries the finite
      tripping time at that multiple, and that time is below 100 s; multiples increase. */
  lemma {:induction false} CurvePointsFiltered(pickupCurrent: real, tms: real, characteristic: string,
                                               pow: PowerFn, k: nat)
    requires pickupCurrent != 0.0 && PowAboveOne(pow) && k <= 179
    ensures var pts := CurvePoints(pickupCurrent, tms, characteristic, pow, k);
            && |pts| <= k
            && (forall j :: 0 <= j < |pts| ==>
                  && 1.1 <= pts[j].0 <= 1.1 + 0.05 * ((k - 1) as real)
                  && pts[j].1 < 100.0
                  && CalculateTrippingTime(pts[j].0, 1.0, tms, characteristic, pow) == Time(pts[j].1))
            && (forall i, j :: 0 <= i < j < |pts| ==> pts[i].0 < pts[j].0)
  {
    if k > 0 {
      CurvePointsFiltered(pickupCurrent, tms, characteristic, pow, k - 1);
      var prev := CurvePoints(pickupCurrent, tms, characteristic, pow, k - 1);
      var a := 1.1 + 0.05 * ((k - 1) as real);
      var point := CurvePoint(pickupCurrent, tms, characteristic, pow, k - 1);
      if point.Some? {
        CurvePointAt(pickupCurrent, tms, characteristic, pow, k - 1);
        assert CurvePoints(pickupCurrent, tms, characteristic, pow, k) == prev + [point.value];
        assert point.value.0 == a;
        assert forall j :: 0 <= j < |prev| ==> prev[j].0 < a;
      }
    }
  }

  /** The point of step k is plotted at multiple 1.1 + 0.05 * k of pickup, with the
      tripping time at that multiple. */
  lemma CurvePointAt(pickupCurrent: real, tms: real, characteristic: string, pow: PowerFn, k: nat)
    requires pickupCurrent != 0.0 && PowAboveOne(pow)
    requires CurvePoint(pickupCurrent, tms, characteristic, pow, k).Some?
    ensures var pt := CurvePoint(pickupCurrent, tms, characteristic, pow, k).value;
            && pt.0 == 1.1 + 0.05 * (k as real)
            && pt.1 < 100.0
            && CalculateTrippingTime(pt.0, 1.0, tms, characteristic, pow) == Time(pt.1)
  {
    var current := CurveCurrent(pickupCurrent, k);
    var a := 1.1 + 0.05 * (k as real);
    assert current == pickupCurrent * a;
    CancelFactor(pickupCurrent, a);
    TripTimeDependsOnRatio(current, pickupCurrent, tms, characteristic, pow);
  }

  lemma CancelFactor(p: real, a: real)
    requires p != 0.0
    ensures (p * a) / p == a
  {
  }

  /** A step whose time is kept appears in the series of every longer run. */
  lemma {:induction false} CurvePointKept(pickupCurrent: real, tms: real, characteristic: string,
                                          pow: PowerFn, j: nat, k: nat)
    requires pickupCurrent != 0.0 && PowAboveOne(pow) && j < k
    requires CurvePoint(pickupCurrent, tms, characteristic, pow, j).Some?
    ensures CurvePoint(pickupCurrent, tms, characteristic, pow, j).value in
              CurvePoints(pickupCurrent, tms, characteristic, pow, k)
  {
    if j < k - 1 {
      CurvePointKept(pickupCurrent, tms, characteristic, pow, j, k - 1);
    }
  }

  /** An unknown characteristic plots nothing. */
  lemma {:induction false} UnknownCharacteristicEmptyCurve(pickupCurrent: real, tms: real,
                                                           characteristic: string, pow: PowerFn, k: nat)
    requires pickupCurrent != 0.0 && PowAboveOne(pow)
    requires Characteristic(characteristic) == None
    ensures CurvePoints(pickupCurrent, tms, characteristic, pow, k) == []
  {
    if k > 0 {
      UnknownCharacteristicEmptyCurve(pickupCurrent, tms, characteristic, pow, k - 1);
    }
  }

  // ---------------------------------------------------------------------------
  // The analysis object

  /** The relays the program loads. */
  const LoadedRelays: seq<Relay> := [
    Relay("R1", 1.5, 0.1, "Inverse"),
    Relay("R2", 1.2, 0.2, "Very Inverse"),
    Relay("R3", 1.0, 0.3, "Inverse")]

  /** The fault currents (pu) the program loads. */
  const LoadedFaults: map<string, real> := map["Fault_A" := 5.0, "Fault_B" := 3.5, "Fault_C" := 2.0]

  class RelayAnalysis {
    var relayList: seq<Relay>
    var faultCurrents: map<string, real>
    var trippingTimes: map<string, map<string, TripTime>>
    /** `Math.pow`, for the non-integral exponent. */
    const pow: PowerFn

    ghost predicate Valid()
      reads this
    {
      PowAboveOne(pow) && PickupsNonZero(relayList)
    }

    /** Loads the relays and fault currents and builds the tripping table. */
    constructor (pow: PowerFn)
      requires PowAboveOne(pow)
      ensures Valid() && this.pow == pow
      ensures relayList == LoadedRelays && faultCurrents == LoadedFaults
      ensures trippingTimes == TimesTable(map[], LoadedRelays, LoadedFaults, pow)
    {
      this.pow := pow;
      relayList := [];
      faultCurrents := map[];
      trippingTimes := map[];
      new;
      LoadRelayData();
      LoadFaultCurrents();
      CalculateTrippingTimes();
    }

    method LoadRelayData()
      requires Valid()
      modifies this`relayList
      ensures Valid()
      ensures relayList == old(relayList) + LoadedRelays
    {
      relayList := relayList + [Relay("R1", 1.5, 0.1, "Inverse")];
      relayList := relayList + [Relay("R2", 1.2, 0.2, "Very Inverse")];
      relayList := relayList + [Relay("R3", 1.0, 0.3, "Inverse")];
    }

    method LoadFaultCurrents()
      modifies this`faultCurrents
      ensures faultCurrents == old(faultCurrents)["Fault_A" := 5.0]["Fault_B" := 3.5]["Fault_C" := 2.0]
    {
      faultCurrents := faultCurrents["Fault_A" := 5.0];
      faultCurrents := faultCurrents["Fault_B" := 3.5];
      faultCurrents := faultCurrents["Fault_C" := 2.0];
    }

    /** For every relay, computes its time for every fault and puts that map under its id. */
    method CalculateTrippingTimes()
      requires Valid()
      modifies this`trippingTimes
      ensures trippingTimes == TimesTable(old(trippingTimes), relayList, faultCurrents, pow)
    {
      for r := 0 to |relayList|
        invariant trippingTimes == TimesTable(old(trippingTimes), relayList[..r], faultCurrents, pow)
      {
        var relay := relayList[r];
        var times: map<string, TripTime> := map[];
        var remaining := faultCurrents.Keys;
        while remaining != {}
          invariant remaining <= faultCurrents.Keys
          invariant times.Keys == faultCurrents.Keys - remaining
          invariant forall f :: f in times ==>
                      times[f] == CalculateTrippingTime(faultCurrents[f], relay.pickupCurrent,
                                                        relay.tms, relay.characteristic, pow)
          decreases remaining
        {
          var fault :| fault in remaining;
          var tripTime := CalculateTrippingTime(faultCurrents[fault], relay.pickupCurrent,
                                                relay.tms, relay.characteristic, pow);
          times := times[fault := tripTime];
          remaining := remaining - {fault};
        }
        assert times == FaultTimes(relay, faultCurrents, pow);
        assert relayList[..r + 1][..r] == relayList[..r];
        trippingTimes := trippingTimes[relay.id := times];
      }
      assert relayList[..|relayList|] == relayList;
    }

    /** The coordination analysis over the object's table. */
    function Coordinate(primaryId: string, backupId: string, fault: string): Coordination
      reads this
    {
      AnalyzeCoordination(trippingTimes, primaryId, backupId, fault)
    }
  }

  /** The table the program builds: R1, R2 and R3 each under their own id. */
  lemma ExampleTable(pow: PowerFn)
    requires PowAboveOne(pow)
    ensures TimesTable(map[], LoadedRelays, LoadedFaults, pow) ==
              map["R1" := FaultTimes(LoadedRelays[0], LoadedFaults, pow),
                  "R2" := FaultTimes(LoadedRelays[1], LoadedFaults, pow),
                  "R3" := FaultTimes(LoadedRelays[2], LoadedFaults, pow)]
  {
    var rs := LoadedRelays;
    assert rs[..2] == [rs[0], rs[1]];
    assert rs[..2][..1] == [rs[0]];
    assert rs[..2][..1][..0] == [];
  }

  /** In the table the program builds, R1's and R2's times for Fault_A are their tripping
      times at 5.0 pu. */
  lemma ExampleFaultATimes(pow: PowerFn)
    requires PowAboveOne(pow)
    ensures var t := TimesTable(map[], LoadedRelays, LoadedFaults, pow);
            && "R1" in t && "Fault_A" in t["R1"] && "R2" in t && "Fault_A" in t["R2"]
            && t["R1"]["Fault_A"] == CalculateTrippingTime(5.0, 1.5, 0.1, "Inverse", pow)
            && t["R2"]["Fault_A"] == CalculateTrippingTime(5.0, 1.2, 0.2, "Very Inverse", pow)
  {
    ExampleTable(pow);
    assert LoadedFaults["Fault_A"] == 5.0;
  }

  /** The example the program runs: R1 (primary) against R2 (backup) for Fault_A finds both
      times; R2, Very Inverse at 5.0 / 1.2 pu, trips after 0.2 * 13.5 / (5.0 / 1.2 - 1)
      = 16.2 / 19 s. */
  lemma ExampleCoordinationHasData(pow: PowerFn)
    requires PowAboveOne(pow)
    ensures var t := TimesTable(map[], LoadedRelays, LoadedFaults, pow);
            var c := AnalyzeCoordination(t, "R1", "R2", "Fault_A");
            c.Analyzed? && c.primary.Time? && c.backup == Time(16.2 / 19.0)
  {
    ExampleFaultATimes(pow);
    assert 5.0 / 1.5 > 1.0;
    KnownCharacteristicTripsInPositiveTime(5.0, 1.5, 0.1, "Inverse", pow);
    assert 5.0 / 1.2 > 1.0;
    VeryInverseTime(5.0, 1.2, 0.2, pow);
    assert 0.2 * (13.5 / (5.0 / 1.2 - 1.0)) == 16.2 / 19.0;
  }
}
