/** The DC optimal-power-flow network model: slack-referenced bus angles, net bus
    injections from line angle differences, generator output clipped to its limits,
    the linear generation cost the optimiser minimises, and per-line flows. */
module PowerFlow {
  import opened JavaMath

  /** A bus row of the bus table: demand Pd and the generator limits [Pg_min, Pg_max] (MW). */
  datatype Bus = Bus(demand: real, pgMin: real, pgMax: real)

  /** A line row of the line table: end buses, reactance x and the flow limit (MW). */
  datatype Line = Line(from: nat, to: nat, x: real, maxFlow: real)

  /** Generation cost coefficients of one bus: cost = a + b * Pg. */
  datatype CostCoeff = CostCoeff(a: real, b: real)

  /** The three static tables of the program. Bus 0 is the slack bus. */
  datatype Network = Network(buses: seq<Bus>, lines: seq<Line>, costs: seq<CostCoeff>) {

    /** The tables are usable: at least the slack bus, one cost row per bus, and every
        line joins existing buses through a non-zero reactance. */
    predicate Valid() {
      && |buses| >= 1
      && |costs| == |buses|
      && LinesFit(lines, |buses|)
    }
  }

  predicate LinesFit(lines: seq<Line>, n: nat) {
    forall j :: 0 <= j < |lines| ==> lines[j].from < n && lines[j].to < n && lines[j].x != 0.0
  }

  /** The program's tables: 3 buses, 3 lines, linear costs 2.0, 3.0 and 2.5. */
  const Case3: Network := Network(
    [Bus(100.0, 0.0, 300.0), Bus(50.0, 0.0, 200.0), Bus(75.0, 0.0, 250.0)],
    [Line(0, 1, 0.1, 150.0), Line(0, 2, 0.2, 100.0), Line(1, 2, 0.15, 120.0)],
    [CostCoeff(0.0, 2.0), CostCoeff(0.0, 3.0), CostCoeff(0.0, 2.5)])

  /** Number of free angles the optimiser varies: every bus but the slack. */
  function FreeAngles(net: Network): nat
    requires net.Valid()
  {
    |net.buses| - 1
  }

  /** With one free angle per non-slack bus, the full angle vector gives every bus but the
      slack its own angle from the optimiser, and no bus is left at the zero fill. */
  lemma FreeAnglesFillTheta(net: Network, angles: seq<real>)
    requires net.Valid() && |angles| == FreeAngles(net)
    ensures var theta := Theta(angles, |net.buses|);
            && theta[0] == 0.0
            && forall i :: 0 < i < |net.buses| ==> theta[i] == angles[i - 1]
  {
    var theta := Theta(angles, |net.buses|);
    forall i | 0 < i < |net.buses|
      ensures theta[i] == angles[i - 1]
    {
      assert theta[(i - 1) + 1] == angles[i - 1];
    }
  }

  lemma Case3Valid()
    ensures Case3.Valid() && |Case3.buses| == 3 && |Case3.lines| == 3
  {
  }

  // ---------------------------------------------------------------------------
  // Specification functions

  /** The full angle vector: slack angle 0 first, then the free angles, and zero for any
      bus the angle vector does not reach (Java's zero-filled array). */
  function Theta(angles: seq<real>, n: nat): (theta: seq<real>)
    requires |angles| < n
    ensures |theta| == n
    ensures theta[0] == 0.0
    ensures forall i :: 0 <= i < |angles| ==> theta[i + 1] == angles[i]
    ensures forall i :: |angles| < i < n ==> theta[i] == 0.0
  {
    seq(n, i requires 0 <= i < n => if 0 < i <= |angles| then angles[i - 1] else 0.0)
  }

  /** What line `l` adds to bus `i`'s injection: its outflow seen from bus `i`. */
  function LineTerm(l: Line, theta: seq<real>, i: nat): real
    requires l.from < |theta| && l.to < |theta| && l.x != 0.0 && i < |theta|
  {
    (if l.from == i then (theta[i] - theta[l.to]) / l.x else 0.0) +
    (if l.to == i then (theta[i] - theta[l.from]) / l.x else 0.0)
  }

  /** Net injection at bus `i`: the line terms summed in table order. A bus that no
      line touches injects nothing. */
  function Injection(lines: seq<Line>, theta: seq<real>, i: nat): (p: real)
    requires LinesFit(lines, |theta|) && i < |theta|
    ensures (forall j :: 0 <= j < |lines| ==> lines[j].from != i && lines[j].to != i) ==> p == 0.0
  {
    if |lines| == 0 then 0.0
    else Injection(lines[..|lines| - 1], theta, i) + LineTerm(lines[|lines| - 1], theta, i)
  }

  /** Demand plus injection, clipped first from below by Pg_min and then from above by Pg_max. */
  function Clip(v: real, lo: real, hi: real): (r: real)
    ensures lo <= hi ==> lo <= r <= hi
    ensures lo <= v <= hi ==> r == v
    ensures v < lo <= hi ==> r == lo
    ensures lo <= hi < v ==> r == hi
    ensures hi < lo ==> r == hi
  {
    Min(Max(v, lo), hi)
  }

  /** Generator output of bus `i` for the given free angles. */
  function BusOutput(net: Network, theta: seq<real>, i: nat): real
    requires net.Valid() && |theta| == |net.buses| && i < |net.buses|
  {
    var bus := net.buses[i];
    Clip(bus.demand + Injection(net.lines, theta, i), bus.pgMin, bus.pgMax)
  }

  /** Generator output of every bus for the given free angles. */
  function GeneratorOutput(net: Network, angles: seq<real>): (pg: seq<real>)
    requires net.Valid() && |angles| < |net.buses|
    ensures |pg| == |net.buses|
  {
    var theta := Theta(angles, |net.buses|);
    seq(|net.buses|, i requires 0 <= i < |net.buses| => BusOutput(net, theta, i))
  }

  /** Sum of a_i + b_i * pg_i over the first `k` buses. */
  function CostSum(costs: seq<CostCoeff>, pg: seq<real>, k: nat): real
    requires k <= |costs| && k <= |pg|
  {
    if k == 0 then 0.0 else CostSum(costs, pg, k - 1) + (costs[k - 1].a + costs[k - 1].b * pg[k - 1])
  }

  /** Every bus has ordered generator limits and a non-negative marginal cost. */
  predicate OrderedLimits(net: Network)
    requires net.Valid()
  {
    forall i :: 0 <= i < |net.buses| ==> net.buses[i].pgMin <= net.buses[i].pgMax && net.costs[i].b >= 0.0
  }

  /** Every generator at its lower limit. */
  function LowerLimits(net: Network): (pg: seq<real>)
    ensures |pg| == |net.buses|
  {
    seq(|net.buses|, i requires 0 <= i < |net.buses| => net.buses[i].pgMin)
  }

  /** Every generator at its upper limit. */
  function UpperLimits(net: Network): (pg: seq<real>)
    ensures |pg| == |net.buses|
  {
    seq(|net.buses|, i requires 0 <= i < |net.buses| => net.buses[i].pgMax)
  }

  /** The objective the optimiser minimises: the cost at the clipped outputs. With ordered
      limits and non-negative marginal costs it lies between the cost of running every
      generator at its lower limit and at its upper limit, whatever the angles. */
  function TotalCost(net: Network, angles: seq<real>): (cost: real)
    requires net.Valid() && |angles| < |net.buses|
    ensures OrderedLimits(net) ==>
              CostSum(net.costs, LowerLimits(net), |net.buses|) <= cost <=
              CostSum(net.costs, UpperLimits(net), |net.buses|)
  {
    var pg := GeneratorOutput(net, angles);
    CostBounds(net, pg);
    CostSum(net.costs, pg, |net.buses|)
  }

  /** A dispatch within the limits costs between the lower-limit and upper-limit costs. */
  lemma CostBounds(net: Network, pg: seq<real>)
    requires net.Valid() && |pg| == |net.buses|
    requires forall i :: 0 <= i < |net.buses| && net.buses[i].pgMin <= net.buses[i].pgMax ==>
               net.buses[i].pgMin <= pg[i] <= net.buses[i].pgMax
    ensures OrderedLimits(net) ==>
              CostSum(net.costs, LowerLimits(net), |net.buses|) <= CostSum(net.costs, pg, |net.buses|) <=
              CostSum(net.costs, UpperLimits(net), |net.buses|)
  {
    if OrderedLimits(net) {
      CostSumMonotone(net.costs, LowerLimits(net), pg, |net.buses|);
      CostSumMonotone(net.costs, pg, UpperLimits(net), |net.buses|);
    }
  }

  /** With non-negative marginal costs, more output never costs less. */
  lemma {:induction false} CostSumMonotone(costs: seq<CostCoeff>, pg: seq<real>, pg': seq<real>, k: nat)
    requires k <= |costs| && k <= |pg| && k <= |pg'|
    requires forall i :: 0 <= i < k ==> costs[i].b >= 0.0 && pg[i] <= pg'[i]
    ensures CostSum(costs, pg, k) <= CostSum(costs, pg', k)
  {
    if k > 0 {
      CostSumMonotone(costs, pg, pg', k - 1);
      var b := costs[k - 1].b;
      assert b * pg[k - 1] <= b * pg'[k - 1] by {
        assert b * (pg'[k - 1] - pg[k - 1]) >= 0.0;
      }
    }
  }

  /** Flow on line `l`, from its from-bus to its to-bus: the DC flow law, reactance
      times flow equals the angle difference across the line. */
  function LineFlow(l: Line, theta: seq<real>): (flow: real)
    requires l.from < |theta| && l.to < |theta| && l.x != 0.0
    ensures l.x * flow == theta[l.from] - theta[l.to]
  {
    (theta[l.from] - theta[l.to]) / l.x
  }

  // ---------------------------------------------------------------------------
  // The program's loops

  /** Builds the full angle vector in a fresh array (slack bus first). */
  method BuildTheta(angles: array<real>, n: nat) returns (theta: array<real>)
    requires angles.Length < n
    ensures fresh(theta)
    ensures theta[..] == Theta(angles[..], n)
  {
    theta := new real[n](_ => 0.0);
    theta[0] := 0.0;
    for i := 0 to angles.Length
      invariant theta[0] == 0.0
      invariant forall k :: 0 <= k < i ==> theta[k + 1] == angles[k]
      invariant forall k :: i < k < n ==> theta[k] == 0.0
    {
      theta[i + 1] := angles[i];
    }
  }

  /** Generator dispatch for the given free angles: for each bus, accumulate the line terms
      into its injection, add its demand and clip to the generator limits. */
  method CalculateGeneratorOutput(net: Network, angles: array<real>) returns (pg: array<real>)
    requires net.Valid() && angles.Length < |net.buses|
    ensures fresh(pg)
    ensures pg[..] == GeneratorOutput(net, angles[..])
  {
    var n := |net.buses|;
    pg := new real[n](_ => 0.0);
    var theta := BuildTheta(angles, n);
    ghost var th := theta[..];
    var pInjection := new real[n](_ => 0.0);
    for i := 0 to n
      invariant theta[..] == th
      invariant forall k :: 0 <= k < i ==> pg[k] == BusOutput(net, th, k)
      invariant forall k :: i <= k < n ==> pInjection[k] == 0.0
    {
      AccumulateInjection(net.lines, theta, i, pInjection);
      pg[i] := net.buses[i].demand + pInjection[i];
      pg[i] := Max(pg[i], net.buses[i].pgMin);
      pg[i] := Min(pg[i], net.buses[i].pgMax);
    }
  }

  /** The inner loop of the dispatch: adds every line's term for bus `i` to `pInjection[i]`,
      which starts at zero. */
  method AccumulateInjection(lines: seq<Line>, theta: array<real>, i: nat, pInjection: array<real>)
    requires LinesFit(lines, theta.Length) && i < theta.Length && i < pInjection.Length
    requires pInjection[i] == 0.0
    requires theta != pInjection
    modifies pInjection
    ensures pInjection[i] == Injection(lines, theta[..], i)
    ensures forall k :: 0 <= k < pInjection.Length && k != i ==> pInjection[k] == old(pInjection[k])
  {
    for j := 0 to |lines|
      invariant pInjection[i] == Injection(lines[..j], theta[..], i)
      invariant forall k :: 0 <= k < pInjection.Length && k != i ==> pInjection[k] == old(pInjection[k])
    {
      var line := lines[j];
      assert lines[..j + 1][..j] == lines[..j];
      if line.from == i {
        pInjection[i] := pInjection[i] + (theta[i] - theta[line.to]) / line.x;
      }
      if line.to == i {
        pInjection[i] := pInjection[i] + (theta[i] - theta[line.from]) / line.x;
      }
    }
    assert lines[..|lines|] == lines;
  }

  /** The objective: sum of a_i + b_i * pg_i at the clipped dispatch. */
  method CalculateTotalCost(net: Network, angles: array<real>) returns (totalCost: real)
    requires net.Valid() && angles.Length < |net.buses|
    ensures totalCost == TotalCost(net, angles[..])
  {
    var pg := CalculateGeneratorOutput(net, angles);
    totalCost := SumCosts(net.costs, pg);
  }

  /** The summing loop of the objective: a_i + b_i * pg_i added up bus by bus. */
  method SumCosts(costs: seq<CostCoeff>, pg: array<real>) returns (totalCost: real)
    requires |costs| == pg.Length
    ensures totalCost == CostSum(costs, pg[..], |costs|)
  {
    totalCost := 0.0;
    for i := 0 to |costs|
      invariant totalCost == CostSum(costs, pg[..], i)
    {
      totalCost := totalCost + (costs[i].a + costs[i].b * pg[i]);
    }
  }

  /** Flow on every line, in table order, for the given free angles. */
  method CalculateLineFlows(net: Network, angles: array<real>) returns (flows: seq<real>)
    requires net.Valid() && angles.Length < |net.buses|
    ensures |flows| == |net.lines|
    ensures forall j :: 0 <= j < |net.lines| ==>
              flows[j] == LineFlow(net.lines[j], Theta(angles[..], |net.buses|))
  {
    var theta := BuildTheta(angles, |net.buses|);
    flows := [];
    for i := 0 to |net.lines|
      invariant |flows| == i
      invariant forall j :: 0 <= j < i ==> flows[j] == LineFlow(net.lines[j], theta[..])
    {
      var line := net.lines[i];
      var flow := (theta[line.from] - theta[line.to]) / line.x;
      flows := flows + [flow];
    }
  }

  // ---------------------------------------------------------------------------
  // Properties

  /** Every bus's dispatch lies within its generator limits whenever those are ordered,
      and equals demand plus injection when that already lies within them. */
  lemma DispatchWithinLimits(net: Network, angles: seq<real>, i: nat)
    requires net.Valid() && |angles| < |net.buses| && i < |net.buses|
    ensures var bus := net.buses[i];
            var pg := GeneratorOutput(net, angles)[i];
            var raw := bus.demand + Injection(net.lines, Theta(angles, |net.buses|), i);
            && (bus.pgMin <= bus.pgMax ==> bus.pgMin <= pg <= bus.pgMax)
            && (bus.pgMin <= raw <= bus.pgMax ==> pg == raw)
  {
  }

  /** Summing what one line adds over the first `k` buses: its outflow at the from-bus
      and its inflow at the to-bus, each counted once that bus is among the first `k`. */
  function LineTotal(l: Line, theta: seq<real>, k: nat): real
    requires l.from < |theta| && l.to < |theta| && l.x != 0.0 && k <= |theta|
  {
    if k == 0 then 0.0 else LineTotal(l, theta, k - 1) + LineTerm(l, theta, k - 1)
  }

  /** Sum of the injections over the first `k` buses. */
  function TotalInjection(lines: seq<Line>, theta: seq<real>, k: nat): real
    requires LinesFit(lines, |theta|) && k <= |theta|
  {
    if k == 0 then 0.0 else TotalInjection(lines, theta, k - 1) + Injection(lines, theta, k - 1)
  }

  lemma {:induction false} LineTotalClosedForm(l: Line, theta: seq<real>, k: nat)
    requires l.from < |theta| && l.to < |theta| && l.x != 0.0 && k <= |theta|
    ensures LineTotal(l, theta, k) ==
              (if l.from < k then (theta[l.from] - theta[l.to]) / l.x else 0.0) +
              (if l.to < k then (theta[l.to] - theta[l.from]) / l.x else 0.0)
  {
    if k > 0 {
      LineTotalClosedForm(l, theta, k - 1);
    }
  }

  /** One line's terms cancel over the whole network: what leaves one end enters the other. */
  lemma LineConserves(l: Line, theta: seq<real>)
    requires l.from < |theta| && l.to < |theta| && l.x != 0.0
    ensures LineTotal(l, theta, |theta|) == 0.0
  {
    LineTotalClosedForm(l, theta, |theta|);
    var d := theta[l.from] - theta[l.to];
    assert theta[l.to] - theta[l.from] == -d;
    NegatedQuotient(d, l.x);
    assert LineTotal(l, theta, |theta|) == d / l.x + (-d) / l.x;
  }

  lemma {:induction false} TotalInjectionEmpty(theta: seq<real>, k: nat)
    requires k <= |theta|
    ensures TotalInjection([], theta, k) == 0.0
  {
    if k > 0 {
      TotalInjectionEmpty(theta, k - 1);
    }
  }

  /** Adding a line to the table adds its terms to the total over any bus prefix. */
  lemma {:induction false} TotalInjectionSnoc(lines: seq<Line>, theta: seq<real>, k: nat)
    requires |lines| > 0 && LinesFit(lines, |theta|) && k <= |theta|
    ensures var last := lines[|lines| - 1];
            TotalInjection(lines, theta, k) ==
              TotalInjection(lines[..|lines| - 1], theta, k) + LineTotal(last, theta, k)
  {
    if k > 0 {
      TotalInjectionSnoc(lines, theta, k - 1);
    }
  }

  /** Conservation of the linearised flow model: at every angle vector, the injections
      over all buses sum to zero. */
  lemma {:induction false} InjectionsSumToZero(lines: seq<Line>, theta: seq<real>)
    requires LinesFit(lines, |theta|)
    ensures TotalInjection(lines, theta, |theta|) == 0.0
  {
    if |lines| == 0 {
      TotalInjectionEmpty(theta, |theta|);
    } else {
      var init := lines[..|lines| - 1];
      assert LinesFit(init, |theta|);
      InjectionsSumToZero(init, theta);
      TotalInjectionSnoc(lines, theta, |theta|);
      LineConserves(lines[|lines| - 1], theta);
    }
  }

  /** The same statement for a network and a free-angle vector. */
  lemma NetworkInjectionsSumToZero(net: Network, angles: seq<real>)
    requires net.Valid() && |angles| < |net.buses|
    ensures TotalInjection(net.lines, Theta(angles, |net.buses|), |net.buses|) == 0.0
  {
    InjectionsSumToZero(net.lines, Theta(angles, |net.buses|));
  }

  /** With every angle equal, no line carries anything to any bus. */
  lemma {:induction false} InjectionAtFlatAngles(lines: seq<Line>, theta: seq<real>, i: nat)
    requires LinesFit(lines, |theta|) && i < |theta|
    requires forall k :: 0 <= k < |theta| ==> theta[k] == theta[0]
    ensures Injection(lines, theta, i) == 0.0
  {
    if |lines| > 0 {
      var init := lines[..|lines| - 1];
      assert LinesFit(init, |theta|);
      InjectionAtFlatAngles(init, theta, i);
    }
  }

  /** At all-zero free angles every injection vanishes, so each bus's output is its own
      demand clipped to its limits. */
  lemma ZeroAnglesDispatchDemand(net: Network, angles: seq<real>)
    requires net.Valid() && |angles| < |net.buses|
    requires forall k :: 0 <= k < |angles| ==> angles[k] == 0.0
    ensures forall i :: 0 <= i < |net.buses| ==>
              GeneratorOutput(net, angles)[i] ==
                Clip(net.buses[i].demand, net.buses[i].pgMin, net.buses[i].pgMax)
  {
    var theta := Theta(angles, |net.buses|);
    assert forall k :: 0 <= k < |theta| ==> theta[k] == theta[0] by {
      forall k | 0 <= k < |theta| ensures theta[k] == theta[0] {
        if 0 < k <= |angles| {
          assert theta[(k - 1) + 1] == angles[k - 1];
        }
      }
    }
    forall i | 0 <= i < |net.buses|
      ensures GeneratorOutput(net, angles)[i] ==
                Clip(net.buses[i].demand, net.buses[i].pgMin, net.buses[i].pgMax)
    {
      InjectionAtFlatAngles(net.lines, theta, i);
    }
  }

  /** For the program's own tables at the initial guess (all angles 0), the objective is
      2*100 + 3*50 + 2.5*75 = 537.5. */
  lemma Case3CostAtInitialGuess()
    ensures Case3.Valid()
    ensures TotalCost(Case3, [0.0, 0.0]) == 537.5
  {
    Case3Valid();
    ZeroAnglesDispatchDemand(Case3, [0.0, 0.0]);
    var pg := GeneratorOutput(Case3, [0.0, 0.0]);
    assert pg[0] == 100.0 && pg[1] == 50.0 && pg[2] == 75.0;
  }

  /** Line flow is antisymmetric: swapping the end buses negates it, and equal end angles
      carry no flow. */
  lemma FlowAntisymmetric(l: Line, theta: seq<real>)
    requires l.from < |theta| && l.to < |theta| && l.x != 0.0
    ensures LineFlow(l.(from := l.to, to := l.from), theta) == -LineFlow(l, theta)
    ensures theta[l.from] == theta[l.to] ==> LineFlow(l, theta) == 0.0
  {
    var d := theta[l.from] - theta[l.to];
    assert theta[l.to] - theta[l.from] == -d;
    NegatedQuotient(d, l.x);
  }

  lemma NegatedQuotient(d: real, x: real)
    requires x != 0.0
    ensures (-d) / x == -(d / x)
  {
  }

  /** A line contributes its flow to the injection at its from-bus and the negated flow at
      its to-bus, and nothing elsewhere. */
  lemma LineTermIsFlow(l: Line, theta: seq<real>, i: nat)
    requires l.from < |theta| && l.to < |theta| && l.x != 0.0 && i < |theta|
    requires l.from != l.to
    ensures i == l.from ==> LineTerm(l, theta, i) == LineFlow(l, theta)
    ensures i == l.to ==> LineTerm(l, theta, i) == -LineFlow(l, theta)
    ensures i != l.from && i != l.to ==> LineTerm(l, theta, i) == 0.0
  {
    FlowAntisymmetric(l, theta);
  }
}
