# Power-engineering tools: a verified model

This project models the computational core of five small Java programs.

- **DC optimal power flow** (`OptimalPowerFlowDC`) — module `PowerFlow`.
  - The three-bus case tables.
  - The bus angles built from the optimiser's variables, with the slack bus at 0.
  - The generator dispatch: demand plus net line outflow, clamped to each generator's limits.
  - The linear cost that the optimiser minimises.
  - The line flows.
- **Overcurrent relay coordination** (`OvercurrentRelayAnalysis`) — module `OvercurrentRelay`.
  - The IEC inverse-time tripping formula, for the three named characteristics.
  - The table of tripping times for every relay and every fault.
  - The sampled time-current curve and its plotting filter.
  - The primary/backup coordination check.
- **PID speed control of a DC motor** (`DCMotorPIDControl`) — module `DcMotorPid`.
  - The speed reference.
  - The armature and mechanical equations.
  - One explicit Euler step per control period.
  - The clamped PID law.
  - The logging loop.
- **Buck converter simulation** (`BuckConverterSimulation`) — module `BuckConverter`.
  - The duty-cycle switch.
  - The inductor and capacitor equations.
  - The Euler run.
  - The average output voltage over the second half of the run.
- **Solar PV performance analysis** (`SolarPVAnalysis`) — module `SolarPv`.
  - Reading the CSV lines into six parallel series.
  - The DC power and efficiency series derived from them.

Two further modules model the Java library behaviour these programs rely on:

- `JavaMath` models `Math.min`/`Math.max`, the `(int)` cast and `%` on doubles.
- `JavaText` models `String.split(",")`, which drops trailing empty strings, and `String.trim()`.

`Wrappers` holds an `Option` type.

## How the Java maps to Dafny

- **Numbers.** Doubles are modelled as `real`. Java's `%` on doubles is modelled as the remainder of a quotient truncated toward zero.
- **Non-finite results.** Positive infinity ("no trip") and NaN ("unknown characteristic") are datatype cases. Comparisons and subtraction follow IEEE-754 for these cases.
- **`Math.pow`.** It is a function parameter. The exponents 1 and 2 are computed exactly. For any other exponent, the model only assumes that a base above one raised to a positive exponent is above one.
- **Parsers.** `Double.parseDouble` and `LocalDateTime.parse` are function parameters returning `Option`. A parse failure, which is an exception in Java, is `None`.
- **The CSV file.** It is given as its sequence of lines.
- **Objects.** Every Java object whose lists or maps are filled in place is a `class`:
  - list fields are `seq` fields;
  - map fields are `map` fields;
  - the loops are `while`/`for` loops with invariants.
- **Specification functions.**
  - `Theta`, `GeneratorOutput`, `TotalCost`, `LineFlow`, `CurvePoints`, `TimesTable`, `Run`, `WindowAverage`, `ReadCsv`, `DcPower` and `Efficiency` state what the loops compute.
  - The ghost predicates `ControlLog` and `RunLogged` state what the simulation logs hold.
  - Lemmas prove the engineering properties about these functions. Examples: power balance, monotone tripping time, the strict coordination window, switch periodicity, voltage limits, and the efficiency/power relation.

## Model

| member | source | states |
|---|---|---|
| JavaMath.Min | Simulation-of-a-PID-Controller-for-DC-Motor-Speed-Control/src/main/java/DCMotorPIDControl.java:114 | Math.min: the result is at most both arguments and is one of them |
| JavaMath.Max | Simple-Optimal-Power-Flow-OPF-Solver/src/main/java/OptimalPowerFlowDC.java:128 | Math.max: the result is at least both arguments and is one of them |
| JavaMath.Trunc | Simulation-and-Analysis-of-a-Buck-Converter/src/main/java/BuckConverterSimulation.java:25 | the (int) cast of a double: the integer between 0 and q nearest to q, within one of it |
| JavaMath.FMod | Simulation-and-Analysis-of-a-Buck-Converter/src/main/java/BuckConverterSimulation.java:53 | Java `%` on doubles: the remainder has the sign of the dividend and is smaller in size than the divisor; a non-negative time gives a value in [0, |period|) |
| JavaMath.FModPeriodic | Simulation-and-Analysis-of-a-Buck-Converter/src/main/java/BuckConverterSimulation.java:53 | adding one period does not change the remainder |
| JavaMath.PeriodsLength | Simulation-and-Analysis-of-a-Buck-Converter/src/main/java/BuckConverterSimulation.java:66 | k additions of a step y (as the time accumulation makes them) amount to k * y |
| JavaMath.FModShift | Simulation-and-Analysis-of-a-Buck-Converter/src/main/java/BuckConverterSimulation.java:53 | adding any whole number k of periods does not change the remainder |
| JavaMath.FModPeriods | Simulation-and-Analysis-of-a-Buck-Converter/src/main/java/BuckConverterSimulation.java:53 | adding k periods one at a time keeps the value non-negative and the remainder unchanged |
| JavaText.Fields | Solar-PV-System-Performance-Analysis-and-Monitoring-Tool/src/main/java/SolarPVAnalysis.java:54 | cutting a line at every comma gives at least one piece |
| JavaText.JoinFields | Solar-PV-System-Performance-Analysis-and-Monitoring-Tool/src/main/java/SolarPVAnalysis.java:54 | joining the pieces with commas gives the line back |
| JavaText.FieldsShape | Solar-PV-System-Performance-Analysis-and-Monitoring-Tool/src/main/java/SolarPVAnalysis.java:54 | there is one piece more than there are commas, and no piece holds a comma |
| JavaText.FieldsJoin | Solar-PV-System-Performance-Analysis-and-Monitoring-Tool/src/main/java/SolarPVAnalysis.java:54 | cutting comma-free pieces joined by commas gives the pieces back (the inverse of JoinFields) |
| JavaText.DropTrailingEmptyCount | Solar-PV-System-Performance-Analysis-and-Monitoring-Tool/src/main/java/SolarPVAnalysis.java:54-55 | split drops only trailing empty strings: the result is a prefix, and it has k elements iff element k-1 is non-empty and all after it are empty |
| JavaText.FieldsWithoutComma | Solar-PV-System-Performance-Analysis-and-Monitoring-Tool/src/main/java/SolarPVAnalysis.java:54 | a line without a comma is a single piece |
| JavaText.SplitCount | Solar-PV-System-Performance-Analysis-and-Monitoring-Tool/src/main/java/SolarPVAnalysis.java:54-55 | split gives exactly n >= 2 values iff the line cut at its commas has at least n pieces, piece n-1 non-empty and all later ones empty |
| JavaText.Split | Solar-PV-System-Performance-Analysis-and-Monitoring-Tool/src/main/java/SolarPVAnalysis.java:54 | String.split(","): no value holds a comma, there are at most one more values than commas, and when the line has a comma trailing empty values are dropped |
| JavaText.DropTrailingEmptyPrefix | Solar-PV-System-Performance-Analysis-and-Monitoring-Tool/src/main/java/SolarPVAnalysis.java:54 | dropping trailing empty strings keeps a prefix, and a non-empty result does not end in an empty string |
| JavaText.Trim | Solar-PV-System-Performance-Analysis-and-Monitoring-Tool/src/main/java/SolarPVAnalysis.java:56-61 | String.trim never lengthens the value, and leaves it unchanged iff it is empty or neither starts nor ends with a character up to the space |
| JavaText.TrimStartShape | Solar-PV-System-Performance-Analysis-and-Monitoring-Tool/src/main/java/SolarPVAnalysis.java:56-61 | trimming the start removes a prefix of characters up to the space and stops at the first other character |
| JavaText.TrimEndShape | Solar-PV-System-Performance-Analysis-and-Monitoring-Tool/src/main/java/SolarPVAnalysis.java:56-61 | trimming the end removes a suffix of characters up to the space and stops at the last other character |
| JavaText.TrimEndKeepsStart | Solar-PV-System-Performance-Analysis-and-Monitoring-Tool/src/main/java/SolarPVAnalysis.java:56-61 | trimming the end keeps a non-blank first character |
| JavaText.TrimShape | Solar-PV-System-Performance-Analysis-and-Monitoring-Tool/src/main/java/SolarPVAnalysis.java:56-61 | trim keeps a contiguous slice of the value whose first and last characters are not blank |
| JavaText.TrimIdempotent | Solar-PV-System-Performance-Analysis-and-Monitoring-Tool/src/main/java/SolarPVAnalysis.java:56-61 | trimming twice is trimming once |
| PowerFlow.FreeAnglesFillTheta | Simple-Optimal-Power-Flow-OPF-Solver/src/main/java/OptimalPowerFlowDC.java:107-111 | with nVar = NUM_BUSES - 1 optimiser angles (line 42) the slack bus has angle 0 and every other bus i has angle i - 1 of the optimiser, none left at the zero fill |
| PowerFlow.Case3Valid | Simple-Optimal-Power-Flow-OPF-Solver/src/main/java/OptimalPowerFlowDC.java:17-39 | the three-bus case is well formed: lines join existing buses with non-zero reactance, one cost pair per bus |
| PowerFlow.Theta | Simple-Optimal-Power-Flow-OPF-Solver/src/main/java/OptimalPowerFlowDC.java:107-111 | the bus angles: 0 at the slack bus, angle i at bus i + 1, 0 at buses beyond the given angles |
| PowerFlow.Injection | Simple-Optimal-Power-Flow-OPF-Solver/src/main/java/OptimalPowerFlowDC.java:113-125 | a bus that no line touches has zero injection |
| PowerFlow.Clip | Simple-Optimal-Power-Flow-OPF-Solver/src/main/java/OptimalPowerFlowDC.java:128-129 | clamping to [lo, hi]: inside the bounds when lo <= hi, unchanged inside them, lo below, hi above, and hi when the limits cross (min taken last) |
| PowerFlow.GeneratorOutput | Simple-Optimal-Power-Flow-OPF-Solver/src/main/java/OptimalPowerFlowDC.java:105-132 | one generator output per bus |
| PowerFlow.TotalCost | Simple-Optimal-Power-Flow-OPF-Solver/src/main/java/OptimalPowerFlowDC.java:96-103 | with pgMin <= pgMax and non-negative marginal costs at every bus, the objective lies between the cost of all generators at their minimum and at their maximum |
| PowerFlow.CostBounds | Simple-Optimal-Power-Flow-OPF-Solver/src/main/java/OptimalPowerFlowDC.java:96-103 | a dispatch within the generator limits costs between the all-minimum and the all-maximum dispatch |
| PowerFlow.CostSumMonotone | Simple-Optimal-Power-Flow-OPF-Solver/src/main/java/OptimalPowerFlowDC.java:99-101 | with non-negative marginal costs, raising outputs never lowers the summed cost |
| PowerFlow.LineFlow | Simple-Optimal-Power-Flow-OPF-Solver/src/main/java/OptimalPowerFlowDC.java:145 | a line's flow times its reactance is the angle difference across it |
| PowerFlow.BuildTheta | Simple-Optimal-Power-Flow-OPF-Solver/src/main/java/OptimalPowerFlowDC.java:106-111 | builds a fresh array holding Theta |
| PowerFlow.CalculateGeneratorOutput | Simple-Optimal-Power-Flow-OPF-Solver/src/main/java/OptimalPowerFlowDC.java:105-132 | the returned array is GeneratorOutput: demand plus net line outflow at every bus, clamped to its limits |
| PowerFlow.AccumulateInjection | Simple-Optimal-Power-Flow-OPF-Solver/src/main/java/OptimalPowerFlowDC.java:115-125 | the inner loop leaves the injection of bus i equal to the sum of every line term at i and changes no other bus |
| PowerFlow.CalculateTotalCost | Simple-Optimal-Power-Flow-OPF-Solver/src/main/java/OptimalPowerFlowDC.java:96-103 | the objective equals TotalCost: the sum over buses of a + b * pg for the dispatch of the given angles |
| PowerFlow.SumCosts | Simple-Optimal-Power-Flow-OPF-Solver/src/main/java/OptimalPowerFlowDC.java:99-101 | the cost loop returns the sum of a_i + b_i * pg_i over all buses |
| PowerFlow.CalculateLineFlows | Simple-Optimal-Power-Flow-OPF-Solver/src/main/java/OptimalPowerFlowDC.java:134-148 | one flow per line, (theta[from] - theta[to]) / x with the slack angle 0 |
| PowerFlow.DispatchWithinLimits | Simple-Optimal-Power-Flow-OPF-Solver/src/main/java/OptimalPowerFlowDC.java:126-129 | every bus output lies within [pgMin, pgMax] and equals demand plus injection when that is within them |
| PowerFlow.LineTotalClosedForm | Simple-Optimal-Power-Flow-OPF-Solver/src/main/java/OptimalPowerFlowDC.java:119-124 | summed over the buses, one line adds its flow at the from-bus and minus its flow at the to-bus |
| PowerFlow.LineConserves | Simple-Optimal-Power-Flow-OPF-Solver/src/main/java/OptimalPowerFlowDC.java:119-124 | what one line adds to all bus injections together is zero |
| PowerFlow.TotalInjectionEmpty | Simple-Optimal-Power-Flow-OPF-Solver/src/main/java/OptimalPowerFlowDC.java:113-125 | with no lines every injection sum is zero |
| PowerFlow.TotalInjectionSnoc | Simple-Optimal-Power-Flow-OPF-Solver/src/main/java/OptimalPowerFlowDC.java:115-125 | adding a line adds its own total to the sum of injections |
| PowerFlow.InjectionsSumToZero | Simple-Optimal-Power-Flow-OPF-Solver/src/main/java/OptimalPowerFlowDC.java:113-125 | lossless DC network: the bus injections sum to zero for any angles |
| PowerFlow.NetworkInjectionsSumToZero | Simple-Optimal-Power-Flow-OPF-Solver/src/main/java/OptimalPowerFlowDC.java:107-125 | the same for the angles built from the optimiser variables |
| PowerFlow.InjectionAtFlatAngles | Simple-Optimal-Power-Flow-OPF-Solver/src/main/java/OptimalPowerFlowDC.java:119-124 | with all angles equal, every bus injection is zero |
| PowerFlow.ZeroAnglesDispatchDemand | Simple-Optimal-Power-Flow-OPF-Solver/src/main/java/OptimalPowerFlowDC.java:105-132 | at zero angles every generator output is its demand clamped to its limits |
| PowerFlow.Case3CostAtInitialGuess | Simple-Optimal-Power-Flow-OPF-Solver/src/main/java/OptimalPowerFlowDC.java:35-49 | the objective at the initial guess (all angles 0) of the three-bus case is 537.5 |
| PowerFlow.FlowAntisymmetric | Simple-Optimal-Power-Flow-OPF-Solver/src/main/java/OptimalPowerFlowDC.java:145 | reversing a line negates its flow; equal end angles give zero flow |
| PowerFlow.LineTermIsFlow | Simple-Optimal-Power-Flow-OPF-Solver/src/main/java/OptimalPowerFlowDC.java:119-124 | the term a line adds at a bus is its flow at the from-bus, minus its flow at the to-bus, zero elsewhere |
| OvercurrentRelay.Characteristic | Overcurrent-Relay-Coordination-Analysis-Tool/src/main/java/OvercurrentRelayAnalysis.java:70-85 | the three known names map to (k, n) = (0.14, 0.02), (13.5, 1), (80, 2), in both directions; any other name has none |
| OvercurrentRelay.Power | Overcurrent-Relay-Coordination-Analysis-Tool/src/main/java/OvercurrentRelayAnalysis.java:87 | ratio^n for a ratio above 1 and n > 0 is above 1 |
| OvercurrentRelay.CalculateTrippingTime | Overcurrent-Relay-Coordination-Analysis-Tool/src/main/java/OvercurrentRelayAnalysis.java:61-88 | no trip (positive infinity) exactly when ratio = fault/pickup <= 1; otherwise NaN exactly for an unknown characteristic, and for a known one a time t with t * (ratio^n - 1) = tms * k |
| OvercurrentRelay.VeryInverseTime | Overcurrent-Relay-Coordination-Analysis-Tool/src/main/java/OvercurrentRelayAnalysis.java:75-87 | very inverse time is tms * 13.5 / (ratio - 1), positive when tms is |
| OvercurrentRelay.ExtremelyInverseTime | Overcurrent-Relay-Coordination-Analysis-Tool/src/main/java/OvercurrentRelayAnalysis.java:79-87 | extremely inverse time is tms * 80 / (ratio^2 - 1) |
| OvercurrentRelay.StandardInverseTime | Overcurrent-Relay-Coordination-Analysis-Tool/src/main/java/OvercurrentRelayAnalysis.java:71-87 | inverse time is tms * 0.14 / (ratio^0.02 - 1) |
| OvercurrentRelay.KnownCharacteristicTripsInPositiveTime | Overcurrent-Relay-Coordination-Analysis-Tool/src/main/java/OvercurrentRelayAnalysis.java:61-88 | above pickup with a positive multiplier a known characteristic trips in a finite positive time |
| OvercurrentRelay.InverseTimeForExactExponents | Overcurrent-Relay-Coordination-Analysis-Tool/src/main/java/OvercurrentRelayAnalysis.java:76-87 | very and extremely inverse relays trip strictly faster for a larger fault current |
| OvercurrentRelay.RatioOrder | Overcurrent-Relay-Coordination-Analysis-Tool/src/main/java/OvercurrentRelayAnalysis.java:62 | larger fault currents above pickup give larger ratios above 1 |
| OvercurrentRelay.TimesTable | Overcurrent-Relay-Coordination-Analysis-Tool/src/main/java/OvercurrentRelayAnalysis.java:90-98 | the table keys are the old keys plus exactly the relay ids |
| OvercurrentRelay.TableCoversRelays | Overcurrent-Relay-Coordination-Analysis-Tool/src/main/java/OvercurrentRelayAnalysis.java:90-98 | every relay id gets an entry keyed by exactly the faults |
| OvercurrentRelay.TableKeepsOthers | Overcurrent-Relay-Coordination-Analysis-Tool/src/main/java/OvercurrentRelayAnalysis.java:90-98 | an id of no listed relay keeps its old entry |
| OvercurrentRelay.TableComplete | Overcurrent-Relay-Coordination-Analysis-Tool/src/main/java/OvercurrentRelayAnalysis.java:90-98 | the table has an entry for every relay id, each entry keyed by exactly the faults, and other ids keep their old entry |
| OvercurrentRelay.TableEntries | Overcurrent-Relay-Coordination-Analysis-Tool/src/main/java/OvercurrentRelayAnalysis.java:90-98 | with distinct ids, a relay's entry holds its tripping time for every fault current |
| OvercurrentRelay.AnalyzeCoordination | Overcurrent-Relay-Coordination-Analysis-Tool/src/main/java/OvercurrentRelayAnalysis.java:148-172 | missing data iff either relay or the fault is absent; otherwise the two stored times, and acceptable iff both are finite and 0.2 < backup - primary < 0.5 |
| OvercurrentRelay.CoordinationWindowStrict | Overcurrent-Relay-Coordination-Analysis-Tool/src/main/java/OvercurrentRelayAnalysis.java:163 | an interval of exactly 0.2 s or 0.5 s is not acceptable |
| OvercurrentRelay.CurveGuard | Overcurrent-Relay-Coordination-Analysis-Tool/src/main/java/OvercurrentRelayAnalysis.java:108 | the loop condition current <= 10 * pickup holds exactly for the first 179 steps |
| OvercurrentRelay.CurveCurrentStep | Overcurrent-Relay-Coordination-Analysis-Tool/src/main/java/OvercurrentRelayAnalysis.java:108 | each loop step raises the current by 0.05 * pickup |
| OvercurrentRelay.CurvePoints | Overcurrent-Relay-Coordination-Analysis-Tool/src/main/java/OvercurrentRelayAnalysis.java:106-115 | the first k steps plot at most k points, each with a time below 100 s |
| OvercurrentRelay.CurvePointAt | Overcurrent-Relay-Coordination-Analysis-Tool/src/main/java/OvercurrentRelayAnalysis.java:109-111 | the point of step k is plotted at multiple 1.1 + 0.05 * k, with a time below 100 s that is the tripping time at that multiple |
| OvercurrentRelay.GenerateTcCurve | Overcurrent-Relay-Coordination-Analysis-Tool/src/main/java/OvercurrentRelayAnalysis.java:106-115 | the plotted series is CurvePoints over all 179 steps: the kept (multiple, time) pairs in order |
| OvercurrentRelay.TripTimeDependsOnRatio | Overcurrent-Relay-Coordination-Analysis-Tool/src/main/java/OvercurrentRelayAnalysis.java:62-87 | the tripping time depends on the currents only through their ratio |
| OvercurrentRelay.CurvePointsFiltered | Overcurrent-Relay-Coordination-Analysis-Tool/src/main/java/OvercurrentRelayAnalysis.java:109-111 | every plotted point has a finite time below 100 s and a multiple of pickup at least 1.1 |
| OvercurrentRelay.CurvePointKept | Overcurrent-Relay-Coordination-Analysis-Tool/src/main/java/OvercurrentRelayAnalysis.java:110-111 | every step whose time passes the filter appears in the series |
| OvercurrentRelay.UnknownCharacteristicEmptyCurve | Overcurrent-Relay-Coordination-Analysis-Tool/src/main/java/OvercurrentRelayAnalysis.java:106-115 | an unknown characteristic gives an empty curve (NaN is filtered) |
| OvercurrentRelay.RelayAnalysis.constructor | Overcurrent-Relay-Coordination-Analysis-Tool/src/main/java/OvercurrentRelayAnalysis.java:37-43 | loads the three relays and three faults and builds their tripping table |
| OvercurrentRelay.RelayAnalysis.LoadRelayData | Overcurrent-Relay-Coordination-Analysis-Tool/src/main/java/OvercurrentRelayAnalysis.java:49-53 | appends R1, R2, R3 with their pickups, multipliers and characteristics |
| OvercurrentRelay.RelayAnalysis.LoadFaultCurrents | Overcurrent-Relay-Coordination-Analysis-Tool/src/main/java/OvercurrentRelayAnalysis.java:55-59 | puts Fault_A 5.0, Fault_B 3.5, Fault_C 2.0 into the map |
| OvercurrentRelay.RelayAnalysis.CalculateTrippingTimes | Overcurrent-Relay-Coordination-Analysis-Tool/src/main/java/OvercurrentRelayAnalysis.java:90-98 | the table becomes TimesTable of the relays and faults (see TableComplete, TableEntries) |
| OvercurrentRelay.ExampleTable | Overcurrent-Relay-Coordination-Analysis-Tool/src/main/java/OvercurrentRelayAnalysis.java:90-98 | the loaded relays and faults give the table R1, R2, R3 each mapped to its times for the three faults |
| OvercurrentRelay.ExampleFaultATimes | Overcurrent-Relay-Coordination-Analysis-Tool/src/main/java/OvercurrentRelayAnalysis.java:90-98 | the table holds R1's inverse and R2's very inverse tripping times for Fault_A at 5.0 pu |
| OvercurrentRelay.ExampleCoordinationHasData | Overcurrent-Relay-Coordination-Analysis-Tool/src/main/java/OvercurrentRelayAnalysis.java:43 | the example analysis (R1, R2, Fault_A) finds both times, the backup one 16.2 / 19 s |
| DcMotorPid.SpeedRef | Simulation-of-a-PID-Controller-for-DC-Motor-Speed-Control/src/main/java/DCMotorPIDControl.java:53-61 | the reference is 50 rad/s before 1 s, 100 until 3 s, 75 after |
| DcMotorPid.SpeedRefProfile | Simulation-of-a-PID-Controller-for-DC-Motor-Speed-Control/src/main/java/DCMotorPIDControl.java:53-61 | the reference never decreases before 3 s, is constant from 3 s on, and stays within [50, 100] |
| DcMotorPid.ComputeDerivatives | Simulation-of-a-PID-Controller-for-DC-Motor-Speed-Control/src/main/java/DCMotorPIDControl.java:76-83 | the armature equation la * dia/dt = va - ia * ra - kb * omega and the mechanical equation J * domega/dt = kt * ia - b * omega - tl |
| DcMotorPid.EquilibriumCondition | Simulation-of-a-PID-Controller-for-DC-Motor-Speed-Control/src/main/java/DCMotorPIDControl.java:76-83 | the current is steady iff va = ia * ra + kb * omega; the speed is steady iff kt * ia = b * omega + tl |
| DcMotorPid.EulerStep | Simulation-of-a-PID-Controller-for-DC-Motor-Speed-Control/src/main/java/DCMotorPIDControl.java:117-120 | one Euler step of dt changes the current and speed by dt times the right-hand sides of the motor equations |
| DcMotorPid.EulerStepKeepsEquilibrium | Simulation-of-a-PID-Controller-for-DC-Motor-Speed-Control/src/main/java/DCMotorPIDControl.java:117-120 | an Euler step from an equilibrium of the motor equations stays there |
| DcMotorPid.Saturate | Simulation-of-a-PID-Controller-for-DC-Motor-Speed-Control/src/main/java/DCMotorPIDControl.java:114 | the applied voltage lies in [-12, 12], equals the signal inside it and the nearer limit outside |
| DcMotorPid.ControlSignal | Simulation-of-a-PID-Controller-for-DC-Motor-Speed-Control/src/main/java/DCMotorPIDControl.java:108-111 | the PID signal is kp * error + integral when the error did not change, and otherwise exceeds that by kd times the error change over dt |
| DcMotorPid.IntegralIsScaledSum | Simulation-of-a-PID-Controller-for-DC-Motor-Speed-Control/src/main/java/DCMotorPIDControl.java:109 | the integral term after a run of errors is its start plus ki * dt * the sum of the errors |
| DcMotorPid.Errors | Simulation-of-a-PID-Controller-for-DC-Motor-Speed-Control/src/main/java/DCMotorPIDControl.java:100-105 | error m is the reference logged at step m minus the speed before that step |
| DcMotorPid.ControlLogSnoc | Simulation-of-a-PID-Controller-for-DC-Motor-Speed-Control/src/main/java/DCMotorPIDControl.java:99-128 | one more loop iteration keeps the log consistent with the control law and the motor equations |
| DcMotorPid.ControlLoopStep | Simulation-of-a-PID-Controller-for-DC-Motor-Speed-Control/src/main/java/DCMotorPIDControl.java:99-128 | the effects of one iteration extend the control log and leave the controller state that of the extended error list |
| DcMotorPid.StepDecreases | Simulation-of-a-PID-Controller-for-DC-Motor-Speed-Control/src/main/java/DCMotorPIDControl.java:99-122 | the loop terminates: the steps left to tSim drop by one per iteration |
| DcMotorPid.LoggedTimes | Simulation-of-a-PID-Controller-for-DC-Motor-Speed-Control/src/main/java/DCMotorPIDControl.java:93-123 | the k-th logged time after the start is k * dt |
| DcMotorPid.StepCount | Simulation-of-a-PID-Controller-for-DC-Motor-Speed-Control/src/main/java/DCMotorPIDControl.java:99-122 | the run makes the least number n of steps with n * dt >= tSim |
| DcMotorPid.DefaultRunLength | Simulation-of-a-PID-Controller-for-DC-Motor-Speed-Control/src/main/java/DCMotorPIDControl.java:86-130 | with tSim 5 s and dt 1 ms the log holds 5001 samples |
| DcMotorPid.LoggedVoltageWithinLimits | Simulation-of-a-PID-Controller-for-DC-Motor-Speed-Control/src/main/java/DCMotorPIDControl.java:114-115 | every voltage logged by the loop lies within [-12, 12] |
| DcMotorPid.ErrorsTrackReference | Simulation-of-a-PID-Controller-for-DC-Motor-Speed-Control/src/main/java/DCMotorPIDControl.java:100-105 | step k's error is the reference at time k * dt minus the speed logged before it |
| DcMotorPid.DcMotorPidControl.constructor | Simulation-of-a-PID-Controller-for-DC-Motor-Speed-Control/src/main/java/DCMotorPIDControl.java:44-46 | runs the simulation once, from empty series and a zeroed controller |
| DcMotorPid.DcMotorPidControl.ControlStep | Simulation-of-a-PID-Controller-for-DC-Motor-Speed-Control/src/main/java/DCMotorPIDControl.java:100-128 | one iteration: reference logged, error, integral update, clamped PID voltage, Euler step, new time/current/speed logged, previous error kept |
| DcMotorPid.DcMotorPidControl.SimulateDcMotorControl | Simulation-of-a-PID-Controller-for-DC-Motor-Speed-Control/src/main/java/DCMotorPIDControl.java:86-130 | initial sample at rest, then steps until time >= tSim, every step following the control law and the motor equations, and the controller state matching the logged errors |
| BuckConverter.RunTime | Simulation-and-Analysis-of-a-Buck-Converter/src/main/java/BuckConverterSimulation.java:41-66 | sample k of the run is taken at time k * dt |
| BuckConverter.SwitchOn | Simulation-and-Analysis-of-a-Buck-Converter/src/main/java/BuckConverterSimulation.java:53 | for a positive period and time the switch is always on at duty 1 or more and always off at duty 0 or less |
| BuckConverter.InductorSlope | Simulation-and-Analysis-of-a-Buck-Converter/src/main/java/BuckConverterSimulation.java:53-59 | l * diL/dt is vin - vC with the switch on and -vC with the diode on |
| BuckConverter.CapacitorSlope | Simulation-and-Analysis-of-a-Buck-Converter/src/main/java/BuckConverterSimulation.java:61 | c * dvC/dt = iL - vC / r |
| BuckConverter.EulerStep | Simulation-and-Analysis-of-a-Buck-Converter/src/main/java/BuckConverterSimulation.java:61-66 | one step advances the time by dt and changes iL and vC by dt times their slopes at the step's switch state |
| BuckConverter.Run | Simulation-and-Analysis-of-a-Buck-Converter/src/main/java/BuckConverterSimulation.java:41-67 | sample k of the run is taken after k additions of dt |
| BuckConverter.RunLoggedSnoc | Simulation-and-Analysis-of-a-Buck-Converter/src/main/java/BuckConverterSimulation.java:45-67 | appending the Euler step from the last sample keeps the series equal to the run |
| BuckConverter.SwitchWithinPeriod | Simulation-and-Analysis-of-a-Buck-Converter/src/main/java/BuckConverterSimulation.java:53 | within a period the switch is on exactly for t < d * tSw |
| BuckConverter.SwitchPeriodic | Simulation-and-Analysis-of-a-Buck-Converter/src/main/java/BuckConverterSimulation.java:53 | the switch state repeats after one period |
| BuckConverter.SwitchRepeats | Simulation-and-Analysis-of-a-Buck-Converter/src/main/java/BuckConverterSimulation.java:53 | the switch state repeats after any whole number of periods |
| BuckConverter.InductorBalance | Simulation-and-Analysis-of-a-Buck-Converter/src/main/java/BuckConverterSimulation.java:53-59 | the inductor current is steady iff vC is vin (switch on) or 0 (diode on) |
| BuckConverter.CapacitorBalance | Simulation-and-Analysis-of-a-Buck-Converter/src/main/java/BuckConverterSimulation.java:61 | the capacitor voltage is steady iff iL = vC / r |
| BuckConverter.WindowAverage | Simulation-and-Analysis-of-a-Buck-Converter/src/main/java/BuckConverterSimulation.java:70-74 | the average times the window size numSteps - numSteps / 2 is the sum of vC over the second half |
| BuckConverter.SumRangeConstant | Simulation-and-Analysis-of-a-Buck-Converter/src/main/java/BuckConverterSimulation.java:70-73 | a window of equal values sums to its length times the value |
| BuckConverter.SumRangeBounds | Simulation-and-Analysis-of-a-Buck-Converter/src/main/java/BuckConverterSimulation.java:70-73 | a window of values within [lo, hi] sums to within count * lo and count * hi |
| BuckConverter.WindowSize | Simulation-and-Analysis-of-a-Buck-Converter/src/main/java/BuckConverterSimulation.java:71-74 | the averaging window numSteps - numSteps / 2 is never empty |
| BuckConverter.AverageOfConstant | Simulation-and-Analysis-of-a-Buck-Converter/src/main/java/BuckConverterSimulation.java:70-74 | a second half holding one value averages to it |
| BuckConverter.AverageBounded | Simulation-and-Analysis-of-a-Buck-Converter/src/main/java/BuckConverterSimulation.java:70-74 | the average lies within any bounds that hold over the second half |
| BuckConverter.AverageWindow | Simulation-and-Analysis-of-a-Buck-Converter/src/main/java/BuckConverterSimulation.java:70-74 | the loop returns the average of the values from numSteps / 2 to numSteps - 1 |
| BuckConverter.BuckConverterSimulation.constructor | Simulation-and-Analysis-of-a-Buck-Converter/src/main/java/BuckConverterSimulation.java:31-33 | runs the simulation once on empty series |
| BuckConverter.BuckConverterSimulation.SimulateBuckConverter | Simulation-and-Analysis-of-a-Buck-Converter/src/main/java/BuckConverterSimulation.java:40-77 | the series hold numSteps samples of the Euler run from rest; the average is that of the second half of vC; the ideal output is d * vin |
| BuckConverter.DefaultSampleCount | Simulation-and-Analysis-of-a-Buck-Converter/src/main/java/BuckConverterSimulation.java:23-25 | the default run has 10000 samples |
| SolarPv.ParseRow | Solar-PV-System-Performance-Analysis-and-Monitoring-Tool/src/main/java/SolarPVAnalysis.java:56-61 | a six-value row parses iff its timestamp and its five numbers do, and then each field holds the parse of its own column |
| SolarPv.EveryColumnParses | Solar-PV-System-Performance-Analysis-and-Monitoring-Tool/src/main/java/SolarPVAnalysis.java:57-61 | every quantity's column parses iff columns 1 to 5 all parse |
| SolarPv.ReadRows | Solar-PV-System-Performance-Analysis-and-Monitoring-Tool/src/main/java/SolarPVAnalysis.java:54-62 | a successful read has at most one reading per split line, and lines none of which has six values read as no readings |
| SolarPv.ReadCsv | Solar-PV-System-Performance-Analysis-and-Monitoring-Tool/src/main/java/SolarPVAnalysis.java:45-63 | a file of at most the header reads as no readings, and a successful read has fewer readings than lines |
| SolarPv.Accepted | Solar-PV-System-Performance-Analysis-and-Monitoring-Tool/src/main/java/SolarPVAnalysis.java:55 | the lines kept are at most all of them, each with six values |
| SolarPv.ReadRowsSucceeds | Solar-PV-System-Performance-Analysis-and-Monitoring-Tool/src/main/java/SolarPVAnalysis.java:54-62 | reading succeeds iff every six-value line parses |
| SolarPv.ReadRowsValues | Solar-PV-System-Performance-Analysis-and-Monitoring-Tool/src/main/java/SolarPVAnalysis.java:54-62 | on success there is one reading per six-value line, each the parse of that line |
| SolarPv.AcceptedSnoc | Solar-PV-System-Performance-Analysis-and-Monitoring-Tool/src/main/java/SolarPVAnalysis.java:55 | a further line is kept iff it has six values |
| SolarPv.ReadRowsFailurePersists | Solar-PV-System-Performance-Analysis-and-Monitoring-Tool/src/main/java/SolarPVAnalysis.java:54-62 | once a six-value line fails to parse, reading more lines still fails |
| SolarPv.ReadRowsSnoc | Solar-PV-System-Performance-Analysis-and-Monitoring-Tool/src/main/java/SolarPVAnalysis.java:54-62 | a further line is skipped without six values, fails the read if it does not parse, and appends its reading otherwise |
| SolarPv.HeaderNeverRead | Solar-PV-System-Performance-Analysis-and-Monitoring-Tool/src/main/java/SolarPVAnalysis.java:48-53 | the first line is skipped whatever it holds |
| SolarPv.ReadSplitPrefix | Solar-PV-System-Performance-Analysis-and-Monitoring-Tool/src/main/java/SolarPVAnalysis.java:49-54 | what the loop has split so far reads as the file up to the current line |
| SolarPv.LoadFailure | Solar-PV-System-Performance-Analysis-and-Monitoring-Tool/src/main/java/SolarPVAnalysis.java:55-61 | a six-value line that does not parse makes the whole read fail |
| SolarPv.FailureAt | Solar-PV-System-Performance-Analysis-and-Monitoring-Tool/src/main/java/SolarPVAnalysis.java:49-62 | a six-value data line that does not parse fails the whole read, while the lines before it read as the readings so far |
| SolarPv.JoinedRow | Solar-PV-System-Performance-Analysis-and-Monitoring-Tool/src/main/java/SolarPVAnalysis.java:54-55 | comma-free values joined by commas form a six-value row iff there are at least six, the sixth non-empty and any later ones empty; six such values with a non-empty last one split back into exactly those values |
| SolarPv.JoinHasComma | Solar-PV-System-Performance-Analysis-and-Monitoring-Tool/src/main/java/SolarPVAnalysis.java:54 | two or more values joined by commas contain a comma |
| SolarPv.DcPower | Solar-PV-System-Performance-Analysis-and-Monitoring-Tool/src/main/java/SolarPVAnalysis.java:70-74 | one power per voltage sample, positive exactly where voltage and current have the same strict sign |
| SolarPv.EfficiencyOf | Solar-PV-System-Performance-Analysis-and-Monitoring-Tool/src/main/java/SolarPVAnalysis.java:76-83 | under irradiance, efficiency / 100 * irradiance * area gives the DC power back; without irradiance the efficiency is 0 |
| SolarPv.PowerRecovered | Solar-PV-System-Performance-Analysis-and-Monitoring-Tool/src/main/java/SolarPVAnalysis.java:78-80 | undoing the per-area, per-irradiance and percent scalings gives the power back |
| SolarPv.EfficiencyPercent | Solar-PV-System-Performance-Analysis-and-Monitoring-Tool/src/main/java/SolarPVAnalysis.java:76-83 | under irradiance the efficiency is >= 0 iff the power is, and <= 100 iff the power is at most irradiance * area |
| SolarPv.Efficiency | Solar-PV-System-Performance-Analysis-and-Monitoring-Tool/src/main/java/SolarPVAnalysis.java:76-85 | one efficiency per power sample, giving its DC power back where there is irradiance and 0 elsewhere |
| SolarPv.SeriesGrow | Solar-PV-System-Performance-Analysis-and-Monitoring-Tool/src/main/java/SolarPVAnalysis.java:56-61 | appending a value to a series keeps what it held |
| SolarPv.SeriesExtend | Solar-PV-System-Performance-Analysis-and-Monitoring-Tool/src/main/java/SolarPVAnalysis.java:56-61 | appending the quantity of the next reading extends a series by that reading |
| SolarPv.TimesGrow | Solar-PV-System-Performance-Analysis-and-Monitoring-Tool/src/main/java/SolarPVAnalysis.java:56 | appending a timestamp keeps what the timestamps held |
| SolarPv.TimesExtend | Solar-PV-System-Performance-Analysis-and-Monitoring-Tool/src/main/java/SolarPVAnalysis.java:56 | appending the next reading's timestamp extends the timestamps by that reading |
| SolarPv.AppendRow | Solar-PV-System-Performance-Analysis-and-Monitoring-Tool/src/main/java/SolarPVAnalysis.java:55-61 | a six-value line that parses appends its six values to the six series; otherwise it reports failure, the series before the failing value holding one more value, the parse of their own column, and the first value not appended being the one that does not parse |
| SolarPv.ReadDataLine | Solar-PV-System-Performance-Analysis-and-Monitoring-Tool/src/main/java/SolarPVAnalysis.java:54-61 | one data line either extends the split lines, their readings and the series by its reading, or is a six-value line that fails to parse, making the whole read fail with the series partly filled |
| SolarPv.ReadSeries | Solar-PV-System-Performance-Analysis-and-Monitoring-Tool/src/main/java/SolarPVAnalysis.java:47-63 | the read loop succeeds iff the file reads, leaving the series equal to the readings; otherwise it returns the first failing line, with the series of the lines before it plus the values of that line parsed before its failing one |
| SolarPv.SolarPvAnalysis.constructor | Solar-PV-System-Performance-Analysis-and-Monitoring-Tool/src/main/java/SolarPVAnalysis.java:34-43 | loads the file and derives DC power and efficiency from the loaded series |
| SolarPv.SolarPvAnalysis.LoadDataFromCsv | Solar-PV-System-Performance-Analysis-and-Monitoring-Tool/src/main/java/SolarPVAnalysis.java:45-68 | the six series hold the readings of the file; a failing line leaves those of the lines before it plus that line's values parsed before the failing one |
| SolarPv.SolarPvAnalysis.CalculateDcPower | Solar-PV-System-Performance-Analysis-and-Monitoring-Tool/src/main/java/SolarPVAnalysis.java:70-74 | appends voltage * current for every voltage sample and changes no other field |
| SolarPv.SolarPvAnalysis.CalculateEfficiency | Solar-PV-System-Performance-Analysis-and-Monitoring-Tool/src/main/java/SolarPVAnalysis.java:76-85 | appends the efficiency of every DC power sample under its irradiance and changes no other field |
| SolarPv.DcPowerSnoc | Solar-PV-System-Performance-Analysis-and-Monitoring-Tool/src/main/java/SolarPVAnalysis.java:71-73 | one more sample appends its voltage * current |
| SolarPv.EfficiencySnoc | Solar-PV-System-Performance-Analysis-and-Monitoring-Tool/src/main/java/SolarPVAnalysis.java:77-84 | one more sample appends its efficiency |

## Left out

- The BOBYQA optimiser and its bounds (`OptimalPowerFlowDC.java:43-67`) are a library search. They are not modelled. Only the objective it minimises, the dispatch and the line flows are.
- All console output, the JFreeChart plots, the Swing frames and the `main` methods are left out.
- `createTCPlot` only hands each relay's curve to the chart; the curve itself is `GenerateTcCurve`.
- `SolarPowerPrediction.java` and the other files of the repository are not part of this model.
- `EulerIntegrator.integrate` over one step of `dt` is modelled as one explicit Euler step. The integrator's internal step handling is not modelled.
- Floating-point rounding is not modelled; doubles are exact reals. This shows in two places:
  - the accumulated `currentTime += dt` and `currentPu += 0.05 * pickup`;
  - the efficiency divisions.

  The buck `(int)(tSim / dt)` is not affected: 0.01 / 1e-6 rounds to exactly 10000.0 in doubles, so DefaultSampleCount's 10000 is also the Java value.
- BuckConverter.SwitchOn: the switch test `time % tSw < d * tSw` (`BuckConverterSimulation.java:53`) is decided on exact sample times k * dt. In Java the time is a double summed one `dt` at a time (`BuckConverterSimulation.java:66`), so it drifts slightly from k * dt. With the default 1 µs step, 10 µs period and duty 0.4, every sample whose exact time lies on a switching edge (k mod 10 is 0 or 4) can fall on the other side of the comparison. Of these 2000 edge samples of the default run, the program switches opposite to the model at every one whose rounded sum lands on the other side of the edge; the first candidate is k = 4, where the exact time equals d * tSw and the model has the switch off. The model's switch state is the exact-time one, which is the one the duty cycle describes.
- DcMotorPid.DefaultRunLength: the 5001 samples hold for exact arithmetic. With double accumulation the count can differ by one in general.
- OvercurrentRelay.CurveGuard: 179 curve steps is the count for exact arithmetic. Rounding in the accumulated current can move the last step.
- OvercurrentRelay.GenerateTcCurve: requires a non-zero pickup current. With pickup 0 the Java loop (`OvercurrentRelayAnalysis.java:107-108`) starts at 0, compares `0 <= 0` and adds 0 each step, so it never terminates; the model has no non-terminating curve.
- OvercurrentRelay.CalculateTrippingTime: requires a non-zero pickup current. The Java division by a zero pickup, which gives an infinite or NaN ratio, is not modelled, and every relay the program loads has a non-zero pickup.
- `Math.pow` is only modelled through its one needed property. OvercurrentRelay.InverseTimeForExactExponents is therefore proved for the very and extremely inverse curves only (exponents 1 and 2), not for the 0.02 exponent of the standard inverse curve.
- The relay tripping table in Java is a `HashMap`, whose iteration order is unspecified. CalculateTrippingTimes picks the faults in an arbitrary order, and its result does not depend on that order.
- The file I/O is not modelled:
  - opening and reading the file;
  - the caught `IOException`. An error at open leaves the series empty. An error part-way through `readLine` (`SolarPVAnalysis.java:49-66`) keeps the rows appended before it; the model has no such mid-file stop, but it is the same as reading the lines before the error;
  - `LocalDateTime.parse` with the pattern `yyyy-MM-dd HH:mm:ss`, which is the parameter `parseTime`.
  The lines are a parameter, and a missing file is the same as an empty line sequence.
- SolarPv.SolarPvAnalysis.constructor requires every six-value line to parse. In Java a parse failure is an unchecked exception that escapes the constructor. LoadDataFromCsv reports that line and the partly filled series instead.
- SolarPv.SolarPvAnalysis.LoadDataFromCsv runs the read loop on sequence values (ReadSeries) and then assigns the six fields. It does not append to the fields one by one, in place.
- Every simulation (`SimulateDcMotorControl`, `SimulateBuckConverter`) and every loader is modelled as called once, from the constructor, on empty series. That is how the programs use them.
