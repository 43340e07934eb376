/** Bounded histories of a running simulation and the analyses over them:
    energy aggregates, the energy-conservation measure, periodicity
    detection and the Lyapunov-exponent estimate. */
module Statistics {
  import opened Numerics
  import opened Wrappers

  /** One energy sample: total, kinetic and potential energy. */
  datatype EnergySample = EnergySample(total: real, kinetic: real, potential: real)

  /** One trajectory sample: the Cartesian positions of both bobs. */
  datatype TrajectoryPoint = TrajectoryPoint(x1: real, y1: real, x2: real, y2: real)

  /** One phase-space sample, in the order θ1, ω1, θ2, ω2. */
  datatype PhasePoint = PhasePoint(theta1: real, omega1: real, theta2: real, omega2: real)

  /** Three histories sharing one capacity. */
  datatype PhysicsStatistics = PhysicsStatistics(
    energyHistory: seq<EnergySample>,
    trajectoryHistory: seq<TrajectoryPoint>,
    phaseSpaceHistory: seq<PhasePoint>,
    maxHistoryLength: nat)

  /** The capacity `Default` uses. */
  const DEFAULT_HISTORY_LENGTH: nat := 2000

  /** Every history respects the capacity. `New` establishes this and every
      operation keeps it. */
  predicate Bounded(st: PhysicsStatistics) {
    && |st.energyHistory| <= st.maxHistoryLength
    && |st.trajectoryHistory| <= st.maxHistoryLength
    && |st.phaseSpaceHistory| <= st.maxHistoryLength
  }

  // ---------------------------------------------------------------------
  // Bounded buffers

  /** Appends x, then drops the oldest sample if the buffer now exceeds its
      capacity. The result is a suffix of the buffer extended by x, so the
      samples stay in chronological order with x newest. */
  function Push<T>(buf: seq<T>, x: T, cap: nat): (r: seq<T>)
    ensures |r| == if |buf| + 1 > cap then |buf| else |buf| + 1
    ensures r == (buf + [x])[|buf| + 1 - |r|..]
    ensures |buf| <= cap ==> |r| == MinNat(|buf| + 1, cap)
    ensures 0 < |r| ==> r[|r| - 1] == x
  {
    var pushed := buf + [x];
    if |pushed| > cap then pushed[1..] else pushed
  }

  /** Pushes the samples of xs one after the other. */
  function PushAll<T>(buf: seq<T>, xs: seq<T>, cap: nat): seq<T>
    decreases |xs|
  {
    if |xs| == 0 then buf else PushAll(Push(buf, xs[0], cap), xs[1..], cap)
  }

  /** The newest `cap` elements of xs, or all of them if there are fewer. */
  function Newest<T>(xs: seq<T>, cap: nat): seq<T> {
    xs[|xs| - MinNat(|xs|, cap)..]
  }

  /** Starting from a buffer within capacity, pushing any sequence of
      samples keeps exactly the newest `cap` of all samples seen. */
  lemma {:induction false} PushAllKeepsNewest<T>(buf: seq<T>, xs: seq<T>, cap: nat)
    requires |buf| <= cap
    ensures PushAll(buf, xs, cap) == Newest(buf + xs, cap)
    decreases |xs|
  {
    hide Newest;
    if |xs| == 0 {
      assert buf + xs == buf;
      NewestOfShort(buf, cap);
    } else {
      var a := buf + [xs[0]];
      var next := Push(buf, xs[0], cap);
      var k := |a| - |next|;
      assert next == a[k..];
      PushAllKeepsNewest(next, xs[1..], cap);
      SuffixOfSuffix(a, xs[1..], k, cap);
      assert a + xs[1..] == buf + xs;
    }
  }

  lemma NewestOfShort<T>(xs: seq<T>, cap: nat)
    requires |xs| <= cap
    ensures Newest(xs, cap) == xs
  {
  }

  /** Taking the newest samples of a suffix of a sequence, when the suffix
      holds at least as many as are kept, is taking them of the sequence. */
  lemma SuffixOfSuffix<T>(a: seq<T>, b: seq<T>, k: nat, cap: nat)
    requires k <= |a| && |a| - k <= cap && (k == 0 || |a| - k == cap)
    ensures Newest(a[k..] + b, cap) == Newest(a + b, cap)
  {
    var n := |a + b| - MinNat(|a + b|, cap);
    var n' := |a[k..] + b| - MinNat(|a[k..] + b|, cap);
    assert n == n' + k;
    assert (a[k..] + b) == (a + b)[k..];
  }

  // ---------------------------------------------------------------------
  // Recording and clearing

  function New(maxHistoryLength: nat): (st: PhysicsStatistics)
    ensures st.maxHistoryLength == maxHistoryLength && Bounded(st)
    ensures st.energyHistory == [] && st.trajectoryHistory == [] && st.phaseSpaceHistory == []
    ensures !HasData(st)
  {
    PhysicsStatistics([], [], [], maxHistoryLength)
  }

  function Default(): (st: PhysicsStatistics)
    ensures st == New(DEFAULT_HISTORY_LENGTH)
  {
    New(2000)
  }

  /** Records an energy sample; only the energy history changes. */
  function AddEnergyData(st: PhysicsStatistics, total: real, kinetic: real, potential: real): (r: PhysicsStatistics)
    ensures r.energyHistory == Push(st.energyHistory, EnergySample(total, kinetic, potential), st.maxHistoryLength)
    ensures r.trajectoryHistory == st.trajectoryHistory && r.phaseSpaceHistory == st.phaseSpaceHistory
    ensures r.maxHistoryLength == st.maxHistoryLength
    ensures Bounded(st) ==> Bounded(r)
  {
    st.(energyHistory := Push(st.energyHistory, EnergySample(total, kinetic, potential), st.maxHistoryLength))
  }

  /** Records a trajectory sample; only the trajectory history changes. */
  function AddTrajectoryPoint(st: PhysicsStatistics, x1: real, y1: real, x2: real, y2: real): (r: PhysicsStatistics)
    ensures r.trajectoryHistory == Push(st.trajectoryHistory, TrajectoryPoint(x1, y1, x2, y2), st.maxHistoryLength)
    ensures r.energyHistory == st.energyHistory && r.phaseSpaceHistory == st.phaseSpaceHistory
    ensures r.maxHistoryLength == st.maxHistoryLength
    ensures Bounded(st) ==> Bounded(r)
  {
    st.(trajectoryHistory := Push(st.trajectoryHistory, TrajectoryPoint(x1, y1, x2, y2), st.maxHistoryLength))
  }

  /** Records a phase-space sample; only the phase-space history changes. */
  function AddPhaseSpacePoint(st: PhysicsStatistics, theta1: real, omega1: real, theta2: real, omega2: real): (r: PhysicsStatistics)
    ensures r.phaseSpaceHistory == Push(st.phaseSpaceHistory, PhasePoint(theta1, omega1, theta2, omega2), st.maxHistoryLength)
    ensures r.energyHistory == st.energyHistory && r.trajectoryHistory == st.trajectoryHistory
    ensures r.maxHistoryLength == st.maxHistoryLength
    ensures Bounded(st) ==> Bounded(r)
  {
    st.(phaseSpaceHistory := Push(st.phaseSpaceHistory, PhasePoint(theta1, omega1, theta2, omega2), st.maxHistoryLength))
  }

  /** Empties all three histories and keeps the capacity. */
  function ClearHistory(st: PhysicsStatistics): (r: PhysicsStatistics)
    ensures r == New(st.maxHistoryLength)
    ensures !HasData(r)
  {
    st.(energyHistory := [], trajectoryHistory := [], phaseSpaceHistory := [])
  }

  /** The number of energy samples kept, which a record within capacity
      keeps at most at the capacity. */
  function HistoryLength(st: PhysicsStatistics): (r: nat)
    ensures r == 0 <==> st.energyHistory == []
    ensures Bounded(st) ==> r <= st.maxHistoryLength
  {
    |st.energyHistory|
  }

  /** There is data exactly when an energy sample has been kept, that is,
      when the history length is positive. */
  predicate HasData(st: PhysicsStatistics)
    ensures HasData(st) <==> 0 < HistoryLength(st)
  {
    |st.energyHistory| != 0
  }

  /** Recording an energy sample grows the history length by one until it
      reaches the capacity, after which it stays there; there is data
      afterwards exactly when the capacity is positive. */
  lemma RecordingEnergyGrowsHistory(st: PhysicsStatistics, total: real, kinetic: real, potential: real)
    requires Bounded(st)
    ensures HasData(st) <==> 0 < HistoryLength(st)
    ensures HistoryLength(AddEnergyData(st, total, kinetic, potential)) == MinNat(HistoryLength(st) + 1, st.maxHistoryLength)
    ensures HasData(AddEnergyData(st, total, kinetic, potential)) <==> 0 < st.maxHistoryLength
  {
  }

  // ---------------------------------------------------------------------
  // Energy aggregates

  /** The total energies of the samples, in order. */
  function Totals(h: seq<EnergySample>): (r: seq<real>)
    ensures |r| == |h|
    ensures forall i :: 0 <= i < |h| ==> r[i] == h[i].total
  {
    seq(|h|, i requires 0 <= i < |h| => h[i].total)
  }

  /** With a positive capacity, the current energies after recording a
      sample are that sample's. */
  lemma RecordingSetsCurrentEnergy(st: PhysicsStatistics, total: real, kinetic: real, potential: real)
    requires 0 < st.maxHistoryLength
    ensures CurrentTotalEnergy(AddEnergyData(st, total, kinetic, potential)) == Some(total)
    ensures CurrentKineticEnergy(AddEnergyData(st, total, kinetic, potential)) == Some(kinetic)
    ensures CurrentPotentialEnergy(AddEnergyData(st, total, kinetic, potential)) == Some(potential)
  {
    var r := AddEnergyData(st, total, kinetic, potential);
    assert 0 < |r.energyHistory|;
  }

  function CurrentTotalEnergy(st: PhysicsStatistics): (r: Option<real>)
    ensures r.None? <==> !HasData(st)
    ensures r.Some? ==> r.value == st.energyHistory[|st.energyHistory| - 1].total
  {
    if |st.energyHistory| == 0 then None else Some(st.energyHistory[|st.energyHistory| - 1].total)
  }

  function CurrentKineticEnergy(st: PhysicsStatistics): (r: Option<real>)
    ensures r.None? <==> !HasData(st)
    ensures r.Some? ==> r.value == st.energyHistory[|st.energyHistory| - 1].kinetic
  {
    if |st.energyHistory| == 0 then None else Some(st.energyHistory[|st.energyHistory| - 1].kinetic)
  }

  function CurrentPotentialEnergy(st: PhysicsStatistics): (r: Option<real>)
    ensures r.None? <==> !HasData(st)
    ensures r.Some? ==> r.value == st.energyHistory[|st.energyHistory| - 1].potential
  {
    if |st.energyHistory| == 0 then None else Some(st.energyHistory[|st.energyHistory| - 1].potential)
  }

  /** The fold `acc.map_or(x, |y| x.max(y))` from `None` over xs. */
  function FoldMax(acc: Option<real>, xs: seq<real>): (r: Option<real>)
    ensures r.None? <==> acc.None? && |xs| == 0
    ensures r.Some? ==> (acc.Some? && r.value == acc.value) || r.value in xs
    ensures r.Some? ==> (acc.Some? ==> acc.value <= r.value) && forall x :: x in xs ==> x <= r.value
    decreases |xs|
  {
    if |xs| == 0 then acc
    else
      var r := FoldMax(Some(match acc case None => xs[0] case Some(y) => Max(xs[0], y)), xs[1..]);
      assert forall x :: x in xs ==> x == xs[0] || x in xs[1..];
      r
  }

  /** The fold `acc.map_or(x, |y| x.min(y))` from `None` over xs. */
  function FoldMin(acc: Option<real>, xs: seq<real>): (r: Option<real>)
    ensures r.None? <==> acc.None? && |xs| == 0
    ensures r.Some? ==> (acc.Some? && r.value == acc.value) || r.value in xs
    ensures r.Some? ==> (acc.Some? ==> r.value <= acc.value) && forall x :: x in xs ==> r.value <= x
    decreases |xs|
  {
    if |xs| == 0 then acc
    else
      var r := FoldMin(Some(match acc case None => xs[0] case Some(y) => Min(xs[0], y)), xs[1..]);
      assert forall x :: x in xs ==> x == xs[0] || x in xs[1..];
      r
  }

  /** The largest total energy: a recorded total no smaller than any other,
      or `None` without data. */
  function MaxTotalEnergy(st: PhysicsStatistics): (r: Option<real>)
    ensures r.None? <==> !HasData(st)
    ensures r.Some? ==> r.value in Totals(st.energyHistory)
    ensures r.Some? ==> forall i :: 0 <= i < |st.energyHistory| ==> st.energyHistory[i].total <= r.value
  {
    var totals := Totals(st.energyHistory);
    var r := FoldMax(None, totals);
    assert forall i :: 0 <= i < |totals| ==> totals[i] in totals;
    r
  }

  /** The smallest total energy: a recorded total no larger than any other,
      or `None` without data. */
  function MinTotalEnergy(st: PhysicsStatistics): (r: Option<real>)
    ensures r.None? <==> !HasData(st)
    ensures r.Some? ==> r.value in Totals(st.energyHistory)
    ensures r.Some? ==> forall i :: 0 <= i < |st.energyHistory| ==> r.value <= st.energyHistory[i].total
  {
    var totals := Totals(st.energyHistory);
    var r := FoldMin(None, totals);
    assert forall i :: 0 <= i < |totals| ==> totals[i] in totals;
    r
  }

  /** The mean total energy, or `None` without data. */
  function AverageTotalEnergy(st: PhysicsStatistics): (r: Option<real>)
    ensures r.None? <==> !HasData(st)
    ensures r.Some? ==> r.value * |st.energyHistory| as real == Sum(Totals(st.energyHistory))
  {
    if |st.energyHistory| == 0 then None
    else Some(Sum(Totals(st.energyHistory)) / |st.energyHistory| as real)
  }

  /** The average lies between the smallest and the largest total. */
  lemma AverageBetweenMinAndMax(st: PhysicsStatistics)
    requires HasData(st)
    ensures MinTotalEnergy(st).value <= AverageTotalEnergy(st).value <= MaxTotalEnergy(st).value
  {
    var totals := Totals(st.energyHistory);
    MeanBetween(totals, MinTotalEnergy(st).value, MaxTotalEnergy(st).value);
  }

  // ---------------------------------------------------------------------
  // Energy conservation

  /** The squared deviations of xs from c. */
  function SquaredDeviations(xs: seq<real>, c: real): (r: seq<real>)
    ensures |r| == |xs|
    ensures forall k :: 0 <= k < |xs| ==> r[k] == (xs[k] - c) * (xs[k] - c)
  {
    seq(|xs|, k requires 0 <= k < |xs| => (xs[k] - c) * (xs[k] - c))
  }

  /** The population variance of xs: the mean squared deviation from the
      mean. */
  function Variance(xs: seq<real>): real
    requires 0 < |xs|
  {
    Mean(SquaredDeviations(xs, Mean(xs)))
  }

  /** The standard deviation of the total energies, or `None` with fewer
      than two samples. */
  function EnergyConservation(st: PhysicsStatistics, m: Fns): (r: Option<real>)
    ensures r.None? <==> |st.energyHistory| < 2
  {
    if |st.energyHistory| < 2 then None
    else Some(m.sqrt(Variance(Totals(st.energyHistory))))
  }

  /** The measure is never negative, and it is zero exactly when every
      recorded total energy is the same. */
  lemma EnergyConservationZeroIffConstant(st: PhysicsStatistics, m: Fns)
    requires SqrtLaws(m) && 2 <= |st.energyHistory|
    ensures 0.0 <= EnergyConservation(st, m).value
    ensures EnergyConservation(st, m).value == 0.0
            <==> forall i :: 0 <= i < |st.energyHistory| ==> st.energyHistory[i].total == st.energyHistory[0].total
  {
    var totals := Totals(st.energyHistory);
    VarianceNonNegative(totals);
    VarianceZeroIffConstant(totals);
    hide Variance;
    var v := Variance(totals);
    assert EnergyConservation(st, m).value == m.sqrt(v);
    if 0.0 < v {
      assert m.sqrt(0.0) < m.sqrt(v);
    }
  }

  /** A variance is a mean of squares, so it is never negative. */
  lemma VarianceNonNegative(xs: seq<real>)
    requires 0 < |xs|
    ensures 0.0 <= Variance(xs)
  {
    var devs := SquaredDeviations(xs, Mean(xs));
    forall k | 0 <= k < |devs| {
      Square(xs[k] - Mean(xs));
    }
    SumNonNegative(devs);
    assert Mean(devs) == Sum(devs) / |devs| as real;
  }

  /** The variance is zero exactly when every term equals the first. */
  lemma VarianceZeroIffConstant(xs: seq<real>)
    requires 0 < |xs|
    ensures Variance(xs) == 0.0 <==> forall i :: 0 <= i < |xs| ==> xs[i] == xs[0]
  {
    if forall i :: 0 <= i < |xs| ==> xs[i] == xs[0] {
      ConstantVariance(xs);
    }
    if Variance(xs) == 0.0 {
      ZeroVarianceConstant(xs);
    }
  }

  lemma ConstantVariance(xs: seq<real>)
    requires 0 < |xs|
    requires forall i :: 0 <= i < |xs| ==> xs[i] == xs[0]
    ensures Variance(xs) == 0.0
  {
    SumConstant(xs, xs[0]);
    DivideBounds(Sum(xs), |xs| as real, xs[0], xs[0]);
    var devs := SquaredDeviations(xs, Mean(xs));
    SumConstant(devs, 0.0);
  }

  lemma ZeroVarianceConstant(xs: seq<real>)
    requires 0 < |xs|
    requires Variance(xs) == 0.0
    ensures forall i :: 0 <= i < |xs| ==> xs[i] == xs[0]
  {
    var mean := Mean(xs);
    var devs := SquaredDeviations(xs, mean);
    forall k | 0 <= k < |devs| {
      Square(xs[k] - mean);
    }
    assert Sum(devs) == 0.0;
    SumNonNegativeZero(devs);
    forall i | 0 <= i < |xs|
      ensures xs[i] == xs[0]
    {
      ZeroSquare(xs[i] - mean);
      ZeroSquare(xs[0] - mean);
    }
  }

  /** Only zero squares to zero. */
  lemma ZeroSquare(x: real)
    ensures x != 0.0 ==> 0.0 < x * x
  {
    if x < 0.0 {
      var y := -x;
      PositiveProduct(y, y);
      assert y * y == x * x;
    } else if 0.0 < x {
      PositiveProduct(x, x);
    }
  }

  // ---------------------------------------------------------------------
  // Distances in phase space

  /** The squared Euclidean distance between two phase-space samples. */
  function SquaredDistance(a: PhasePoint, b: PhasePoint): real {
    (a.theta1 - b.theta1) * (a.theta1 - b.theta1)
      + (a.omega1 - b.omega1) * (a.omega1 - b.omega1)
      + (a.theta2 - b.theta2) * (a.theta2 - b.theta2)
      + (a.omega2 - b.omega2) * (a.omega2 - b.omega2)
  }

  /** The Euclidean distance between two phase-space samples. */
  function Distance(a: PhasePoint, b: PhasePoint, m: Fns): real {
    m.sqrt(SquaredDistance(a, b))
  }

  /** Distances are non-negative, and a sample is at distance zero from
      itself. */
  lemma DistanceLaws(a: PhasePoint, b: PhasePoint, m: Fns)
    requires SqrtLaws(m)
    ensures 0.0 <= Distance(a, b, m)
    ensures a == b ==> Distance(a, b, m) == 0.0
  {
    Square(a.theta1 - b.theta1);
    Square(a.omega1 - b.omega1);
    Square(a.theta2 - b.theta2);
    Square(a.omega2 - b.omega2);
  }

  // ---------------------------------------------------------------------
  // Periodicity detection

  /** How many pairs a candidate period may compare: one per whole period
      in the history, at most ten. */
  function CheckPoints(len: nat, period: nat): nat
    requires 1 <= period
  {
    MinNat(len / period, 10)
  }

  /** (i + 1) * p, written out so that the offsets stay linear in i * p. */
  lemma MulSucc(i: nat, p: nat)
    ensures (i + 1) * p == i * p + p
  {
  }

  lemma MulMonotone(i: nat, j: nat, p: nat)
    requires i <= j
    ensures i * p <= j * p
  {
  }

  /** Pair j of candidate period p: the sample j periods back from the
      newest one, and the sample one period before it, lie within the
      tolerance of each other. */
  predicate PairWithin(h: seq<PhasePoint>, tol: real, p: nat, j: nat, m: Fns) {
    && j * p + p < |h|
    && Distance(h[|h| - 1 - j * p], h[|h| - 1 - j * p - p], m) <= tol
  }

  /** Pair j is compared only while the earlier sample of the pair is at
      least one period from the start of the history. */
  predicate Compared(h: seq<PhasePoint>, p: nat, j: nat)
    requires 1 <= p
  {
    j < CheckPoints(|h|, p) && j * p + 2 * p < |h|
  }

  /** A candidate period is accepted when every compared pair is within the
      tolerance. */
  predicate PeriodMatches(h: seq<PhasePoint>, tol: real, p: nat, m: Fns)
    requires 1 <= p
  {
    forall j :: 0 <= j < CheckPoints(|h|, p) && Compared(h, p, j) ==> PairWithin(h, tol, p, j, m)
  }

  /** The inner loop of `detect_periodicity`, from pair i on: it stops
      successfully at the first pair whose earlier index falls below one
      period, and fails at the first pair farther apart than the
      tolerance. */
  function ComparePairs(h: seq<PhasePoint>, tol: real, p: nat, i: nat, m: Fns): bool
    requires 1 <= p
    requires i < CheckPoints(|h|, p) ==> i * p + p < |h|
    decreases CheckPoints(|h|, p) - i
  {
    if i >= CheckPoints(|h|, p) then true
    else
      var idx1 := USub(USub(|h|, 1), i * p);
      MulSucc(i, p);
      var idx2 := USub(USub(|h|, 1), (i + 1) * p);
      if idx2 < p then true
      else if Distance(h[idx1], h[idx2], m) > tol then false
      else ComparePairs(h, tol, p, i + 1, m)
  }

  /** The inner loop accepts from pair i on exactly when every compared
      pair from i on is within the tolerance. */
  lemma {:induction false} ComparePairsFrom(h: seq<PhasePoint>, tol: real, p: nat, i: nat, m: Fns)
    requires 1 <= p
    requires i < CheckPoints(|h|, p) ==> i * p + p < |h|
    ensures ComparePairs(h, tol, p, i, m) <==> forall j :: i <= j && Compared(h, p, j) ==> PairWithin(h, tol, p, j, m)
    decreases CheckPoints(|h|, p) - i
  {
    if i < CheckPoints(|h|, p) {
      MulSucc(i, p);
      if i * p + 2 * p >= |h| {
        forall j | i <= j
          ensures !Compared(h, p, j)
        {
          MulMonotone(i, j, p);
        }
      } else if !PairWithin(h, tol, p, i, m) {
        assert Compared(h, p, i);
      } else {
        ComparePairsFrom(h, tol, p, i + 1, m);
      }
    }
  }

  /** The outer loop of `detect_periodicity`: the candidate periods from
      `period` up to, but excluding, half the history length. */
  function ScanPeriods(h: seq<PhasePoint>, tol: real, period: nat, m: Fns): Option<nat>
    requires 1 <= period || |h| / 2 <= period
    decreases |h| / 2 - period
  {
    if period >= |h| / 2 then None
    else if ComparePairs(h, tol, period, 0, m) then Some(period)
    else ScanPeriods(h, tol, period + 1, m)
  }

  /** The scan returns the smallest matching candidate, and `None` only when
      no candidate matches. */
  lemma {:induction false} ScanFindsFirstMatch(h: seq<PhasePoint>, tol: real, period: nat, m: Fns)
    requires 1 <= period || |h| / 2 <= period
    ensures ScanPeriods(h, tol, period, m).Some? ==>
              && period <= ScanPeriods(h, tol, period, m).value < |h| / 2
              && PeriodMatches(h, tol, ScanPeriods(h, tol, period, m).value, m)
              && forall q :: period <= q < ScanPeriods(h, tol, period, m).value ==> !PeriodMatches(h, tol, q, m)
    ensures ScanPeriods(h, tol, period, m).None? ==>
              forall q :: period <= q < |h| / 2 ==> !PeriodMatches(h, tol, q, m)
    decreases |h| / 2 - period
  {
    if period < |h| / 2 {
      ComparePairsFrom(h, tol, period, 0, m);
      if !ComparePairs(h, tol, period, 0, m) {
        ScanFindsFirstMatch(h, tol, period + 1, m);
      }
    }
  }

  /** The smallest period from `minPeriod` on at which the phase-space
      trajectory returns within the tolerance, or `None`. */
  function DetectPeriodicity(st: PhysicsStatistics, tol: real, minPeriod: nat, m: Fns): (r: Option<nat>)
    requires 1 <= minPeriod || |st.phaseSpaceHistory| < 2
    ensures |st.phaseSpaceHistory| < minPeriod * 2 ==> r.None?
  {
    var h := st.phaseSpaceHistory;
    if |h| < minPeriod * 2 then None
    else ScanPeriods(h, tol, minPeriod, m)
  }

  /** What a detected period means: it is the smallest candidate whose
      compared pairs all lie within the tolerance, and at least the newest
      pair was compared. `None` means that no candidate matched. */
  lemma DetectPeriodicitySound(st: PhysicsStatistics, tol: real, minPeriod: nat, m: Fns)
    requires 1 <= minPeriod || |st.phaseSpaceHistory| < 2
    ensures DetectPeriodicity(st, tol, minPeriod, m).Some? ==>
              && minPeriod <= DetectPeriodicity(st, tol, minPeriod, m).value < |st.phaseSpaceHistory| / 2
              && PeriodMatches(st.phaseSpaceHistory, tol, DetectPeriodicity(st, tol, minPeriod, m).value, m)
              && PairWithin(st.phaseSpaceHistory, tol, DetectPeriodicity(st, tol, minPeriod, m).value, 0, m)
              && forall q :: minPeriod <= q < DetectPeriodicity(st, tol, minPeriod, m).value ==>
                   !PeriodMatches(st.phaseSpaceHistory, tol, q, m)
    ensures DetectPeriodicity(st, tol, minPeriod, m).None? ==>
              forall q :: minPeriod <= q < |st.phaseSpaceHistory| / 2 ==> !PeriodMatches(st.phaseSpaceHistory, tol, q, m)
  {
    var h := st.phaseSpaceHistory;
    if |h| >= minPeriod * 2 {
      ScanFindsFirstMatch(h, tol, minPeriod, m);
      var r := DetectPeriodicity(st, tol, minPeriod, m);
      if r.Some? {
        NewestPairCompared(h, r.value);
      }
    }
  }

  /** Every candidate below half the history length compares at least its
      newest pair. */
  lemma NewestPairCompared(h: seq<PhasePoint>, p: nat)
    requires 1 <= p < |h| / 2
    ensures Compared(h, p, 0)
  {
    assert 2 <= |h| / p;
  }

  /** A history that repeats exactly with period P is recognised: the
      detected period exists and is at most P. */
  lemma ExactlyPeriodicDetected(st: PhysicsStatistics, tol: real, minPeriod: nat, P: nat, m: Fns)
    requires SqrtLaws(m) && 0.0 <= tol
    requires 1 <= minPeriod <= P < |st.phaseSpaceHistory| / 2
    requires forall k :: P <= k < |st.phaseSpaceHistory| ==> st.phaseSpaceHistory[k] == st.phaseSpaceHistory[k - P]
    ensures DetectPeriodicity(st, tol, minPeriod, m).Some?
    ensures DetectPeriodicity(st, tol, minPeriod, m).value <= P
  {
    var h := st.phaseSpaceHistory;
    assert PeriodMatches(h, tol, P, m) by {
      forall j: nat | j < CheckPoints(|h|, P) && Compared(h, P, j)
        ensures PairWithin(h, tol, P, j, m)
      {
        var a := |h| - 1 - j * P;
        assert h[a] == h[a - P];
        DistanceLaws(h[a], h[a - P], m);
      }
    }
    DetectPeriodicitySound(st, tol, minPeriod, m);
    hide DetectPeriodicity, PeriodMatches;
  }

  // ---------------------------------------------------------------------
  // Lyapunov-exponent estimate

  /** Neighbour candidates start this many samples after the reference. */
  const NEIGHBOUR_SKIP: nat := 10
  /** Neighbour candidates end before this many samples after the
      reference. */
  const NEIGHBOUR_SPAN: nat := 50
  /** Distances at or below this are treated as coincident samples. */
  const SEPARATION_FLOOR: real := 0.00000001
  /** The history must exceed the window by this many samples. */
  const LYAPUNOV_MARGIN: nat := 100

  /** The closest candidate found so far: its distance and index. */
  datatype Neighbour = Neighbour(distance: real, index: nat)

  /** The neighbour search from index j up to `end`: a candidate replaces
      the best one when it is strictly closer and farther than the floor.
      `None` stands for the source's infinite initial distance with index
      zero. */
  function NearestFrom(h: seq<PhasePoint>, i: nat, j: nat, end: nat, best: Option<Neighbour>, m: Fns): (r: Option<Neighbour>)
    requires i < |h| && end <= |h|
    requires best.Some? ==> SEPARATION_FLOOR < best.value.distance && best.value.index < j
    ensures r.Some? ==> SEPARATION_FLOOR < r.value.distance
    ensures r.Some? ==> r == best || j <= r.value.index < end
    decreases end - j
  {
    if j >= end then best
    else
      var d := Distance(h[i], h[j], m);
      var next := if (best.None? || d < best.value.distance) && d > SEPARATION_FLOOR then Some(Neighbour(d, j)) else best;
      NearestFrom(h, i, j + 1, end, next, m)
  }

  /** The search finds nothing exactly when it starts with nothing and
      every candidate is within the floor; otherwise it ends with the
      first candidate at the smallest distance above the floor, or keeps
      the best it started with when nothing is strictly closer. */
  lemma {:induction false} NearestFromIsNearest(h: seq<PhasePoint>, i: nat, j: nat, end: nat, best: Option<Neighbour>, m: Fns)
    requires i < |h| && end <= |h|
    requires best.Some? ==> SEPARATION_FLOOR < best.value.distance && best.value.index < j
    ensures NearestFrom(h, i, j, end, best, m).None?
            <==> best.None? && forall k :: j <= k < end ==> Distance(h[i], h[k], m) <= SEPARATION_FLOOR
    ensures NearestFrom(h, i, j, end, best, m).Some? ==>
              || NearestFrom(h, i, j, end, best, m) == best
              || (&& NearestFrom(h, i, j, end, best, m).value.distance
                       == Distance(h[i], h[NearestFrom(h, i, j, end, best, m).value.index], m)
                  && (best.Some? ==> NearestFrom(h, i, j, end, best, m).value.distance < best.value.distance))
    ensures NearestFrom(h, i, j, end, best, m).Some? && best.Some? ==>
              NearestFrom(h, i, j, end, best, m).value.distance <= best.value.distance
    ensures NearestFrom(h, i, j, end, best, m).Some? ==>
              forall k :: (j <= k < end && SEPARATION_FLOOR < Distance(h[i], h[k], m))
                          ==> NearestFrom(h, i, j, end, best, m).value.distance <= Distance(h[i], h[k], m)
    ensures NearestFrom(h, i, j, end, best, m).Some? ==>
              forall k :: (j <= k < NearestFrom(h, i, j, end, best, m).value.index && SEPARATION_FLOOR < Distance(h[i], h[k], m))
                          ==> NearestFrom(h, i, j, end, best, m).value.distance < Distance(h[i], h[k], m)
    decreases end - j
  {
    if j < end {
      var d := Distance(h[i], h[j], m);
      var next := if (best.None? || d < best.value.distance) && d > SEPARATION_FLOOR then Some(Neighbour(d, j)) else best;
      NearestFromIsNearest(h, i, j + 1, end, next, m);
    }
  }

  /** The closest sample to reference i among indices i + 10 up to
      i + 50 (exclusive, clipped to the history) that is not within the
      floor of it. */
  function NearestNeighbour(h: seq<PhasePoint>, i: nat, m: Fns): (r: Option<Neighbour>)
    requires i < |h|
    ensures r.Some? ==> && SEPARATION_FLOOR < r.value.distance
                        && i + NEIGHBOUR_SKIP <= r.value.index < MinNat(i + NEIGHBOUR_SPAN, |h|)
  {
    NearestFrom(h, i, i + NEIGHBOUR_SKIP, MinNat(i + NEIGHBOUR_SPAN, |h|), None, m)
  }

  /** There is no neighbour exactly when every candidate is within the
      floor; otherwise the neighbour is at the smallest distance above the
      floor, and every earlier candidate is strictly farther, so ties go
      to the earliest. */
  lemma NearestNeighbourIsNearest(h: seq<PhasePoint>, i: nat, m: Fns)
    requires i < |h|
    ensures NearestNeighbour(h, i, m).None?
            <==> forall k :: i + NEIGHBOUR_SKIP <= k < MinNat(i + NEIGHBOUR_SPAN, |h|)
                             ==> Distance(h[i], h[k], m) <= SEPARATION_FLOOR
    ensures NearestNeighbour(h, i, m).Some? ==>
              NearestNeighbour(h, i, m).value.distance == Distance(h[i], h[NearestNeighbour(h, i, m).value.index], m)
    ensures NearestNeighbour(h, i, m).Some? ==>
              forall k :: (i + NEIGHBOUR_SKIP <= k < MinNat(i + NEIGHBOUR_SPAN, |h|) && SEPARATION_FLOOR < Distance(h[i], h[k], m))
                          ==> NearestNeighbour(h, i, m).value.distance <= Distance(h[i], h[k], m)
    ensures NearestNeighbour(h, i, m).Some? ==>
              forall k :: (i + NEIGHBOUR_SKIP <= k < NearestNeighbour(h, i, m).value.index && SEPARATION_FLOOR < Distance(h[i], h[k], m))
                          ==> NearestNeighbour(h, i, m).value.distance < Distance(h[i], h[k], m)
  {
    NearestFromIsNearest(h, i, i + NEIGHBOUR_SKIP, MinNat(i + NEIGHBOUR_SPAN, |h|), None, m);
  }

  /** The divergence rate measured from reference i: the logarithm of how
      much the distance to its nearest neighbour grew over the window,
      per sample. `None` when there is no neighbour, its future lies
      outside the history, or either distance is within the floor. */
  function DivergenceAt(h: seq<PhasePoint>, w: nat, i: nat, m: Fns): (r: Option<real>)
    requires 1 <= w && i + w < |h|
    ensures r.Some? <==> && NearestNeighbour(h, i, m).Some?
                         && NearestNeighbour(h, i, m).value.index + w < |h|
                         && SEPARATION_FLOOR < Distance(h[i + w], h[NearestNeighbour(h, i, m).value.index + w], m)
  {
    var nb := NearestNeighbour(h, i, m);
    var closest := if nb.Some? then nb.value.index else 0;
    if closest > 0 && closest + w < |h| then
      var future := Distance(h[i + w], h[closest + w], m);
      if future > SEPARATION_FLOOR && nb.value.distance > SEPARATION_FLOOR then
        Some(m.ln(future / nb.value.distance) / w as real)
      else None
    else None
  }

  /** With a logarithm that vanishes at one and increases, a rate is
      non-negative exactly when the pair's distance did not shrink over
      the window. */
  lemma DivergenceSign(h: seq<PhasePoint>, w: nat, i: nat, m: Fns)
    requires LnLaws(m)
    requires 1 <= w && i + w < |h|
    requires DivergenceAt(h, w, i, m).Some?
    ensures 0.0 <= DivergenceAt(h, w, i, m).value
            <==> NearestNeighbour(h, i, m).value.distance
                 <= Distance(h[i + w], h[NearestNeighbour(h, i, m).value.index + w], m)
  {
    hide NearestNeighbour, Distance;
    var nb := NearestNeighbour(h, i, m).value;
    var future := Distance(h[i + w], h[nb.index + w], m);
    var ratio := future / nb.distance;
    assert DivergenceAt(h, w, i, m).value == m.ln(ratio) / w as real;
    RatioAtLeastOne(future, nb.distance);
    if 1.0 < ratio {
      assert m.ln(1.0) < m.ln(ratio);
    } else if ratio < 1.0 {
      assert m.ln(ratio) < m.ln(1.0);
    }
  }

  /** The rates of references i up to n, in order. */
  function Divergences(h: seq<PhasePoint>, w: nat, i: nat, n: nat, m: Fns): (r: seq<real>)
    requires 1 <= w && n + w <= |h|
    decreases n - i
  {
    if i >= n then []
    else
      var rest := Divergences(h, w, i + 1, n, m);
      match DivergenceAt(h, w, i, m)
      case None => rest
      case Some(rate) => [rate] + rest
  }

  /** One rate per reference that yields one: at most n - i rates, none at
      all exactly when no reference yields one, and every rate within any
      bounds that all references' rates respect. */
  lemma {:induction false} DivergencesCollect(h: seq<PhasePoint>, w: nat, i: nat, n: nat, m: Fns, lo: real, hi: real)
    requires 1 <= w && n + w <= |h| && i <= n
    requires forall k :: i <= k < n && DivergenceAt(h, w, k, m).Some? ==> lo <= DivergenceAt(h, w, k, m).value <= hi
    ensures |Divergences(h, w, i, n, m)| <= n - i
    ensures |Divergences(h, w, i, n, m)| == 0 <==> forall k :: i <= k < n ==> DivergenceAt(h, w, k, m).None?
    ensures forall x :: x in Divergences(h, w, i, n, m) ==> lo <= x <= hi
    decreases n - i
  {
    hide DivergenceAt;
    if i < n {
      DivergencesCollect(h, w, i + 1, n, m, lo, hi);
    }
  }

  /** The mean divergence rate over all references, or `None` when the
      history is shorter than the window plus the margin or no reference
      yields a rate. */
  function EstimateLyapunov(st: PhysicsStatistics, w: nat, m: Fns): (r: Option<real>)
    requires 1 <= w
    ensures |st.phaseSpaceHistory| < w + LYAPUNOV_MARGIN ==> r.None?
  {
    var h := st.phaseSpaceHistory;
    if |h| < w + LYAPUNOV_MARGIN then None
    else
      var rates := Divergences(h, w, 0, USub(|h|, w), m);
      if |rates| == 0 then None else Some(Mean(rates))
  }

  /** The estimate exists exactly when the history is long enough and some
      reference yields a rate, and it lies within any bounds that every
      reference's rate respects. */
  lemma EstimateLyapunovBetween(st: PhysicsStatistics, w: nat, m: Fns, lo: real, hi: real)
    requires 1 <= w
    requires w + LYAPUNOV_MARGIN <= |st.phaseSpaceHistory|
    requires forall k: nat :: k + w < |st.phaseSpaceHistory| && DivergenceAt(st.phaseSpaceHistory, w, k, m).Some?
               ==> lo <= DivergenceAt(st.phaseSpaceHistory, w, k, m).value <= hi
    ensures EstimateLyapunov(st, w, m).None?
            <==> forall k: nat :: k + w < |st.phaseSpaceHistory| ==> DivergenceAt(st.phaseSpaceHistory, w, k, m).None?
    ensures EstimateLyapunov(st, w, m).Some? ==> lo <= EstimateLyapunov(st, w, m).value <= hi
  {
    hide DivergenceAt, Divergences;
    var h := st.phaseSpaceHistory;
    var n := |h| - w;
    DivergencesCollect(h, w, 0, n, m, lo, hi);
    var rates := Divergences(h, w, 0, n, m);
    if |rates| > 0 {
      assert forall k :: 0 <= k < |rates| ==> rates[k] in rates;
      MeanBetween(rates, lo, hi);
    }
  }

  /** A trajectory that has come to rest at one point has no nearby but
      distinct samples, so it yields no estimate. */
  lemma StationaryHistoryHasNoEstimate(st: PhysicsStatistics, w: nat, m: Fns)
    requires SqrtLaws(m) && 1 <= w
    requires forall k :: 0 <= k < |st.phaseSpaceHistory| ==> st.phaseSpaceHistory[k] == st.phaseSpaceHistory[0]
    ensures EstimateLyapunov(st, w, m).None?
  {
    var h := st.phaseSpaceHistory;
    if w + LYAPUNOV_MARGIN <= |h| {
      forall i, k | 0 <= i < |h| && 0 <= k < |h|
        ensures Distance(h[i], h[k], m) == 0.0
      {
        DistanceLaws(h[i], h[k], m);
      }
      EstimateLyapunovBetween(st, w, m, 0.0, 0.0);
    }
  }
}
