/**
 * Tray and batch statistics over the data a reader holds: the number of measured SiPMs,
 * averages and spreads that skip the -999 sentinel, and outlier and dark-current tallies.
 * Every loop over a vector of measurements is a method proved against a function of the
 * vector; the properties of those functions are lemmas.
 */
module Statistics {
  import opened Config
  import opened Numeric
  import opened Records
  import opened Reader

  /** A value is a measurement unless it is the sentinel of a failed or missing SiPM. */
  predicate Measured(x: real) {
    x != SENTINEL
  }

  /** The sum of all entries. */
  function Sum(xs: seq<real>): real {
    if |xs| == 0 then 0.0 else Sum(xs[..|xs| - 1]) + xs[|xs| - 1]
  }

  /** The number of measured entries. */
  function ValidCount(xs: seq<real>): (n: nat)
    ensures n <= |xs|
  {
    if |xs| == 0 then 0 else ValidCount(xs[..|xs| - 1]) + (if Measured(xs[|xs| - 1]) then 1 else 0)
  }

  /** The sum of the measured entries. */
  function ValidSum(xs: seq<real>): real {
    if |xs| == 0 then 0.0 else ValidSum(xs[..|xs| - 1]) + (if Measured(xs[|xs| - 1]) then xs[|xs| - 1] else 0.0)
  }

  /** The mean of the measured entries; NaN when there is none. */
  function TrayMean(xs: seq<real>): Double {
    Divide(ValidSum(xs), ValidCount(xs))
  }

  /** Sum over the measured entries of the squared distance to m, in IEEE arithmetic. */
  function SqDevSum(xs: seq<real>, m: Double): Double {
    if |xs| == 0 then Finite(0.0)
    else
      var x := xs[|xs| - 1];
      var front := SqDevSum(xs[..|xs| - 1], m);
      if Measured(x) then Plus(front, Square(Minus(x, m))) else front
  }

  /** IEEE division of a double by a count. */
  function DivideBy(d: Double, n: nat): Double {
    match d
    case Finite(v) => Divide(v, n)
    case NaN => NaN
    case PosInf => PosInf
    case NegInf => NegInf
  }

  /** The population variance of the measured entries around their mean; NaN when there is none. */
  function TrayVariance(xs: seq<real>): Double {
    DivideBy(SqDevSum(xs, TrayMean(xs)), ValidCount(xs))
  }

  /** |x - avg| >= 50 mV, in IEEE arithmetic: a NaN average flags nothing, an infinite one everything. */
  predicate IsOutlier(x: real, avg: Double) {
    match Minus(x, avg)
    case Finite(d) => Abs(d) >= OUTLIER_RANGE
    case NaN => false
    case _ => true
  }

  /** The number of entries, sentinels included, outside the band around avg. */
  function OutlierCount(xs: seq<real>, avg: Double): (n: nat)
    ensures n <= |xs|
  {
    if |xs| == 0 then 0 else OutlierCount(xs[..|xs| - 1], avg) + (if IsOutlier(xs[|xs| - 1], avg) then 1 else 0)
  }

  /** The number of entries strictly above the limit. */
  function OverLimit(xs: seq<real>, limit: real): (n: nat)
    ensures n <= |xs|
  {
    if |xs| == 0 then 0 else OverLimit(xs[..|xs| - 1], limit) + (if xs[|xs| - 1] > limit then 1 else 0)
  }

  /** The IV peak voltages of every tray. */
  function IVColumns(data: seq<IVRecord>, at25C: bool): (cs: seq<seq<real>>)
    ensures |cs| == |data|
    ensures forall i :: 0 <= i < |data| ==> cs[i] == VpeakColumn(data[i], at25C)
  {
    seq(|data|, i requires 0 <= i < |data| => VpeakColumn(data[i], at25C))
  }

  /** The SPS breakdown voltages of every tray. */
  function SPSColumns(data: seq<SPSRecord>, at25C: bool): (cs: seq<seq<real>>)
    ensures |cs| == |data|
    ensures forall i :: 0 <= i < |data| ==> cs[i] == VbdColumn(data[i], at25C)
  {
    seq(|data|, i requires 0 <= i < |data| => VbdColumn(data[i], at25C))
  }

  /** The dark currents 4 V above breakdown of every tray. */
  function DarkColumns(data: seq<IVRecord>): (cs: seq<seq<real>>)
    ensures |cs| == |data|
    ensures forall i :: 0 <= i < |data| ==> cs[i] == data[i].idarkAbove
  {
    seq(|data|, i requires 0 <= i < |data| => data[i].idarkAbove)
  }

  function TotalValidCount(cs: seq<seq<real>>): nat {
    if |cs| == 0 then 0 else TotalValidCount(cs[..|cs| - 1]) + ValidCount(cs[|cs| - 1])
  }

  function TotalValidSum(cs: seq<seq<real>>): real {
    if |cs| == 0 then 0.0 else TotalValidSum(cs[..|cs| - 1]) + ValidSum(cs[|cs| - 1])
  }

  function TotalOverLimit(cs: seq<seq<real>>, limit: real): nat {
    if |cs| == 0 then 0 else TotalOverLimit(cs[..|cs| - 1], limit) + OverLimit(cs[|cs| - 1], limit)
  }

  function TotalLength(cs: seq<seq<real>>): nat {
    if |cs| == 0 then 0 else TotalLength(cs[..|cs| - 1]) + |cs[|cs| - 1]|
  }

  /** The mean of every measured entry of every tray. */
  function BatchMean(cs: seq<seq<real>>): Double {
    Divide(TotalValidSum(cs), TotalValidCount(cs))
  }

  /**
   * The all-tray averages of the helper: the measured entries of cs are summed, and the sum is
   * divided by the number of measured raw IV peak voltages (countCs), whatever cs holds.
   */
  function AllTraysMean(cs: seq<seq<real>>, countCs: seq<seq<real>>): Double {
    Divide(TotalValidSum(cs), TotalValidCount(countCs))
  }

  // ---------------------------------------------------------------- one-step facts

  lemma SumStep(xs: seq<real>, i: nat)
    requires i < |xs|
    ensures Sum(xs[..i + 1]) == Sum(xs[..i]) + xs[i]
  {
    assert xs[..i + 1][..i] == xs[..i];
  }

  lemma ValidStep(xs: seq<real>, i: nat)
    requires i < |xs|
    ensures ValidCount(xs[..i + 1]) == ValidCount(xs[..i]) + (if Measured(xs[i]) then 1 else 0)
    ensures ValidSum(xs[..i + 1]) == ValidSum(xs[..i]) + (if Measured(xs[i]) then xs[i] else 0.0)
  {
    assert xs[..i + 1][..i] == xs[..i];
  }

  lemma SqDevStep(xs: seq<real>, m: Double, i: nat)
    requires i < |xs|
    ensures SqDevSum(xs[..i + 1], m)
            == if Measured(xs[i]) then Plus(SqDevSum(xs[..i], m), Square(Minus(xs[i], m))) else SqDevSum(xs[..i], m)
  {
    assert xs[..i + 1][..i] == xs[..i];
  }

  lemma OutlierStep(xs: seq<real>, avg: Double, i: nat)
    requires i < |xs|
    ensures OutlierCount(xs[..i + 1], avg) == OutlierCount(xs[..i], avg) + (if IsOutlier(xs[i], avg) then 1 else 0)
  {
    assert xs[..i + 1][..i] == xs[..i];
  }

  lemma OverLimitStep(xs: seq<real>, limit: real, i: nat)
    requires i < |xs|
    ensures OverLimit(xs[..i + 1], limit) == OverLimit(xs[..i], limit) + (if xs[i] > limit then 1 else 0)
  {
    assert xs[..i + 1][..i] == xs[..i];
  }

  lemma TotalStep(cs: seq<seq<real>>, t: nat, limit: real)
    requires t < |cs|
    ensures TotalValidCount(cs[..t + 1]) == TotalValidCount(cs[..t]) + ValidCount(cs[t])
    ensures TotalValidSum(cs[..t + 1]) == TotalValidSum(cs[..t]) + ValidSum(cs[t])
    ensures TotalOverLimit(cs[..t + 1], limit) == TotalOverLimit(cs[..t], limit) + OverLimit(cs[t], limit)
  {
    assert cs[..t + 1][..t] == cs[..t];
  }

  // ---------------------------------------------------------------- the helper's loops

  /** The plain average of a vector, sentinels included; NaN for an empty vector. */
  method GetAvgFromVector(xs: seq<real>) returns (avg: Double)
    ensures avg == Divide(Sum(xs), |xs|)
  {
    var total := 0.0;
    var i := 0;
    while i < |xs|
      invariant 0 <= i <= |xs|
      invariant total == Sum(xs[..i])
    {
      SumStep(xs, i);
      total := total + xs[i];
      i := i + 1;
    }
    assert xs[..i] == xs;
    avg := Divide(total, |xs|);
  }

  /**
   * The average of the measured entries: the sentinels are counted as failed measurements and
   * the sum is divided by the size less that count.
   */
  method MeanSkippingSentinels(xs: seq<real>) returns (avg: Double)
    ensures avg == TrayMean(xs)
  {
    var total := 0.0;
    var failed := 0;
    var i := 0;
    while i < |xs|
      invariant 0 <= i <= |xs|
      invariant total == ValidSum(xs[..i])
      invariant failed == i - ValidCount(xs[..i])
    {
      ValidStep(xs, i);
      if xs[i] == SENTINEL {
        failed := failed + 1;
      } else {
        total := total + xs[i];
      }
      i := i + 1;
    }
    assert xs[..i] == xs;
    avg := Divide(total, |xs| - failed);
  }

  /** The variance of the measured entries around their average (the square root is left out). */
  method VarianceSkippingSentinels(xs: seq<real>) returns (variance: Double)
    ensures variance == TrayVariance(xs)
  {
    var avg := MeanSkippingSentinels(xs);
    var acc := Finite(0.0);
    var failed := 0;
    var i := 0;
    while i < |xs|
      invariant 0 <= i <= |xs|
      invariant acc == SqDevSum(xs[..i], avg)
      invariant failed == i - ValidCount(xs[..i])
    {
      ValidStep(xs, i);
      SqDevStep(xs, avg, i);
      if xs[i] == SENTINEL {
        failed := failed + 1;
      } else {
        acc := Plus(acc, Square(Minus(xs[i], avg)));
      }
      i := i + 1;
    }
    assert xs[..i] == xs;
    variance := DivideBy(acc, |xs| - failed);
  }

  /** The number of measured entries of every vector, and their sum. */
  method TallyAll(cs: seq<seq<real>>) returns (count: nat, total: real)
    ensures count == TotalValidCount(cs) && total == TotalValidSum(cs)
  {
    count, total := 0, 0.0;
    var t := 0;
    while t < |cs|
      invariant 0 <= t <= |cs|
      invariant count == TotalValidCount(cs[..t]) && total == TotalValidSum(cs[..t])
    {
      var xs := cs[t];
      var i := 0;
      TotalStep(cs, t, 0.0);
      while i < |xs|
        invariant 0 <= i <= |xs|
        invariant count == TotalValidCount(cs[..t]) + ValidCount(xs[..i])
        invariant total == TotalValidSum(cs[..t]) + ValidSum(xs[..i])
      {
        ValidStep(xs, i);
        if xs[i] != SENTINEL {
          count := count + 1;
          total := total + xs[i];
        }
        i := i + 1;
      }
      assert xs[..i] == xs;
      t := t + 1;
    }
    assert cs[..t] == cs;
  }

  /** Counts the measured IV peak voltages of all trays; 0 without a reader. */
  method CountSiPMsAllTrays(reader: SiPMDataReader?) returns (count: nat)
    ensures reader == null ==> count == 0
    ensures reader != null ==> count == TotalValidCount(IVColumns(reader.ivData, false))
  {
    if reader == null {
      return 0;
    }
    var total;
    count, total := TallyAll(IVColumns(reader.ivData, false));
  }

  /** Average IV peak voltage of one tray; -1 for an index with no tray. */
  method GetAvgVpeak(reader: SiPMDataReader, t: int, at25C: bool) returns (avg: Double)
    ensures !(0 <= t < |reader.ivData|) ==> avg == Finite(-1.0)
    ensures 0 <= t < |reader.ivData| ==> avg == TrayMean(VpeakColumn(reader.ivData[t], at25C))
  {
    if t < 0 || t >= |reader.ivData| {
      return Finite(-1.0);
    }
    avg := MeanSkippingSentinels(VpeakColumn(reader.ivData[t], at25C));
  }

  /** Average SPS breakdown voltage of one tray; -1 for an index with no tray. */
  method GetAvgVbreakdown(reader: SiPMDataReader, t: int, at25C: bool) returns (avg: Double)
    ensures !(0 <= t < |reader.spsData|) ==> avg == Finite(-1.0)
    ensures 0 <= t < |reader.spsData| ==> avg == TrayMean(VbdColumn(reader.spsData[t], at25C))
  {
    if t < 0 || t >= |reader.spsData| {
      return Finite(-1.0);
    }
    avg := MeanSkippingSentinels(VbdColumn(reader.spsData[t], at25C));
  }

  /** Sum of the measured IV peak voltages of all trays over the number of measured raw IV peaks. */
  method GetAvgVpeakAllTrays(reader: SiPMDataReader, at25C: bool) returns (avg: Double)
    ensures avg == AllTraysMean(IVColumns(reader.ivData, at25C), IVColumns(reader.ivData, false))
  {
    var _, total := TallyAll(IVColumns(reader.ivData, at25C));
    var count := CountSiPMsAllTrays(reader);
    avg := Divide(total, count);
  }

  /** Sum of the measured SPS breakdown voltages of all trays over the number of measured raw IV peaks. */
  method GetAvgVbreakdownAllTrays(reader: SiPMDataReader, at25C: bool) returns (avg: Double)
    ensures avg == AllTraysMean(SPSColumns(reader.spsData, at25C), IVColumns(reader.ivData, false))
  {
    var _, total := TallyAll(SPSColumns(reader.spsData, at25C));
    var count := CountSiPMsAllTrays(reader);
    avg := Divide(total, count);
  }

  /** The spread of a tray's values: -1 for an index with no tray, else the root of a variance. */
  datatype Spread = InvalidIndex | RootOf(variance: Double)

  /** Standard deviation of one tray's IV peak voltages around their average. */
  method GetStdevVpeak(reader: SiPMDataReader, t: int, at25C: bool) returns (s: Spread)
    ensures !(0 <= t < |reader.ivData|) ==> s == InvalidIndex
    ensures 0 <= t < |reader.ivData| ==> s == RootOf(TrayVariance(VpeakColumn(reader.ivData[t], at25C)))
  {
    if t < 0 || t >= |reader.ivData| {
      return InvalidIndex;
    }
    var v := VarianceSkippingSentinels(VpeakColumn(reader.ivData[t], at25C));
    s := RootOf(v);
  }

  /** Standard deviation of one tray's SPS breakdown voltages around their average. */
  method GetStdevVbreakdown(reader: SiPMDataReader, t: int, at25C: bool) returns (s: Spread)
    ensures !(0 <= t < |reader.spsData|) ==> s == InvalidIndex
    ensures 0 <= t < |reader.spsData| ==> s == RootOf(TrayVariance(VbdColumn(reader.spsData[t], at25C)))
  {
    if t < 0 || t >= |reader.spsData| {
      return InvalidIndex;
    }
    var v := VarianceSkippingSentinels(VbdColumn(reader.spsData[t], at25C));
    s := RootOf(v);
  }

  /** The outliers of one tray: its breakdown voltages outside the band around the all-tray average. */
  function TrayOutliers(iv: seq<IVRecord>, sps: seq<SPSRecord>, t: nat, at25C: bool): nat
    requires t < |sps|
  {
    OutlierCount(VbdColumn(sps[t], at25C), AllTraysMean(SPSColumns(sps, at25C), IVColumns(iv, false)))
  }

  /** The outliers of the first n trays, each counted at 25 C. */
  function OutliersFirstTrays(iv: seq<IVRecord>, sps: seq<SPSRecord>, n: nat): nat
    requires n <= |sps|
  {
    if n == 0 then 0 else OutliersFirstTrays(iv, sps, n - 1) + TrayOutliers(iv, sps, n - 1, true)
  }

  /**
   * What countOutliersVbreakdown reports: the outliers of one tray, or, for -1 and for every
   * other index with no tray, the outliers of all trays at 25 C whatever flag was passed.
   */
  function OutliersVbreakdown(iv: seq<IVRecord>, sps: seq<SPSRecord>, t: int, at25C: bool): nat {
    if 0 <= t < |sps| then TrayOutliers(iv, sps, t, at25C) else OutliersFirstTrays(iv, sps, |sps|)
  }

  /** Counts the SiPMs whose breakdown voltage lies 50 mV or more from the batch average. */
  method CountOutliersVbreakdown(reader: SiPMDataReader, t: int, at25C: bool) returns (count: nat)
    ensures count == OutliersVbreakdown(reader.ivData, reader.spsData, t, at25C)
    decreases if 0 <= t < |reader.spsData| then 0 else 1
  {
    var index := t;
    if index < -1 || index >= |reader.spsData| {
      index := -1;
    }
    if index == -1 {
      count := 0;
      var i := 0;
      while i < |reader.spsData|
        invariant 0 <= i <= |reader.spsData|
        invariant count == OutliersFirstTrays(reader.ivData, reader.spsData, i)
      {
        var c := CountOutliersVbreakdown(reader, i, true);
        count := count + c;
        i := i + 1;
      }
      return;
    }
    var vAvg := GetAvgVbreakdownAllTrays(reader, at25C);
    var xs := VbdColumn(reader.spsData[index], at25C);
    count := 0;
    var i := 0;
    while i < |xs|
      invariant 0 <= i <= |xs|
      invariant count == OutlierCount(xs[..i], vAvg)
    {
      OutlierStep(xs, vAvg, i);
      if IsOutlier(xs[i], vAvg) {
        count := count + 1;
      }
      i := i + 1;
    }
    assert xs[..i] == xs;
  }

  /** Counts the SiPMs of all trays whose dark current 4 V above breakdown exceeds the limit. */
  method CountDarkCurrentOverLimitAllTrays(reader: SiPMDataReader, limit: real) returns (count: nat)
    ensures count == TotalOverLimit(DarkColumns(reader.ivData), limit)
  {
    var cs := DarkColumns(reader.ivData);
    count := 0;
    var t := 0;
    while t < |cs|
      invariant 0 <= t <= |cs|
      invariant count == TotalOverLimit(cs[..t], limit)
    {
      var xs := cs[t];
      TotalStep(cs, t, limit);
      var i := 0;
      while i < |xs|
        invariant 0 <= i <= |xs|
        invariant count == TotalOverLimit(cs[..t], limit) + OverLimit(xs[..i], limit)
      {
        OverLimitStep(xs, limit, i);
        if xs[i] > limit {
          count := count + 1;
        }
        i := i + 1;
      }
      assert xs[..i] == xs;
      t := t + 1;
    }
    assert cs[..t] == cs;
  }

  // ---------------------------------------------------------------- properties

  /** Summing n values that lie in [lo, hi] gives a total in [n * lo, n * hi]. */
  lemma {:induction false} ValidSumBounds(xs: seq<real>, lo: real, hi: real)
    requires forall i :: 0 <= i < |xs| && Measured(xs[i]) ==> lo <= xs[i] <= hi
    ensures Repeat(ValidCount(xs), lo) <= ValidSum(xs) <= Repeat(ValidCount(xs), hi)
  {
    if |xs| > 0 {
      var front := xs[..|xs| - 1];
      ValidSumBounds(front, lo, hi);
    }
  }

  lemma {:induction false} SumBounds(xs: seq<real>, lo: real, hi: real)
    requires forall i :: 0 <= i < |xs| ==> lo <= xs[i] <= hi
    ensures Repeat(|xs|, lo) <= Sum(xs) <= Repeat(|xs|, hi)
  {
    if |xs| > 0 {
      SumBounds(xs[..|xs| - 1], lo, hi);
    }
  }

  /** n copies of x added up. */
  function Repeat(n: nat, x: real): real {
    if n == 0 then 0.0 else Repeat(n - 1, x) + x
  }

  lemma {:induction false} RepeatIsProduct(n: nat, x: real)
    ensures Repeat(n, x) == n as real * x
  {
    if n > 0 {
      RepeatIsProduct(n - 1, x);
    }
  }

  lemma ScaleStrict(a: real, b: real, c: real)
    requires c > 0.0
    ensures a < b ==> a * c < b * c
  {
  }

  /** A quotient of a total in [n * lo, n * hi] by n > 0 lies in [lo, hi]. */
  lemma QuotientBounds(total: real, n: nat, lo: real, hi: real)
    requires n > 0 && Repeat(n, lo) <= total <= Repeat(n, hi)
    ensures Divide(total, n).Finite? && lo <= Divide(total, n).value <= hi
  {
    RepeatIsProduct(n, lo);
    RepeatIsProduct(n, hi);
    var q := total / n as real;
    assert total == q * n as real;
    ScaleStrict(q, lo, n as real);
    ScaleStrict(hi, q, n as real);
  }

  /** The plain average of values in [lo, hi] lies in [lo, hi]; an empty vector gives NaN. */
  lemma AvgFromVectorBounds(xs: seq<real>, lo: real, hi: real)
    requires forall i :: 0 <= i < |xs| ==> lo <= xs[i] <= hi
    ensures |xs| == 0 ==> Divide(Sum(xs), |xs|) == NaN
    ensures |xs| > 0 ==> Divide(Sum(xs), |xs|).Finite? && lo <= Divide(Sum(xs), |xs|).value <= hi
  {
    if |xs| > 0 {
      SumBounds(xs, lo, hi);
      QuotientBounds(Sum(xs), |xs|, lo, hi);
    }
  }

  /** Without measured entries the sum of the measured entries is zero. */
  lemma {:induction false} NothingMeasured(xs: seq<real>, m: Double)
    requires ValidCount(xs) == 0
    ensures ValidSum(xs) == 0.0 && SqDevSum(xs, m) == Finite(0.0)
  {
    if |xs| > 0 {
      NothingMeasured(xs[..|xs| - 1], m);
    }
  }

  /**
   * The tray mean is a number exactly when some entry was measured, and then it lies between
   * the smallest and the largest measured value; otherwise it is NaN.
   */
  lemma MeanBounds(xs: seq<real>, lo: real, hi: real)
    requires forall i :: 0 <= i < |xs| && Measured(xs[i]) ==> lo <= xs[i] <= hi
    ensures ValidCount(xs) == 0 ==> TrayMean(xs) == NaN
    ensures ValidCount(xs) > 0 ==> TrayMean(xs).Finite? && lo <= TrayMean(xs).value <= hi
  {
    var n, total := ValidCount(xs), ValidSum(xs);
    if n == 0 {
      NothingMeasured(xs, NaN);
    } else {
      assert Repeat(n, lo) <= total <= Repeat(n, hi) by {
        ValidSumBounds(xs, lo, hi);
      }
      QuotientBounds(total, n, lo, hi);
    }
  }

  /** Squared distances to a number add up to a number that is not negative. */
  lemma {:induction false} SqDevSumFinite(xs: seq<real>, m: real)
    ensures SqDevSum(xs, Finite(m)).Finite? && SqDevSum(xs, Finite(m)).value >= 0.0
  {
    if |xs| > 0 {
      SqDevSumFinite(xs[..|xs| - 1], m);
    }
  }

  /**
   * The variance of a tray is a number that is not negative exactly when some entry was
   * measured; otherwise it is NaN (and so is the standard deviation the helper returns).
   */
  lemma VarianceDefined(xs: seq<real>)
    ensures ValidCount(xs) == 0 ==> TrayVariance(xs) == NaN
    ensures ValidCount(xs) > 0 ==> TrayVariance(xs).Finite? && TrayVariance(xs).value >= 0.0
  {
    if ValidCount(xs) == 0 {
      NothingMeasured(xs, TrayMean(xs));
    } else {
      assert TrayMean(xs).Finite? by {
        assert ValidCount(xs) != 0;
      }
      SqDevSumFinite(xs, TrayMean(xs).value);
    }
  }

  /** A tray whose measured entries all equal c has mean c and variance 0. */
  lemma {:induction false} ConstantTray(xs: seq<real>, c: real)
    requires ValidCount(xs) > 0
    requires forall i :: 0 <= i < |xs| && Measured(xs[i]) ==> xs[i] == c
    ensures TrayMean(xs) == Finite(c)
    ensures TrayVariance(xs) == Finite(0.0)
  {
    MeanBounds(xs, c, c);
    ConstantSqDev(xs, c);
  }

  lemma {:induction false} ConstantSqDev(xs: seq<real>, c: real)
    requires forall i :: 0 <= i < |xs| && Measured(xs[i]) ==> xs[i] == c
    ensures SqDevSum(xs, Finite(c)) == Finite(0.0)
  {
    if |xs| > 0 {
      ConstantSqDev(xs[..|xs| - 1], c);
    }
  }

  /** A NaN average flags no SiPM as an outlier. */
  lemma {:induction false} NoOutliersAroundNaN(xs: seq<real>)
    ensures OutlierCount(xs, NaN) == 0
  {
    if |xs| > 0 {
      NoOutliersAroundNaN(xs[..|xs| - 1]);
    }
  }

  /** An infinite average flags every SiPM as an outlier. */
  lemma {:induction false} AllOutliersAroundInfinity(xs: seq<real>, avg: Double)
    requires avg.PosInf? || avg.NegInf?
    ensures OutlierCount(xs, avg) == |xs|
  {
    if |xs| > 0 {
      AllOutliersAroundInfinity(xs[..|xs| - 1], avg);
    }
  }

  /**
   * Sentinels are not skipped by the outlier count: around any average above -998.95 V every
   * failed or missing SiPM is an outlier.
   */
  lemma {:induction false} SentinelsAreOutliers(xs: seq<real>, a: real)
    requires a >= SENTINEL + OUTLIER_RANGE
    ensures OutlierCount(xs, Finite(a)) >= |xs| - ValidCount(xs)
  {
    if |xs| > 0 {
      SentinelsAreOutliers(xs[..|xs| - 1], a);
    }
  }

  /** A SiPM within 50 mV of the average is never an outlier, one 50 mV away or more always is. */
  lemma OutlierBand(x: real, a: real)
    ensures IsOutlier(x, Finite(a)) <==> x <= a - OUTLIER_RANGE || x >= a + OUTLIER_RANGE
  {
  }

  /** The outliers of all trays are at most the number of SiPMs in them. */
  lemma {:induction false} OutliersFirstTraysBound(iv: seq<IVRecord>, sps: seq<SPSRecord>, n: nat)
    requires n <= |sps|
    ensures OutliersFirstTrays(iv, sps, n) <= TotalLength(SPSColumns(sps, true)[..n])
  {
    if n > 0 {
      OutliersFirstTraysBound(iv, sps, n - 1);
      var cs := SPSColumns(sps, true);
      assert cs[..n][..n - 1] == cs[..n - 1];
    }
  }

  /** Raising the dark-current limit never raises the count above it. */
  lemma {:induction false} OverLimitAntitone(xs: seq<real>, low: real, high: real)
    requires low <= high
    ensures OverLimit(xs, high) <= OverLimit(xs, low)
  {
    if |xs| > 0 {
      OverLimitAntitone(xs[..|xs| - 1], low, high);
    }
  }

  lemma {:induction false} TotalOverLimitAntitone(cs: seq<seq<real>>, low: real, high: real)
    requires low <= high
    ensures TotalOverLimit(cs, high) <= TotalOverLimit(cs, low) <= TotalLength(cs)
  {
    if |cs| > 0 {
      TotalOverLimitAntitone(cs[..|cs| - 1], low, high);
      OverLimitAntitone(cs[|cs| - 1], low, high);
    }
  }

  /** The batch mean lies between the smallest and largest measured value of every tray. */
  lemma {:induction false} TotalValidSumBounds(cs: seq<seq<real>>, lo: real, hi: real)
    requires forall t, i :: 0 <= t < |cs| && 0 <= i < |cs[t]| && Measured(cs[t][i]) ==> lo <= cs[t][i] <= hi
    ensures Repeat(TotalValidCount(cs), lo) <= TotalValidSum(cs) <= Repeat(TotalValidCount(cs), hi)
  {
    if |cs| > 0 {
      var front, last := cs[..|cs| - 1], cs[|cs| - 1];
      var a, b := TotalValidCount(front), ValidCount(last);
      var sa, sb := TotalValidSum(front), ValidSum(last);
      TotalValidSumBounds(front, lo, hi);
      ValidSumBounds(last, lo, hi);
      RepeatAdd(a, b, lo);
      RepeatAdd(a, b, hi);
    }
  }

  lemma {:induction false} RepeatAdd(a: nat, b: nat, x: real)
    ensures Repeat(a + b, x) == Repeat(a, x) + Repeat(b, x)
  {
    if b > 0 {
      RepeatAdd(a, b - 1, x);
    }
  }

  lemma BatchMeanBounds(cs: seq<seq<real>>, lo: real, hi: real)
    requires forall t, i :: 0 <= t < |cs| && 0 <= i < |cs[t]| && Measured(cs[t][i]) ==> lo <= cs[t][i] <= hi
    requires TotalValidCount(cs) > 0
    ensures BatchMean(cs).Finite? && lo <= BatchMean(cs).value <= hi
  {
    TotalValidSumBounds(cs, lo, hi);
    QuotientBounds(TotalValidSum(cs), TotalValidCount(cs), lo, hi);
  }

  /**
   * The all-tray average is not the mean of what it sums when the counts differ: one tray whose
   * SPS file holds a single breakdown voltage of 38 V and whose IV file holds two measured peaks
   * averages to 19 V.
   */
  lemma AllTraysMeanMiscounts()
    ensures AllTraysMean([[38.0]], [[40.0, 41.0]]) == Finite(19.0)
    ensures BatchMean([[38.0]]) == Finite(38.0)
  {
    assert [[38.0]][..0] == [] && [[40.0, 41.0]][..0] == [];
    assert [38.0][..0] == [] && [40.0, 41.0][..1] == [40.0] && [40.0][..0] == [];
  }

  /**
   * Where the counts agree, as for the raw IV peaks themselves or for trays whose SiPMs were
   * measured alike by both methods, the all-tray average is the mean of the measured entries.
   */
  lemma AllTraysMeanAgrees(cs: seq<seq<real>>, countCs: seq<seq<real>>)
    requires TotalValidCount(cs) == TotalValidCount(countCs)
    ensures AllTraysMean(cs, countCs) == BatchMean(cs)
  {
  }
}
