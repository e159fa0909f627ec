/**
 The per-ticker screening decision of the screener (`check_stock`): a trend
 filter (the last close within 5% of the 200-day simple moving average of the
 close) followed by a volume filter (the latest volume at least three times the
 mean of the five volumes before it). Prices and volumes are exact reals; a
 close that the data source leaves missing is `None`.
 */
module StockCheck {

  datatype Option<+T> = None | Some(value: T)

  /** One trading day of a historical series: its close, which may be missing,
      and its traded volume. */
  datatype Point = Point(close: Option<real>, volume: real)

  /** A chronologically ordered series, most recent point last. */
  type Series = seq<Point>

  /** Why a series passed or failed, in the order the checks are made. */
  datatype Reason =
    | PassedAll
    | DataFetchError
    | InsufficientTrendData
    | OutOfTrendBand
    | InsufficientVolumeData
    | InsufficientVolumeSpike

  const DmaWindow: nat := 200
  const VolumeWindow: nat := 6
  const LowerBand: real := 0.95
  const UpperBand: real := 1.05
  const SpikeMultiple: real := 3.0

  // ---------------------------------------------------------------------------
  // Sums and means

  function Sum(xs: seq<real>): real
  {
    if xs == [] then 0.0 else Sum(xs[..|xs| - 1]) + xs[|xs| - 1]
  }

  /** The arithmetic mean: the value whose |xs|-fold multiple is the sum. */
  function Mean(xs: seq<real>): (m: real)
    requires xs != []
    ensures m * (|xs| as real) == Sum(xs)
  {
    Sum(xs) / (|xs| as real)
  }

  /** The sum of n copies of c is n * c. */
  lemma {:induction false} SumConstant(xs: seq<real>, c: real)
    requires forall i | 0 <= i < |xs| :: xs[i] == c
    ensures Sum(xs) == |xs| as real * c
  {
    if xs != [] {
      SumConstant(xs[..|xs| - 1], c);
    }
  }

  /** A sum of terms that all lie in [lo, hi] lies in [n * lo, n * hi]. */
  lemma {:induction false} SumBounds(xs: seq<real>, lo: real, hi: real)
    requires forall i | 0 <= i < |xs| :: lo <= xs[i] <= hi
    ensures |xs| as real * lo <= Sum(xs) <= |xs| as real * hi
  {
    if xs != [] {
      var n := |xs| - 1;
      SumBounds(xs[..n], lo, hi);
      assert (n + 1) as real * lo == n as real * lo + lo;
      assert (n + 1) as real * hi == n as real * hi + hi;
    }
  }

  /** The mean of terms that all lie in [lo, hi] lies in [lo, hi]. */
  lemma MeanBounds(xs: seq<real>, lo: real, hi: real)
    requires xs != []
    requires forall i | 0 <= i < |xs| :: lo <= xs[i] <= hi
    ensures lo <= Mean(xs) <= hi
  {
    var n := |xs| as real;
    SumBounds(xs, lo, hi);
    var m := Mean(xs);
    assert Sum(xs) == m * n;
    ScaleOrder(m, lo, n);
    ScaleOrder(hi, m, n);
  }

  /** Scaling by a positive factor keeps the strict order. */
  lemma ScaleOrder(a: real, b: real, n: real)
    requires n > 0.0
    ensures a < b <==> a * n < b * n
  {
    assert (b - a) * n == b * n - a * n;
    if a < b {
      assert (b - a) * n > 0.0;
    }
    if a * n < b * n {
      assert (b - a) * n > 0.0;
    }
  }

  /** The sum of five terms, written out. */
  lemma SumOfFive(xs: seq<real>)
    requires |xs| == 5
    ensures Sum(xs) == xs[0] + xs[1] + xs[2] + xs[3] + xs[4]
  {
    assert xs[..4][..3] == xs[..3];
    assert xs[..3][..2] == xs[..2];
    assert xs[..2][..1] == xs[..1];
    assert xs[..1][..0] == [];
    assert Sum(xs[..1]) == xs[0];
    assert Sum(xs[..2]) == xs[0] + xs[1];
    assert Sum(xs[..3]) == xs[0] + xs[1] + xs[2];
    assert Sum(xs[..4]) == xs[0] + xs[1] + xs[2] + xs[3];
  }

  // ---------------------------------------------------------------------------
  // Trend filter: the 200-day moving average of the close

  /** The closes of `ps`, or None when any of them is missing. */
  function CollectCloses(ps: seq<Point>): (r: Option<seq<real>>)
    ensures r.Some? <==> forall i | 0 <= i < |ps| :: ps[i].close.Some?
    ensures r.Some? ==> |r.value| == |ps|
    ensures r.Some? ==> forall i | 0 <= i < |ps| :: r.value[i] == ps[i].close.value
  {
    if ps == [] then Some([])
    else
      match CollectCloses(ps[..|ps| - 1])
      case None => None
      case Some(cs) =>
        match ps[|ps| - 1].close
        case None => None
        case Some(c) => Some(cs + [c])
  }

  /** The closes of the trailing 200-point window, None when the series is
      shorter than the window or any close in it is missing. */
  function TrailingCloses(s: Series): Option<seq<real>>
  {
    if |s| < DmaWindow then None else CollectCloses(s[|s| - DmaWindow..])
  }

  /** The last value of the 200-period rolling mean of the close: defined
      exactly when the trailing 200 closes are all present. */
  function Dma200(s: Series): (r: Option<real>)
    ensures r.Some? <==>
      |s| >= DmaWindow && forall i | |s| - DmaWindow <= i < |s| :: s[i].close.Some?
  {
    match TrailingCloses(s)
    case None => None
    case Some(w) => Some(Mean(w))
  }

  /** The band test: `price` lies in [0.95 * dma, 1.05 * dma], both ends included. */
  predicate InBand(price: real, dma: real)
    ensures dma >= 0.0 ==> (InBand(price, dma) <==> -0.05 * dma <= price - dma <= 0.05 * dma)
    ensures dma < 0.0 ==> !InBand(price, dma)
  {
    LowerBand * dma <= price <= UpperBand * dma
  }

  function TrendFilter(s: Series): (r: Reason)
    ensures r == PassedAll || r == InsufficientTrendData || r == OutOfTrendBand
    ensures r == InsufficientTrendData <==> Dma200(s).None?
    ensures Dma200(s).Some? ==>
      (r == PassedAll <==> InBand(s[|s| - 1].close.value, Dma200(s).value))
  {
    match Dma200(s)
    case None => InsufficientTrendData
    case Some(dma) =>
      if InBand(s[|s| - 1].close.value, dma) then PassedAll else OutOfTrendBand
  }

  // ---------------------------------------------------------------------------
  // Volume filter: the latest volume against the mean of the five before it

  function Volumes(ps: seq<Point>): (r: seq<real>)
    ensures |r| == |ps|
    ensures forall i | 0 <= i < |ps| :: r[i] == ps[i].volume
  {
    seq(|ps|, i requires 0 <= i < |ps| => ps[i].volume)
  }

  /** The latest volume against three times the mean of the five volumes before
      it; equality passes. */
  function VolumeFilter(s: Series): (r: Reason)
    ensures r == PassedAll || r == InsufficientVolumeData || r == InsufficientVolumeSpike
    ensures r == InsufficientVolumeData <==> |s| < VolumeWindow
    ensures |s| >= VolumeWindow ==>
      (r == PassedAll <==>
        s[|s| - 1].volume >= SpikeMultiple * Mean(Volumes(s[|s| - VolumeWindow..|s| - 1])))
  {
    if |s| < VolumeWindow then InsufficientVolumeData
    else
      var recent := s[|s| - VolumeWindow..];
      var latest := recent[VolumeWindow - 1].volume;
      assert recent[..VolumeWindow - 1] == s[|s| - VolumeWindow..|s| - 1];
      var baseline := Mean(Volumes(recent[..VolumeWindow - 1]));
      if latest < SpikeMultiple * baseline then InsufficientVolumeSpike else PassedAll
  }

  // ---------------------------------------------------------------------------
  // The decision

  /** The reason `check_stock` returns for a downloaded series: empty first,
      then the trend filter, then the volume filter. */
  function Evaluate(s: Series): (r: Reason)
    ensures r == DataFetchError <==> s == []
    ensures r != InsufficientVolumeData
    ensures s != [] && TrendFilter(s) == PassedAll ==> r == VolumeFilter(s)
  {
    if s == [] then DataFetchError
    else
      var trend := TrendFilter(s);
      if trend != PassedAll then trend else VolumeFilter(s)
  }

  /** The boolean `check_stock` returns. */
  predicate Check(s: Series)
    ensures Check(s) <==>
      s != [] && TrendFilter(s) == PassedAll && VolumeFilter(s) == PassedAll
  {
    Evaluate(s) == PassedAll
  }

  // ---------------------------------------------------------------------------
  // A reference statement of the screening criteria, without Reason values,
  // means or Options, and the proof that the decision above meets it exactly

  /** The sum of the closes of `ps`, all of which are present. */
  ghost function CloseSum(ps: seq<Point>): real
    requires forall i | 0 <= i < |ps| :: ps[i].close.Some?
  {
    if ps == [] then 0.0 else CloseSum(ps[..|ps| - 1]) + ps[|ps| - 1].close.value
  }

  /** The trend criterion: at least 200 points whose trailing 200 closes are
      present, and 200 times the last close lies within 95% and 105% of the sum
      of those closes. */
  ghost predicate MeetsTrendCriterion(s: Series)
  {
    && |s| >= DmaWindow
    && (forall i | |s| - DmaWindow <= i < |s| :: s[i].close.Some?)
    && (var closeSum := CloseSum(s[|s| - DmaWindow..]);
        0.95 * closeSum <= 200.0 * s[|s| - 1].close.value <= 1.05 * closeSum)
  }

  /** The volume criterion: 5 times the last volume is at least 3 times the sum
      of the five volumes before it. */
  ghost predicate MeetsVolumeCriterion(s: Series)
    requires |s| >= VolumeWindow
  {
    5.0 * s[|s| - 1].volume >=
      3.0 * (s[|s| - 6].volume + s[|s| - 5].volume + s[|s| - 4].volume
             + s[|s| - 3].volume + s[|s| - 2].volume)
  }

  /** A series passes when it meets both criteria. */
  ghost predicate MeetsCriteria(s: Series)
  {
    MeetsTrendCriterion(s) && MeetsVolumeCriterion(s)
  }

  lemma {:induction false} CollectClosesSum(ps: seq<Point>)
    requires forall i | 0 <= i < |ps| :: ps[i].close.Some?
    ensures CollectCloses(ps).Some? && Sum(CollectCloses(ps).value) == CloseSum(ps)
  {
    if ps != [] {
      var init := ps[..|ps| - 1];
      CollectClosesSum(init);
      var cs := CollectCloses(ps).value;
      assert cs[..|cs| - 1] == CollectCloses(init).value;
    }
  }

  /** The trailing 200-day mean, when defined, is the close sum over 200. */
  lemma Dma200IsCloseMean(s: Series)
    requires Dma200(s).Some?
    ensures Dma200(s).value == CloseSum(s[|s| - DmaWindow..]) / 200.0
  {
    CollectClosesSum(s[|s| - DmaWindow..]);
  }

  /** The trend filter passes a non-empty series exactly when it meets the
      trend criterion. */
  lemma TrendMeetsCriterion(s: Series)
    requires s != []
    ensures TrendFilter(s) == PassedAll <==> MeetsTrendCriterion(s)
  {
    if Dma200(s).Some? {
      Dma200IsCloseMean(s);
    }
  }

  /** The volume filter passes a series of at least six points exactly when it
      meets the volume criterion. */
  lemma VolumeMeetsCriterion(s: Series)
    requires |s| >= VolumeWindow
    ensures VolumeFilter(s) == PassedAll <==> MeetsVolumeCriterion(s)
  {
    var vs := Volumes(s[|s| - VolumeWindow..|s| - 1]);
    SumOfFive(vs);
    assert vs[0] == s[|s| - 6].volume && vs[4] == s[|s| - 2].volume;
  }

  /** The screening decision passes exactly the series that meet the criteria. */
  lemma CheckMeetsCriteria(s: Series)
    ensures Check(s) <==> MeetsCriteria(s)
  {
    if s != [] {
      TrendMeetsCriterion(s);
      if |s| >= VolumeWindow {
        VolumeMeetsCriterion(s);
      }
    }
  }

  /** A series fails for want of a volume spike exactly when it meets the
      trend criterion but 5 times its last volume is below 3 times the sum of
      the five volumes before it. */
  lemma VolumeSpikeReason(s: Series)
    ensures Evaluate(s) == InsufficientVolumeSpike <==>
      MeetsTrendCriterion(s) && !MeetsVolumeCriterion(s)
  {
    if s != [] {
      TrendMeetsCriterion(s);
      if |s| >= VolumeWindow {
        VolumeMeetsCriterion(s);
      }
    }
  }

  /** A series fails the band test exactly when its average is defined but it
      does not meet the trend criterion. */
  lemma OutOfBandReason(s: Series)
    ensures Evaluate(s) == OutOfTrendBand <==>
      Dma200(s).Some? && !MeetsTrendCriterion(s)
  {
    if s != [] {
      TrendMeetsCriterion(s);
    }
  }

  // ---------------------------------------------------------------------------
  // Properties of the filters

  /** With a positive moving average the band test is the ratio test
      0.95 <= last / dma <= 1.05. */
  lemma TrendBandRatio(s: Series)
    requires Dma200(s).Some? && Dma200(s).value > 0.0
    ensures TrendFilter(s) == PassedAll <==>
      LowerBand <= s[|s| - 1].close.value / Dma200(s).value <= UpperBand
  {
    BandIsRatio(s[|s| - 1].close.value, Dma200(s).value);
  }

  /** Against a positive average, the band test is the ratio test. */
  lemma BandIsRatio(price: real, dma: real)
    requires dma > 0.0
    ensures InBand(price, dma) <==> LowerBand <= price / dma <= UpperBand
  {
    var ratio := price / dma;
    assert price == ratio * dma;
    ScaleOrder(ratio, LowerBand, dma);
    ScaleOrder(UpperBand, ratio, dma);
  }

  /** The moving average lies between the least and the greatest close of the
      trailing window. */
  lemma Dma200Bounds(s: Series, lo: real, hi: real)
    requires Dma200(s).Some?
    requires forall i | |s| - DmaWindow <= i < |s| :: lo <= s[i].close.value <= hi
    ensures lo <= Dma200(s).value <= hi
  {
    var w := TrailingCloses(s).value;
    assert forall i | 0 <= i < |w| :: w[i] == s[|s| - DmaWindow + i].close.value;
    MeanBounds(w, lo, hi);
  }

  /** A non-empty series fails for want of trend data exactly when it is
      shorter than the 200-point window or misses a close inside it; such a
      series never reaches a band verdict. */
  lemma UndefinedAverageFails(s: Series)
    requires s != []
    ensures Evaluate(s) == InsufficientTrendData <==>
      |s| < DmaWindow || exists i | |s| - DmaWindow <= i < |s| :: s[i].close.None?
  {
  }

  /** A trend failure decides the reason whatever the volumes are. */
  lemma TrendDecidesFirst(s: Series, t: Series)
    requires s != [] && |s| == |t|
    requires forall i | 0 <= i < |s| :: s[i].close == t[i].close
    requires TrendFilter(s) != PassedAll
    ensures Evaluate(s) == Evaluate(t) == TrendFilter(s)
  {
    var n := |s|;
    if n >= DmaWindow {
      var ws, wt := s[n - DmaWindow..], t[n - DmaWindow..];
      assert forall i | 0 <= i < |ws| :: ws[i].close == wt[i].close;
      CollectClosesSameCloses(ws, wt);
    }
  }

  lemma {:induction false} CollectClosesSameCloses(ps: seq<Point>, qs: seq<Point>)
    requires |ps| == |qs|
    requires forall i | 0 <= i < |ps| :: ps[i].close == qs[i].close
    ensures CollectCloses(ps) == CollectCloses(qs)
  {
    if ps != [] {
      CollectClosesSameCloses(ps[..|ps| - 1], qs[..|qs| - 1]);
    }
  }

  // ---------------------------------------------------------------------------
  // Worked series of 250 points

  /** Flat closes at 100, volumes flat at 1000 except a final 4000: passes. */
  lemma FlatSeriesWithSpikePasses()
    ensures Evaluate(seq(250, i => Point(Some(100.0), if i == 249 then 4000.0 else 1000.0)))
            == PassedAll
  {
    var s := seq(250, i => Point(Some(100.0), if i == 249 then 4000.0 else 1000.0));
    Dma200Bounds(s, 100.0, 100.0);
    var vs := Volumes(s[244..249]);
    MeanBounds(vs, 1000.0, 1000.0);
  }

  /** Flat closes at 100 and a final close 1.10 times the 200-day mean: out of band. */
  lemma FinalJumpOutOfBand()
    ensures Evaluate(seq(250, i => Point(Some(if i == 249 then 218900.0 / 1989.0 else 100.0), 1000.0)))
            == OutOfTrendBand
  {
    var x := 218900.0 / 1989.0;
    var s := seq(250, i => Point(Some(if i == 249 then x else 100.0), 1000.0));
    var w := TrailingCloses(s).value;
    assert forall i | 0 <= i < 199 :: w[..199][i] == 100.0;
    SumConstant(w[..199], 100.0);
    assert Sum(w) == 19900.0 + x;
    assert s[249].close.value == 1.10 * Dma200(s).value;
  }

  /** Closes flat at 100 and final volumes 100, 100, 100, 100, 100, 250: the
      trend passes and the spike falls short of three times the baseline. */
  lemma WeakSpikeFails()
    ensures Evaluate(seq(250, i => Point(Some(100.0), if i == 249 then 250.0 else 100.0)))
            == InsufficientVolumeSpike
  {
    var s := seq(250, i => Point(Some(100.0), if i == 249 then 250.0 else 100.0));
    Dma200Bounds(s, 100.0, 100.0);
    var vs := Volumes(s[244..249]);
    MeanBounds(vs, 100.0, 100.0);
  }
}
