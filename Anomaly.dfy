/**
 * The volume-anomaly detector: a population z-score of the current volume
 * against the newest stored volumes of the ticker, with a strict one-sided
 * threshold.
 */
module Anomaly {
  import opened Stats
  import opened Log
  import opened Tables
  import opened Database

  /** `LIMIT 20` */
  const WindowSize: int := 20
  /** `if len(volumes) < 5: return False, 0.0` */
  const MinSamples: int := 5

  /** The pair `(is_anomaly, z_score)` the detector returns. */
  datatype Detection = Detection(anomalous: bool, score: ZScore)

  /**
   * `detect_anomalies` once the window has been read: no signal on fewer
   * than 5 samples or on a flat window, otherwise the z-score and whether it
   * exceeds the threshold.
   */
  function Detect(window: seq<int>, current: int, threshold: real): (r: Detection)
    ensures |window| < MinSamples ==> r == Detection(false, Zero)
    ensures |window| >= MinSamples && AllEqual(window) ==> r == Detection(false, Zero)
    ensures |window| >= MinSamples && !AllEqual(window) ==>
      Variance(window) > 0.0 &&
      r.score == Ratio(current as real - Mean(window), Variance(window)) &&
      r.anomalous == r.score.Exceeds(threshold)
  {
    if |window| < MinSamples then Detection(false, Zero)
    else
      VarianceZeroIffAllEqual(window);
      if Variance(window) == 0.0 then Detection(false, Zero)
      else
        var score := Ratio(Deviation(window, current), Variance(window));
        Detection(score.Exceeds(threshold), score)
  }

  /**
   * Whatever `np.std` returns (any sigma >= 0 whose square is the population
   * variance) and whatever z then is (z * sigma == current - mean): on a flat
   * window the variance is zero and there is no signal; otherwise sigma is
   * positive, the returned score stands for z and the flag is
   * `z > threshold`. In particular sigma == 0 only on a flat window.
   */
  lemma DetectIsZTest(window: seq<int>, current: int, threshold: real, sigma: real, z: real)
    requires |window| >= MinSamples
    requires sigma >= 0.0 && sigma * sigma == Variance(window)
    requires sigma > 0.0 ==> z * sigma == current as real - Mean(window)
    ensures AllEqual(window) ==> sigma * sigma == 0.0 && Detect(window, current, threshold) == Detection(false, Zero)
    ensures !AllEqual(window) ==> sigma > 0.0
    ensures sigma == 0.0 ==> AllEqual(window)
    ensures !AllEqual(window) ==>
      Detect(window, current, threshold).score.Denotes(z, sigma) &&
      (Detect(window, current, threshold).anomalous <==> z > threshold)
  {
    VarianceZeroIffAllEqual(window);
    if !AllEqual(window) {
      SigmaPositive(sigma, Variance(window));
      var r := Detect(window, current, threshold);
      assert r.score.Denotes(z, sigma);
      ExceedsIff(r.score, z, sigma, threshold);
    }
  }

  /** A z-score equal to the threshold does not flag: the test is strict. */
  lemma AtThresholdNotAnomalous(window: seq<int>, current: int, sigma: real)
    requires |window| >= MinSamples
    requires sigma > 0.0 && sigma * sigma == Variance(window)
    ensures var z := (current as real - Mean(window)) / sigma;
      !Detect(window, current, z).anomalous
  {
    var z := (current as real - Mean(window)) / sigma;
    assert z * sigma == current as real - Mean(window);
    DetectIsZTest(window, current, z, sigma, z);
  }

  /** The window `detect_anomalies` reads: the 20 newest volumes of the ticker. */
  function Window(db: Db, ticker: string): seq<int> {
    RecentVolumes(db, ticker, WindowSize)
  }

  /** Some stored market row of ticker t has volume v. */
  ghost predicate Logged(market: seq<Row<Quote>>, t: string, v: int) {
    exists k :: 0 <= k < |market| && market[k].ticker == t && market[k].data.volume == v
  }

  /**
   * The window holds at most 20 volumes, each from a row of this ticker, in
   * newest-first order.
   */
  lemma WindowSpec(db: Db, ticker: string)
    requires Valid(db)
    ensures |Window(db, ticker)| <= WindowSize
    ensures forall i :: 0 <= i < |Window(db, ticker)| ==> Logged(db.market, ticker, Window(db, ticker)[i])
  {
    var rows := NewestOf(db.market, ticker, WindowSize);
    var w := Window(db, ticker);
    assert w == Volumes(rows);
    NewestOfSpec(db.market, ticker, WindowSize);
    forall i | 0 <= i < |Window(db, ticker)|
      ensures Logged(db.market, ticker, Window(db, ticker)[i])
    {
      assert rows[i] in rows;
      var k :| 0 <= k < |db.market| && db.market[k] == rows[i];
      assert db.market[k].data.volume == w[i];
    }
  }

  /** Market rows of other tickers never change a ticker's window. */
  lemma WindowOtherTicker(db: Db, ticker: string, u: string, now: int, price: real, volume: int)
    requires u != ticker
    ensures Window(LogMarketData(db, u, now, price, volume), ticker) == Window(db, ticker)
  {
    RecentVolumesOtherTicker(db, u, now, price, volume, ticker, WindowSize);
  }

  /** `detect_anomalies(ticker, current_volume, threshold)` against the store. */
  method DetectAnomalies(store: Store, ticker: string, currentVolume: int, threshold: real) returns (r: Detection)
    requires store.Valid()
    ensures r == Detect(Window(store.Snapshot(), ticker), currentVolume, threshold)
  {
    var volumes := RecentVolumes(store.Snapshot(), ticker, WindowSize);
    r := Detect(volumes, currentVolume, threshold);
  }

  /** Six volumes alternating 90 and 110 (mean 100, std 10) and a current volume of 140: z = 4. */
  lemma ExampleSpike()
    ensures Detect([90, 110, 90, 110, 90, 110], 140, 3.0).anomalous
    ensures !Detect([90, 110, 90, 110, 90, 110], 140, 4.0).anomalous
  {
    var w1 := [90];
    var w2 := w1 + [110];
    var w3 := w2 + [90];
    var w4 := w3 + [110];
    var w5 := w4 + [90];
    var w := w5 + [110];
    assert w == [90, 110, 90, 110, 90, 110];
    SnocSums(w1, 110, 6, 600);
    SnocSums(w2, 90, 6, 600);
    SnocSums(w3, 110, 6, 600);
    SnocSums(w4, 90, 6, 600);
    SnocSums(w5, 110, 6, 600);
    assert Sum(w) == 600;
    assert Spread(w, 6, 600) == 21600;
    assert Variance(w) == 21600.0 / 216.0 == 100.0;
    assert !AllEqual(w) by {
      assert w[0] != w[1];
    }
    assert 140.0 - Mean(w) == 40.0;
  }

  lemma SnocSums(s: seq<int>, x: int, n: int, total: int)
    ensures Sum(s + [x]) == Sum(s) + x
    ensures Spread(s + [x], n, total) == Spread(s, n, total) + (n * x - total) * (n * x - total)
  {
    assert (s + [x])[..|s|] == s;
  }

  /** A flat window never flags, however large the current volume. */
  lemma ExampleFlat(current: int, threshold: real)
    ensures Detect([10, 10, 10, 10, 10], current, threshold) == Detection(false, Zero)
  {
    assert AllEqual([10, 10, 10, 10, 10]);
  }
}
