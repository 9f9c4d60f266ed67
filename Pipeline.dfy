/**
 * One cycle of `run_pipeline`: for every tracked stock, in registry order,
 * fetch its quote; when the price is truthy log a market row and then test
 * the volume window (which now holds that row) against the stock's anomaly
 * threshold, raising an ANOMALY alert on a spike; then ingest the news and
 * raise a SENTIMENT alert when the average leaves the stock's sentiment
 * band; then add the stock to the summary. A stock whose quote fetch
 * returned nothing makes the summary line raise, which ends the cycle
 * there with everything written so far kept.
 *
 * The market is an input: `quote(ticker)` is what `fetch_market_price`
 * returns. The news feeds and the scorer are as in module News; one time
 * `now` stamps every row of the cycle.
 */
module Pipeline {
  import opened Wrappers
  import opened Text
  import opened Stats
  import opened Log
  import opened Tables
  import opened Database
  import opened Anomaly
  import opened News

  /** `fetch_market_price(ticker)`: `(None, None)` or `(close, int(volume))`. */
  datatype MarketQuote = NoQuote | Quoted(price: real, volume: int)

  /** `if price:`: a missing price and a zero price both skip the market step. */
  predicate Truthy(q: MarketQuote) {
    q.Quoted? && q.price != 0.0
  }

  const AnomalyType: string := "ANOMALY"
  const SentimentType: string := "SENTIMENT"
  /** The message of an ANOMALY alert, without its formatted numbers. */
  const SpikeMessage: string := "Volume Spike"
  const ShiftPrefix: string := "News Sentiment Shift: "

  function Abs(x: real): real {
    if x < 0.0 then -x else x
  }

  /** The label of a SENTIMENT alert, without its formatted numbers. */
  function ShiftMessage(avg: real): string {
    ShiftPrefix + (if avg > 0.0 then "Positive" else "Negative")
  }

  /** The market half of a stock's step: log the quote, then test the window that holds it. */
  function MarketStep(db: Db, stock: Stock, q: MarketQuote, now: int): Db {
    if Truthy(q) then
      var logged := LogMarketData(db, stock.ticker, now, q.price, q.volume);
      if Detect(Window(logged, stock.ticker), q.volume, stock.anomalyThresh).anomalous
      then LogAlert(logged, stock.ticker, now, AnomalyType, SpikeMessage)
      else logged
    else db
  }

  /** `if abs(avg) > s_thresh:` raise a SENTIMENT alert. */
  function SentimentStep(db: Db, stock: Stock, avg: real, now: int): Db {
    if Abs(avg) > stock.sentimentThresh
    then LogAlert(db, stock.ticker, now, SentimentType, ShiftMessage(avg))
    else db
  }

  /** Everything one stock's iteration writes. */
  function StockStep(db: Db, stock: Stock, quote: string -> MarketQuote, fetch: string -> seq<Entry>,
                     score: string -> real, now: int): Db
  {
    var afterMarket := MarketStep(db, stock, quote(stock.ticker), now);
    var news := Ingest(afterMarket, stock.ticker, stock.searchTerm, fetch, score, now);
    SentimentStep(news.db, stock, news.average, now)
  }

  /** One summary entry, `f"{ticker}: ₹{price:.2f}"`, kept as its ticker and price. */
  datatype Line = Line(ticker: string, price: real)

  /** The store after a run over some stocks, the summary so far, and the stock it stopped at. */
  datatype Outcome = Outcome(db: Db, lines: seq<Line>, failed: Option<string>)

  /** One pass of the loop body, unless an earlier stock already stopped the run. */
  function Advance(o: Outcome, s: Stock, quote: string -> MarketQuote, fetch: string -> seq<Entry>,
                   score: string -> real, now: int): Outcome
  {
    if o.failed.Some? then o
    else
      var next := StockStep(o.db, s, quote, fetch, score, now);
      match quote(s.ticker)
      case NoQuote => Outcome(next, o.lines, Some(s.ticker))
      case Quoted(p, _) => Outcome(next, o.lines + [Line(s.ticker, p)], None)
  }

  /** The loop over the stocks, stopping at the first stock without a quote. */
  function Run(db: Db, stocks: seq<Stock>, quote: string -> MarketQuote, fetch: string -> seq<Entry>,
               score: string -> real, now: int): Outcome
    decreases |stocks|
  {
    if |stocks| == 0 then Outcome(db, [], None)
    else Advance(Run(db, stocks[..|stocks| - 1], quote, fetch, score, now), stocks[|stocks| - 1], quote, fetch, score, now)
  }

  /** What `run_pipeline` ends with: its early answer, its summary, or the exception. */
  datatype Report = NoStocks | Summary(lines: seq<Line>) | Failed(ticker: string)

  datatype CycleResult = CycleResult(report: Report, db: Db)

  /** `run_pipeline()` as a function of the store. */
  function Cycle(db: Db, quote: string -> MarketQuote, fetch: string -> seq<Entry>, score: string -> real, now: int): CycleResult {
    if |db.stocks| == 0 then CycleResult(NoStocks, db)
    else
      var o := Run(db, db.stocks, quote, fetch, score, now);
      CycleResult(if o.failed.Some? then Failed(o.failed.value) else Summary(o.lines), o.db)
  }

  /** The string `run_pipeline` returns, given how a price is printed; `None` when it raised. */
  function ReportText(r: Report, fmt: real -> string): Option<string> {
    match r
    case NoStocks => Some("No stocks tracked.")
    case Summary(lines) =>
      Some(Join(seq(|lines|, i requires 0 <= i < |lines| => lines[i].ticker + ": ₹" + fmt(lines[i].price)), " | "))
    case Failed(_) => None
  }

  /** One iteration of the loop in `run_pipeline`; returns the quote it fetched. */
  method ProcessStock(store: Store, stock: Stock, quote: string -> MarketQuote, fetch: string -> seq<Entry>,
                      score: string -> real, now: int) returns (q: MarketQuote)
    requires store.Valid()
    modifies store
    ensures store.Valid()
    ensures q == quote(stock.ticker)
    ensures store.Snapshot() == StockStep(old(store.Snapshot()), stock, quote, fetch, score, now)
  {
    var ticker := stock.ticker;
    q := quote(ticker);
    if q.Quoted? && q.price != 0.0 {
      store.LogMarketData(ticker, now, q.price, q.volume);
      var detection := DetectAnomalies(store, ticker, q.volume, stock.anomalyThresh);
      if detection.anomalous {
        store.LogAlert(ticker, now, AnomalyType, SpikeMessage);
      }
    }
    var avg, articles := FetchNewsSentiment(store, ticker, stock.searchTerm, fetch, score, now);
    if Abs(avg) > stock.sentimentThresh {
      store.LogAlert(ticker, now, SentimentType, ShiftMessage(avg));
    }
  }

  /** `run_pipeline()` against the store. */
  method RunPipeline(store: Store, quote: string -> MarketQuote, fetch: string -> seq<Entry>,
                     score: string -> real, now: int) returns (r: Report)
    requires store.Valid()
    modifies store
    ensures store.Valid()
    ensures Cycle(old(store.Snapshot()), quote, fetch, score, now) == CycleResult(r, store.Snapshot())
  {
    var stocks := store.GetTrackedStocks();
    if |stocks| == 0 {
      return NoStocks;
    }
    ghost var db0 := store.Snapshot();
    var lines: seq<Line> := [];
    var i := 0;
    while i < |stocks|
      invariant 0 <= i <= |stocks|
      invariant store.Valid()
      invariant Run(db0, stocks[..i], quote, fetch, score, now) == Outcome(store.Snapshot(), lines, None)
    {
      var stock := stocks[i];
      RunSnoc(db0, stocks, i, quote, fetch, score, now);
      var q := ProcessStock(store, stock, quote, fetch, score, now);
      if q.NoQuote? {
        RunStops(db0, stocks, i + 1, quote, fetch, score, now);
        return Failed(stock.ticker);
      }
      lines := lines + [Line(stock.ticker, q.price)];
      i := i + 1;
    }
    assert stocks[..i] == stocks;
    r := Summary(lines);
  }

  /** The run over one more stock is one more pass of the loop body. */
  lemma RunSnoc(db: Db, stocks: seq<Stock>, i: nat, quote: string -> MarketQuote,
                fetch: string -> seq<Entry>, score: string -> real, now: int)
    requires i < |stocks|
    ensures Run(db, stocks[..i + 1], quote, fetch, score, now) ==
            Advance(Run(db, stocks[..i], quote, fetch, score, now), stocks[i], quote, fetch, score, now)
  {
    assert stocks[..i + 1][..i] == stocks[..i];
  }

  /** Once a run has failed, the stocks after the failing one change nothing. */
  lemma {:induction false} RunStops(db: Db, stocks: seq<Stock>, k: nat, quote: string -> MarketQuote,
                                    fetch: string -> seq<Entry>, score: string -> real, now: int)
    requires k <= |stocks|
    requires Run(db, stocks[..k], quote, fetch, score, now).failed.Some?
    ensures Run(db, stocks, quote, fetch, score, now) == Run(db, stocks[..k], quote, fetch, score, now)
    decreases |stocks| - k
  {
    if k < |stocks| {
      var n := |stocks|;
      assert stocks[..n - 1][..k] == stocks[..k];
      RunStops(db, stocks[..n - 1], k, quote, fetch, score, now);
    } else {
      assert stocks[..k] == stocks;
    }
  }

  // ---- Properties ----

  /** With no tracked stock the cycle answers "No stocks tracked." and writes nothing. */
  lemma EmptyRegistry(db: Db, quote: string -> MarketQuote, fetch: string -> seq<Entry>, score: string -> real,
                      now: int, fmt: real -> string)
    requires db.stocks == []
    ensures Cycle(db, quote, fetch, score, now) == CycleResult(NoStocks, db)
    ensures ReportText(Cycle(db, quote, fetch, score, now).report, fmt) == Some("No stocks tracked.")
  {
  }

  /** The alert rows a list of alerts becomes when appended for one ticker at one time. */
  function NewRows(base: nat, ticker: string, now: int, data: seq<Alert>): (r: seq<Row<Alert>>)
    ensures |r| == |data|
    ensures forall i :: 0 <= i < |data| ==> r[i] == Row(base + i + 1, ticker, now, data[i])
  {
    seq(|data|, i requires 0 <= i < |data| => Row(base + i + 1, ticker, now, data[i]))
  }

  /** The alerts one stock's iteration raises, in order. */
  function ExpectedAlerts(db: Db, stock: Stock, q: MarketQuote, avg: real, now: int): seq<Alert> {
    (if Truthy(q) && Detect(Window(LogMarketData(db, stock.ticker, now, q.price, q.volume), stock.ticker),
                            q.volume, stock.anomalyThresh).anomalous
     then [Alert(AnomalyType, SpikeMessage)] else []) +
    (if Abs(avg) > stock.sentimentThresh then [Alert(SentimentType, ShiftMessage(avg))] else [])
  }

  /**
   * The market half: with a truthy price, exactly one market row for the
   * stock is appended, and the window tested starts with that very volume;
   * at most one ANOMALY alert follows, exactly when the detector flags. With
   * a missing or zero price nothing is written.
   */
  lemma MarketStepSpec(db: Db, stock: Stock, q: MarketQuote, now: int)
    requires Valid(db)
    ensures var r := MarketStep(db, stock, q, now);
      Valid(r) && r.stocks == db.stocks && r.sentiment == db.sentiment &&
      Extends(db.market, r.market) && Extends(db.alerts, r.alerts)
    ensures !Truthy(q) ==> MarketStep(db, stock, q, now) == db
    ensures Truthy(q) ==>
      var logged := LogMarketData(db, stock.ticker, now, q.price, q.volume);
      var r := MarketStep(db, stock, q, now);
      r.market == db.market + [Row(|db.market| + 1, stock.ticker, now, Quote(q.price, q.volume))] &&
      |Window(logged, stock.ticker)| > 0 && Window(logged, stock.ticker)[0] == q.volume &&
      (r.alerts == db.alerts + [Row(|db.alerts| + 1, stock.ticker, now, Alert(AnomalyType, SpikeMessage))] <==>
       Detect(Window(logged, stock.ticker), q.volume, stock.anomalyThresh).anomalous) &&
      (r.alerts == db.alerts <==> !Detect(Window(logged, stock.ticker), q.volume, stock.anomalyThresh).anomalous)
  {
    if Truthy(q) {
      var logged := LogMarketData(db, stock.ticker, now, q.price, q.volume);
      LogSpec(db, stock.ticker, now, q.price, q.volume, "", "", 0.0, AnomalyType, SpikeMessage);
      LogSpec(logged, stock.ticker, now, 0.0, 0, "", "", 0.0, AnomalyType, SpikeMessage);
      RecentVolumesAfterLog(db, stock.ticker, now, q.price, q.volume, WindowSize);
      ExtendsTransitive(db.alerts, logged.alerts, MarketStep(db, stock, q, now).alerts);
    }
  }

  /** A SENTIMENT alert is raised exactly when |avg| exceeds the stock's threshold. */
  lemma SentimentStepSpec(db: Db, stock: Stock, avg: real, now: int)
    requires Valid(db)
    ensures var r := SentimentStep(db, stock, avg, now);
      Valid(r) && r.stocks == db.stocks && r.market == db.market && r.sentiment == db.sentiment &&
      Extends(db.alerts, r.alerts)
    ensures var r := SentimentStep(db, stock, avg, now);
      (Abs(avg) > stock.sentimentThresh <==>
       r.alerts == db.alerts + [Row(|db.alerts| + 1, stock.ticker, now, Alert(SentimentType, ShiftMessage(avg)))]) &&
      (Abs(avg) <= stock.sentimentThresh <==> r.alerts == db.alerts)
  {
    LogSpec(db, stock.ticker, now, 0.0, 0, "", "", 0.0, SentimentType, ShiftMessage(avg));
  }

  /** The label is "Positive" exactly when the average is above zero, "Negative" otherwise. */
  lemma ShiftLabel(avg: real)
    ensures ShiftMessage(avg) == ShiftPrefix + "Positive" <==> avg > 0.0
    ensures ShiftMessage(avg) == ShiftPrefix + "Negative" <==> avg <= 0.0
  {
    assert "Positive" != "Negative";
    if avg > 0.0 {
      assert (ShiftPrefix + "Negative")[|ShiftPrefix|] != ShiftMessage(avg)[|ShiftPrefix|];
    } else {
      assert (ShiftPrefix + "Positive")[|ShiftPrefix|] != ShiftMessage(avg)[|ShiftPrefix|];
    }
  }

  /** The average the news step produces depends only on the feeds and the scorer, not on the store. */
  function NewsAverage(term: string, fetch: string -> seq<Entry>, score: string -> real): real {
    MeanOrZero(Sentiments(Processed(term, fetch), score))
  }

  /**
   * One stock's iteration: every table only grows and the registry stays;
   * exactly one market row when the price is truthy and none otherwise;
   * the alerts raised are the expected ANOMALY then SENTIMENT alerts, all
   * for this stock at time `now`.
   */
  lemma StockStepSpec(db: Db, stock: Stock, quote: string -> MarketQuote, fetch: string -> seq<Entry>,
                      score: string -> real, now: int)
    requires Valid(db)
    ensures var r := StockStep(db, stock, quote, fetch, score, now);
      Valid(r) && r.stocks == db.stocks &&
      Extends(db.market, r.market) && Extends(db.sentiment, r.sentiment) && Extends(db.alerts, r.alerts)
    ensures var r := StockStep(db, stock, quote, fetch, score, now);
      |r.market| == |db.market| + (if Truthy(quote(stock.ticker)) then 1 else 0)
    ensures var r := StockStep(db, stock, quote, fetch, score, now);
      r.alerts == db.alerts +
        NewRows(|db.alerts|, stock.ticker, now,
                ExpectedAlerts(db, stock, quote(stock.ticker), NewsAverage(stock.searchTerm, fetch, score), now))
  {
    var q := quote(stock.ticker);
    var m := MarketStep(db, stock, q, now);
    MarketStepSpec(db, stock, q, now);
    IngestLogs(m, stock.ticker, stock.searchTerm, fetch, score, now);
    var n := Ingest(m, stock.ticker, stock.searchTerm, fetch, score, now);
    assert n.average == NewsAverage(stock.searchTerm, fetch, score);
    StepsSpec(db, stock, q, n.average, now, m, n.db, StockStep(db, stock, quote, fetch, score, now));
  }

  /** The same for any news step that only appends sentiment rows. */
  lemma StepsSpec(db: Db, stock: Stock, q: MarketQuote, avg: real, now: int, m: Db, n: Db, r: Db)
    requires Valid(db)
    requires m == MarketStep(db, stock, q, now)
    requires Valid(n) && n.stocks == m.stocks && n.market == m.market && n.alerts == m.alerts
    requires Extends(m.sentiment, n.sentiment)
    requires r == SentimentStep(n, stock, avg, now)
    ensures Valid(r) && r.stocks == db.stocks &&
      Extends(db.market, r.market) && Extends(db.sentiment, r.sentiment) && Extends(db.alerts, r.alerts)
    ensures |r.market| == |db.market| + (if Truthy(q) then 1 else 0)
    ensures r.alerts == db.alerts + NewRows(|db.alerts|, stock.ticker, now, ExpectedAlerts(db, stock, q, avg, now))
  {
    MarketStepSpec(db, stock, q, now);
    SentimentStepSpec(n, stock, avg, now);
    ExtendsTransitive(db.market, m.market, r.market);
    ExtendsTransitive(db.sentiment, m.sentiment, r.sentiment);
    ExtendsTransitive(db.alerts, m.alerts, r.alerts);
    if Truthy(q) {
      assert |m.market| == |db.market| + 1;
    }
    StockStepAlerts(db, stock, q, avg, now, m, n, r);
  }

  lemma StockStepAlerts(db: Db, stock: Stock, q: MarketQuote, avg: real, now: int, m: Db, n: Db, r: Db)
    requires Valid(db)
    requires m == MarketStep(db, stock, q, now) && n.alerts == m.alerts && Valid(n)
    requires r == SentimentStep(n, stock, avg, now)
    ensures r.alerts == db.alerts + NewRows(|db.alerts|, stock.ticker, now, ExpectedAlerts(db, stock, q, avg, now))
  {
    MarketStepSpec(db, stock, q, now);
    SentimentStepSpec(n, stock, avg, now);
    var data := ExpectedAlerts(db, stock, q, avg, now);
    var rows := NewRows(|db.alerts|, stock.ticker, now, data);
    assert |r.alerts| == |db.alerts| + |rows|;
    forall i | 0 <= i < |r.alerts|
      ensures r.alerts[i] == (db.alerts + rows)[i]
    {
      if i >= |db.alerts| {
        assert i - |db.alerts| < |data|;
      }
    }
  }

  /**
   * The cycle only appends: the registry is unchanged, and every earlier
   * row of every log keeps its place.
   */
  lemma {:induction false} RunAppendOnly(db: Db, stocks: seq<Stock>, quote: string -> MarketQuote,
                                         fetch: string -> seq<Entry>, score: string -> real, now: int)
    requires Valid(db)
    ensures var o := Run(db, stocks, quote, fetch, score, now);
      Valid(o.db) && o.db.stocks == db.stocks &&
      Extends(db.market, o.db.market) && Extends(db.sentiment, o.db.sentiment) && Extends(db.alerts, o.db.alerts)
    decreases |stocks|
  {
    if |stocks| > 0 {
      var p := stocks[..|stocks| - 1];
      RunAppendOnly(db, p, quote, fetch, score, now);
      var o := Run(db, p, quote, fetch, score, now);
      if o.failed.None? {
        var s := stocks[|stocks| - 1];
        StockStepSpec(o.db, s, quote, fetch, score, now);
        var next := StockStep(o.db, s, quote, fetch, score, now);
        ExtendsTransitive(db.market, o.db.market, next.market);
        ExtendsTransitive(db.sentiment, o.db.sentiment, next.sentiment);
        ExtendsTransitive(db.alerts, o.db.alerts, next.alerts);
      }
    }
  }

  /** Every stock before position k has a quote. */
  ghost predicate QuotedBefore(stocks: seq<Stock>, quote: string -> MarketQuote, k: int) {
    forall j :: 0 <= j < k && j < |stocks| ==> quote(stocks[j].ticker).Quoted?
  }

  /** The summary and the stopping stock of a run, which depend only on the quotes. */
  function Summarize(stocks: seq<Stock>, quote: string -> MarketQuote): (seq<Line>, Option<string>)
    decreases |stocks|
  {
    if |stocks| == 0 then ([], None)
    else
      var (lines, failed) := Summarize(stocks[..|stocks| - 1], quote);
      var s := stocks[|stocks| - 1];
      if failed.Some? then (lines, failed)
      else match quote(s.ticker)
        case NoQuote => (lines, Some(s.ticker))
        case Quoted(p, _) => (lines + [Line(s.ticker, p)], None)
  }

  /** The store never influences the summary. */
  lemma {:induction false} RunSummarize(db: Db, stocks: seq<Stock>, quote: string -> MarketQuote,
                                        fetch: string -> seq<Entry>, score: string -> real, now: int)
    ensures var o := Run(db, stocks, quote, fetch, score, now);
      (o.lines, o.failed) == Summarize(stocks, quote)
    decreases |stocks|
  {
    if |stocks| > 0 {
      RunSummarize(db, stocks[..|stocks| - 1], quote, fetch, score, now);
    }
  }

  /**
   * The summary: when every stock has a quote, one line per stock in
   * registry order with its fetched price; otherwise the run stops at the
   * first stock without a quote, with one line for each stock before it.
   */
  lemma {:induction false} SummarizeSpec(stocks: seq<Stock>, quote: string -> MarketQuote)
    ensures var (lines, failed) := Summarize(stocks, quote);
      failed.None? <==> QuotedBefore(stocks, quote, |stocks|)
    ensures var (lines, failed) := Summarize(stocks, quote);
      failed.None? ==> (|lines| == |stocks| &&
        forall i :: 0 <= i < |stocks| ==> lines[i] == Line(stocks[i].ticker, quote(stocks[i].ticker).price))
    ensures var (lines, failed) := Summarize(stocks, quote);
      failed.Some? ==> exists k :: (0 <= k < |stocks| && QuotedBefore(stocks, quote, k) &&
        quote(stocks[k].ticker).NoQuote? && failed.value == stocks[k].ticker && |lines| == k)
    decreases |stocks|
  {
    if |stocks| > 0 {
      var n := |stocks| - 1;
      var p := stocks[..n];
      SummarizeSpec(p, quote);
      var (lines, failed) := Summarize(p, quote);
      assert forall j :: 0 <= j < n ==> p[j] == stocks[j];
      if failed.Some? {
        var k :| 0 <= k < |p| && QuotedBefore(p, quote, k) &&
          quote(p[k].ticker).NoQuote? && failed.value == p[k].ticker && |lines| == k;
        assert QuotedBefore(stocks, quote, k);
        assert !QuotedBefore(stocks, quote, |stocks|) by {
          assert quote(stocks[k].ticker).NoQuote?;
        }
      } else if quote(stocks[n].ticker).NoQuote? {
        assert QuotedBefore(stocks, quote, n);
      }
    }
  }

  /**
   * `run_pipeline()`: no answer but "No stocks tracked." on an empty
   * registry; otherwise a summary of every stock exactly when every quote
   * came back, and the registry unchanged and every log only appended.
   */
  lemma CycleSpec(db: Db, quote: string -> MarketQuote, fetch: string -> seq<Entry>, score: string -> real, now: int)
    requires Valid(db)
    ensures var c := Cycle(db, quote, fetch, score, now);
      Valid(c.db) && c.db.stocks == db.stocks &&
      Extends(db.market, c.db.market) && Extends(db.sentiment, c.db.sentiment) && Extends(db.alerts, c.db.alerts)
    ensures var c := Cycle(db, quote, fetch, score, now);
      (c.report == NoStocks <==> |db.stocks| == 0) &&
      (c.report.Summary? <==> |db.stocks| > 0 && QuotedBefore(db.stocks, quote, |db.stocks|)) &&
      (c.report.Summary? ==> |c.report.lines| == |db.stocks|)
  {
    if |db.stocks| > 0 {
      RunAppendOnly(db, db.stocks, quote, fetch, score, now);
      RunSummarize(db, db.stocks, quote, fetch, score, now);
      SummarizeSpec(db.stocks, quote);
    }
  }
}
