/**
 * The four tables of the SQLite store as one value, and each data-access
 * operation as a function from the old value to the new one. The
 * `tracked_stocks` table is keyed by ticker; the other three are
 * append-only logs (module Log).
 *
 * `tracked_stocks` is kept as a sequence in rowid order, which is the order
 * `SELECT *` returns: `INSERT OR REPLACE` deletes the old row and inserts a
 * new one, so a re-added ticker moves to the end. `Registry` is the keyed
 * view of it.
 */
module Tables {
  import opened Text
  import opened Log

  /** Column defaults of `tracked_stocks`, also the defaults of `add_stock`. */
  const DefaultSentimentThresh: real := 0.2
  const DefaultAnomalyThresh: real := 3.0

  datatype Stock = Stock(ticker: string, searchTerm: string, sentimentThresh: real, anomalyThresh: real)

  /** The `price` and `volume` columns of `market_data`. */
  datatype Quote = Quote(price: real, volume: int)

  /** The `source`, `content` and `sentiment_score` columns of `sentiment_data`. */
  datatype Mention = Mention(source: string, content: string, score: real)

  /** The `alert_type` and `message` columns of `alerts`. */
  datatype Alert = Alert(alertType: string, message: string)

  datatype Db = Db(
    stocks: seq<Stock>,
    market: seq<Row<Quote>>,
    sentiment: seq<Row<Mention>>,
    alerts: seq<Row<Alert>>)

  /** `ticker TEXT PRIMARY KEY` */
  predicate UniqueTickers(stocks: seq<Stock>) {
    forall i, j :: 0 <= i < j < |stocks| ==> stocks[i].ticker != stocks[j].ticker
  }

  predicate Valid(db: Db) {
    UniqueTickers(db.stocks) && Numbered(db.market) && Numbered(db.sentiment) && Numbered(db.alerts)
  }

  /** `init_db` on a new database file: four empty tables. */
  function Empty(): (db: Db)
    ensures Valid(db)
    ensures db.stocks == [] && db.market == [] && db.sentiment == [] && db.alerts == []
  {
    Db([], [], [], [])
  }

  /** The registry as a map from ticker to its row. */
  function Registry(stocks: seq<Stock>): map<string, Stock>
    decreases |stocks|
  {
    if |stocks| == 0 then map[]
    else Registry(stocks[..|stocks| - 1])[stocks[|stocks| - 1].ticker := stocks[|stocks| - 1]]
  }

  /** The keys of the registry are the tickers of the rows. */
  lemma {:induction false} RegistryKeys(stocks: seq<Stock>)
    ensures forall t :: t in Registry(stocks) <==> exists i :: 0 <= i < |stocks| && stocks[i].ticker == t
    decreases |stocks|
  {
    if |stocks| > 0 {
      var p := stocks[..|stocks| - 1];
      var last := stocks[|stocks| - 1];
      RegistryKeys(p);
      forall t | t in Registry(stocks)
        ensures exists i :: 0 <= i < |stocks| && stocks[i].ticker == t
      {
        if t != last.ticker {
          assert t in Registry(p);
          var i :| 0 <= i < |p| && p[i].ticker == t;
          assert stocks[i] == p[i];
        }
      }
      forall t | exists i :: 0 <= i < |stocks| && stocks[i].ticker == t
        ensures t in Registry(stocks)
      {
        var i :| 0 <= i < |stocks| && stocks[i].ticker == t;
        if i < |p| {
          assert p[i] == stocks[i];
        }
      }
    }
  }

  /** With unique keys, each key maps to its own row. */
  lemma {:induction false} RegistryRows(stocks: seq<Stock>)
    requires UniqueTickers(stocks)
    ensures forall i :: 0 <= i < |stocks| ==> stocks[i].ticker in Registry(stocks)
    ensures forall i :: 0 <= i < |stocks| ==> Registry(stocks)[stocks[i].ticker] == stocks[i]
    decreases |stocks|
  {
    RegistryKeys(stocks);
    if |stocks| > 0 {
      var p := stocks[..|stocks| - 1];
      RegistryKeys(p);
      RegistryRows(p);
      forall i | 0 <= i < |stocks| - 1
        ensures Registry(stocks)[stocks[i].ticker] == stocks[i]
      {
        assert stocks[i] == p[i];
      }
    }
  }

  /** `DELETE FROM tracked_stocks WHERE ticker = t`, keeping rowid order. */
  function Without(stocks: seq<Stock>, t: string): seq<Stock>
    decreases |stocks|
  {
    if |stocks| == 0 then []
    else if stocks[|stocks| - 1].ticker == t then Without(stocks[..|stocks| - 1], t)
    else Without(stocks[..|stocks| - 1], t) + [stocks[|stocks| - 1]]
  }

  /** Deleting keeps exactly the rows of other tickers. */
  lemma {:induction false} WithoutMembers(stocks: seq<Stock>, t: string)
    ensures forall x :: x in Without(stocks, t) <==> x in stocks && x.ticker != t
    decreases |stocks|
  {
    if |stocks| > 0 {
      var p := stocks[..|stocks| - 1];
      WithoutMembers(p, t);
      assert stocks == p + [stocks[|stocks| - 1]];
    }
  }

  /** Deleting a key removes exactly that key from the registry. */
  lemma {:induction false} WithoutRegistry(stocks: seq<Stock>, t: string)
    ensures Registry(Without(stocks, t)) == Registry(stocks) - {t}
    decreases |stocks|
  {
    if |stocks| > 0 {
      var p := stocks[..|stocks| - 1];
      var last := stocks[|stocks| - 1];
      WithoutRegistry(p, t);
      if last.ticker != t {
        assert Without(stocks, t) == Without(p, t) + [last];
        RemoveThenSet(Registry(p), t, last.ticker, last);
      } else {
        assert Without(stocks, t) == Without(p, t);
        SetThenRemove(Registry(p), t, last);
      }
    }
  }

  lemma RemoveThenSet(m: map<string, Stock>, t: string, k: string, v: Stock)
    requires k != t
    ensures (m - {t})[k := v] == m[k := v] - {t}
  {
  }

  lemma SetThenRemove(m: map<string, Stock>, t: string, v: Stock)
    ensures m - {t} == m[t := v] - {t}
  {
  }

  /** Deleting keeps the keys unique. */
  lemma {:induction false} WithoutUnique(stocks: seq<Stock>, t: string)
    requires UniqueTickers(stocks)
    ensures UniqueTickers(Without(stocks, t))
    decreases |stocks|
  {
    if |stocks| > 0 {
      var p := stocks[..|stocks| - 1];
      var last := stocks[|stocks| - 1];
      WithoutUnique(p, t);
      if last.ticker != t {
        var w := Without(p, t);
        WithoutMembers(p, t);
        forall i | 0 <= i < |w|
          ensures w[i].ticker != last.ticker
        {
          assert w[i] in w;
          var k :| 0 <= k < |p| && p[k] == w[i];
          assert stocks[k] == p[k];
        }
      }
    }
  }

  /** `INSERT OR REPLACE INTO tracked_stocks VALUES (ticker.upper(), term, s, a)` */
  function AddStock(db: Db, ticker: string, term: string, sentThresh: real, anomThresh: real): Db {
    var key := Upper(ticker);
    db.(stocks := Without(db.stocks, key) + [Stock(key, term, sentThresh, anomThresh)])
  }

  /**
   * Adding stores the upper-cased ticker with the given term and thresholds,
   * replacing any row of that ticker, so exactly one row has that key; every
   * other row and every log is unchanged.
   */
  lemma AddStockSpec(db: Db, ticker: string, term: string, sentThresh: real, anomThresh: real)
    requires Valid(db)
    ensures var db' := AddStock(db, ticker, term, sentThresh, anomThresh);
      Valid(db') &&
      Registry(db'.stocks) == Registry(db.stocks)[Upper(ticker) := Stock(Upper(ticker), term, sentThresh, anomThresh)] &&
      (forall i :: 0 <= i < |db'.stocks| && db'.stocks[i].ticker == Upper(ticker) ==> i == |db'.stocks| - 1) &&
      db'.market == db.market && db'.sentiment == db.sentiment && db'.alerts == db.alerts
  {
    var key := Upper(ticker);
    var w := Without(db.stocks, key);
    var row := Stock(key, term, sentThresh, anomThresh);
    var s' := w + [row];
    assert s'[..|s'| - 1] == w;
    WithoutRegistry(db.stocks, key);
    RemoveThenSetSame(Registry(db.stocks), key, row);
    WithoutUnique(db.stocks, key);
    WithoutMembers(db.stocks, key);
    AppendUnique(w, row);
  }

  lemma RemoveThenSetSame(m: map<string, Stock>, t: string, v: Stock)
    ensures (m - {t})[t := v] == m[t := v]
  {
  }

  /** A row whose key no row of `w` has can be appended keeping keys unique, and it is the only row of its key. */
  lemma AppendUnique(w: seq<Stock>, row: Stock)
    requires UniqueTickers(w)
    requires forall x :: x in w ==> x.ticker != row.ticker
    ensures UniqueTickers(w + [row])
    ensures forall i :: 0 <= i < |w + [row]| && (w + [row])[i].ticker == row.ticker ==> i == |w|
  {
    forall i | 0 <= i < |w|
      ensures w[i].ticker != row.ticker
    {
      assert w[i] in w;
    }
  }

  /** `add_stock(ticker, term)` with its default thresholds. */
  lemma AddStockDefaults(db: Db, ticker: string, term: string)
    requires Valid(db)
    ensures Registry(AddStock(db, ticker, term, DefaultSentimentThresh, DefaultAnomalyThresh).stocks)[Upper(ticker)]
      == Stock(Upper(ticker), term, 0.2, 3.0)
  {
    AddStockSpec(db, ticker, term, DefaultSentimentThresh, DefaultAnomalyThresh);
  }

  function SetThresholds(stocks: seq<Stock>, t: string, sentThresh: real, anomThresh: real): seq<Stock>
    decreases |stocks|
  {
    if |stocks| == 0 then []
    else
      var last := stocks[|stocks| - 1];
      var last' := if last.ticker == t then last.(sentimentThresh := sentThresh, anomalyThresh := anomThresh) else last;
      SetThresholds(stocks[..|stocks| - 1], t, sentThresh, anomThresh) + [last']
  }

  /** `UPDATE tracked_stocks SET sentiment_thresh = ?, anomaly_thresh = ? WHERE ticker = ?` */
  function UpdateThresholds(db: Db, ticker: string, sentThresh: real, anomThresh: real): Db {
    db.(stocks := SetThresholds(db.stocks, ticker, sentThresh, anomThresh))
  }

  lemma {:induction false} SetThresholdsRows(stocks: seq<Stock>, t: string, s: real, a: real)
    ensures |SetThresholds(stocks, t, s, a)| == |stocks|
    ensures forall i :: 0 <= i < |stocks| ==>
      SetThresholds(stocks, t, s, a)[i] ==
        if stocks[i].ticker == t then stocks[i].(sentimentThresh := s, anomalyThresh := a) else stocks[i]
    decreases |stocks|
  {
    if |stocks| > 0 {
      SetThresholdsRows(stocks[..|stocks| - 1], t, s, a);
    }
  }

  /**
   * Updating the thresholds of `ticker` (matched exactly, not upper-cased)
   * changes only the two threshold fields of its row; with no such row it
   * changes nothing. Row order, tickers, terms and the logs are kept.
   */
  lemma UpdateThresholdsSpec(db: Db, ticker: string, sentThresh: real, anomThresh: real)
    requires Valid(db)
    ensures var db' := UpdateThresholds(db, ticker, sentThresh, anomThresh);
      Valid(db') &&
      Registry(db'.stocks) == Retuned(Registry(db.stocks), ticker, sentThresh, anomThresh) &&
      (ticker !in Registry(db.stocks) ==> db' == db) &&
      |db'.stocks| == |db.stocks| &&
      (forall i :: 0 <= i < |db.stocks| ==>
        db'.stocks[i].ticker == db.stocks[i].ticker && db'.stocks[i].searchTerm == db.stocks[i].searchTerm) &&
      db'.market == db.market && db'.sentiment == db.sentiment && db'.alerts == db.alerts
  {
    SetThresholdsRows(db.stocks, ticker, sentThresh, anomThresh);
    SetThresholdsRegistry(db.stocks, ticker, sentThresh, anomThresh);
    SetThresholdsUnique(db.stocks, ticker, sentThresh, anomThresh);
    if ticker !in Registry(db.stocks) {
      SetThresholdsNoMatch(db.stocks, ticker, sentThresh, anomThresh);
    }
  }

  lemma SetThresholdsUnique(stocks: seq<Stock>, t: string, s: real, a: real)
    requires UniqueTickers(stocks)
    ensures UniqueTickers(SetThresholds(stocks, t, s, a))
  {
    var s' := SetThresholds(stocks, t, s, a);
    SetThresholdsRows(stocks, t, s, a);
    forall i, j | 0 <= i < j < |s'|
      ensures s'[i].ticker != s'[j].ticker
    {
      assert s'[i].ticker == stocks[i].ticker && s'[j].ticker == stocks[j].ticker;
    }
  }

  lemma SetThresholdsNoMatch(stocks: seq<Stock>, t: string, s: real, a: real)
    requires t !in Registry(stocks)
    ensures SetThresholds(stocks, t, s, a) == stocks
  {
    var s' := SetThresholds(stocks, t, s, a);
    SetThresholdsRows(stocks, t, s, a);
    RegistryKeys(stocks);
    forall i | 0 <= i < |stocks|
      ensures s'[i] == stocks[i]
    {
      assert stocks[i].ticker != t;
    }
  }

  /** The registry with the thresholds of `t` replaced, if `t` is a key. */
  function Retuned(reg: map<string, Stock>, t: string, sentThresh: real, anomThresh: real): map<string, Stock> {
    if t in reg then reg[t := reg[t].(sentimentThresh := sentThresh, anomalyThresh := anomThresh)] else reg
  }

  lemma {:induction false} SetThresholdsRegistry(stocks: seq<Stock>, t: string, s: real, a: real)
    ensures Registry(SetThresholds(stocks, t, s, a)) == Retuned(Registry(stocks), t, s, a)
    decreases |stocks|
  {
    if |stocks| > 0 {
      var p := stocks[..|stocks| - 1];
      var last := stocks[|stocks| - 1];
      SetThresholdsRegistry(p, t, s, a);
      var q := SetThresholds(p, t, s, a);
      var last' := if last.ticker == t then last.(sentimentThresh := s, anomalyThresh := a) else last;
      RegistrySnoc(q, last');
      assert Registry(SetThresholds(stocks, t, s, a)) == Registry(q)[last.ticker := last'];
      RetunedSnoc(Registry(p), last, t, s, a);
    }
  }

  lemma RegistrySnoc(q: seq<Stock>, row: Stock)
    ensures Registry(q + [row]) == Registry(q)[row.ticker := row]
  {
    assert (q + [row])[..|q|] == q;
  }

  /** Re-tuning commutes with adding one more row. */
  lemma RetunedSnoc(reg: map<string, Stock>, last: Stock, t: string, s: real, a: real)
    ensures var last' := if last.ticker == t then last.(sentimentThresh := s, anomalyThresh := a) else last;
      Retuned(reg, t, s, a)[last.ticker := last'] == Retuned(reg[last.ticker := last], t, s, a)
  {
  }

  /** `DELETE FROM tracked_stocks WHERE ticker = ?` */
  function RemoveStock(db: Db, ticker: string): Db {
    db.(stocks := Without(db.stocks, ticker))
  }

  /** Removing takes exactly that key out of the registry and leaves every log row of it in place. */
  lemma RemoveStockSpec(db: Db, ticker: string)
    requires Valid(db)
    ensures var db' := RemoveStock(db, ticker);
      Valid(db') &&
      Registry(db'.stocks) == Registry(db.stocks) - {ticker} &&
      db'.market == db.market && db'.sentiment == db.sentiment && db'.alerts == db.alerts
  {
    WithoutRegistry(db.stocks, ticker);
    WithoutUnique(db.stocks, ticker);
  }

  /** `log_market_data(ticker, price, volume)` at time `now`. */
  function LogMarketData(db: Db, ticker: string, now: int, price: real, volume: int): Db {
    db.(market := Append(db.market, ticker, now, Quote(price, volume)))
  }

  /** `log_sentiment(ticker, source, content, score)` at time `now`. */
  function LogSentiment(db: Db, ticker: string, now: int, source: string, content: string, score: real): Db {
    db.(sentiment := Append(db.sentiment, ticker, now, Mention(source, content, score)))
  }

  /** `log_alert(ticker, alert_type, message)` at time `now`. */
  function LogAlert(db: Db, ticker: string, now: int, alertType: string, message: string): Db {
    db.(alerts := Append(db.alerts, ticker, now, Alert(alertType, message)))
  }

  /**
   * Each log call appends one row to its own table, with an id above every
   * existing id, and leaves every other row of every table as it was.
   */
  lemma LogSpec(db: Db, ticker: string, now: int, price: real, volume: int,
                source: string, content: string, score: real, alertType: string, message: string)
    requires Valid(db)
    ensures var m := LogMarketData(db, ticker, now, price, volume);
      Valid(m) && |m.market| == |db.market| + 1 && Extends(db.market, m.market) &&
      m.market[|db.market|] == Row(|db.market| + 1, ticker, now, Quote(price, volume)) &&
      (forall i :: 0 <= i < |db.market| ==> db.market[i].id < m.market[|db.market|].id) &&
      m.stocks == db.stocks && m.sentiment == db.sentiment && m.alerts == db.alerts
    ensures var s := LogSentiment(db, ticker, now, source, content, score);
      Valid(s) && |s.sentiment| == |db.sentiment| + 1 && Extends(db.sentiment, s.sentiment) &&
      s.sentiment[|db.sentiment|] == Row(|db.sentiment| + 1, ticker, now, Mention(source, content, score)) &&
      (forall i :: 0 <= i < |db.sentiment| ==> db.sentiment[i].id < s.sentiment[|db.sentiment|].id) &&
      s.stocks == db.stocks && s.market == db.market && s.alerts == db.alerts
    ensures var a := LogAlert(db, ticker, now, alertType, message);
      Valid(a) && |a.alerts| == |db.alerts| + 1 && Extends(db.alerts, a.alerts) &&
      a.alerts[|db.alerts|] == Row(|db.alerts| + 1, ticker, now, Alert(alertType, message)) &&
      (forall i :: 0 <= i < |db.alerts| ==> db.alerts[i].id < a.alerts[|db.alerts|].id) &&
      a.stocks == db.stocks && a.market == db.market && a.sentiment == db.sentiment
  {
    AppendFresh(db.market, ticker, now, Quote(price, volume));
    AppendFresh(db.sentiment, ticker, now, Mention(source, content, score));
    AppendFresh(db.alerts, ticker, now, Alert(alertType, message));
  }

  /** `SELECT * FROM alerts ORDER BY id DESC LIMIT limit`, over every ticker. */
  function FetchRecentAlerts(db: Db, limit: int): seq<Row<Alert>> {
    Newest(db.alerts, limit)
  }

  /** `SELECT timestamp, price FROM market_data WHERE ticker = t ORDER BY id DESC LIMIT limit` */
  function FetchChartData(db: Db, ticker: string, limit: int): seq<Row<Quote>> {
    NewestOf(db.market, ticker, limit)
  }

  function Volumes(rows: seq<Row<Quote>>): (v: seq<int>)
    ensures |v| == |rows|
    ensures forall i :: 0 <= i < |rows| ==> v[i] == rows[i].data.volume
  {
    seq(|rows|, i requires 0 <= i < |rows| => rows[i].data.volume)
  }

  /** `SELECT volume FROM market_data WHERE ticker = t ORDER BY id DESC LIMIT n` */
  function RecentVolumes(db: Db, ticker: string, n: int): seq<int> {
    Volumes(NewestOf(db.market, ticker, n))
  }

  function Scores(rows: seq<Row<Mention>>): (v: seq<real>)
    ensures |v| == |rows|
    ensures forall i :: 0 <= i < |rows| ==> v[i] == rows[i].data.score
  {
    seq(|rows|, i requires 0 <= i < |rows| => rows[i].data.score)
  }

  /** `SELECT * FROM sentiment_data WHERE ticker = t ORDER BY id DESC LIMIT n`, its scores. */
  function RecentScores(db: Db, ticker: string, n: int): seq<real> {
    Scores(NewestOf(db.sentiment, ticker, n))
  }

  /** Recent alerts: at most `limit` of them (all when negative), newest id first, and the ones left out are older. */
  lemma FetchRecentAlertsSpec(db: Db, limit: int)
    requires Valid(db)
    ensures |FetchRecentAlerts(db, limit)| == LimitCount(|db.alerts|, limit)
    ensures forall i, j :: 0 <= i < j < |FetchRecentAlerts(db, limit)| ==>
      FetchRecentAlerts(db, limit)[i].id > FetchRecentAlerts(db, limit)[j].id
    ensures forall i :: 0 <= i < |FetchRecentAlerts(db, limit)| ==>
      FetchRecentAlerts(db, limit)[i] == db.alerts[|db.alerts| - 1 - i]
  {
    NumberedIncreasing(db.alerts);
    NewestRows(db.alerts, limit);
    NewestOrder(db.alerts, limit);
  }

  /** Chart data: at most `limit` rows, all of that ticker, newest id first, and the ones left out are older. */
  lemma FetchChartDataSpec(db: Db, ticker: string, limit: int)
    requires Valid(db)
    ensures limit >= 0 ==> |FetchChartData(db, ticker, limit)| <= limit
    ensures forall x :: x in FetchChartData(db, ticker, limit) ==> x in db.market && x.ticker == ticker
    ensures forall i, j :: 0 <= i < j < |FetchChartData(db, ticker, limit)| ==>
      FetchChartData(db, ticker, limit)[i].id > FetchChartData(db, ticker, limit)[j].id
    ensures forall x, i ::
      (x in db.market && x.ticker == ticker && x !in FetchChartData(db, ticker, limit) &&
       0 <= i < |FetchChartData(db, ticker, limit)|) ==> x.id < FetchChartData(db, ticker, limit)[i].id
  {
    NewestOfSpec(db.market, ticker, limit);
  }

  /**
   * A volume window any more market rows for other tickers leave alone, and
   * whose first entry is at once the volume just logged for this ticker.
   */
  lemma RecentVolumesAfterLog(db: Db, ticker: string, now: int, price: real, volume: int, n: int)
    requires n != 0
    ensures var w := RecentVolumes(LogMarketData(db, ticker, now, price, volume), ticker, n);
      |w| > 0 && w[0] == volume
  {
    AppendVisible(db.market, ticker, now, Quote(price, volume), n);
  }

  lemma RecentVolumesOtherTicker(db: Db, u: string, now: int, price: real, volume: int, t: string, n: int)
    requires u != t
    ensures RecentVolumes(LogMarketData(db, u, now, price, volume), t, n) == RecentVolumes(db, t, n)
  {
    AppendOther(db.market, u, now, Quote(price, volume), t);
  }
}
