/**
 * The SQLite store as an object: one field per table, and one method per
 * data-access function, each changing the tables exactly as the matching
 * function of module Tables says.
 */
module Database {
  import opened Text
  import opened Log
  import opened Tables

  class Store {
    var stocks: seq<Stock>
    var market: seq<Row<Quote>>
    var sentiment: seq<Row<Mention>>
    var alerts: seq<Row<Alert>>

    /** The contents of the four tables. */
    function Snapshot(): Db
      reads this
    {
      Db(stocks, market, sentiment, alerts)
    }

    predicate Valid()
      reads this
    {
      Tables.Valid(Snapshot())
    }

    /** `init_db()` on a new database file. */
    constructor ()
      ensures Valid()
      ensures Snapshot() == Tables.Empty()
    {
      stocks := [];
      market := [];
      sentiment := [];
      alerts := [];
    }

    /** `add_stock(ticker, term, sent_thresh, anom_thresh)` */
    method AddStock(ticker: string, term: string, sentThresh: real, anomThresh: real)
      requires Valid()
      modifies this
      ensures Valid()
      ensures Snapshot() == Tables.AddStock(old(Snapshot()), ticker, term, sentThresh, anomThresh)
    {
      AddStockSpec(Snapshot(), ticker, term, sentThresh, anomThresh);
      var key := Upper(ticker);
      stocks := Without(stocks, key) + [Stock(key, term, sentThresh, anomThresh)];
    }

    /** `update_stock_thresholds(ticker, sent_thresh, anom_thresh)` */
    method UpdateStockThresholds(ticker: string, sentThresh: real, anomThresh: real)
      requires Valid()
      modifies this
      ensures Valid()
      ensures Snapshot() == Tables.UpdateThresholds(old(Snapshot()), ticker, sentThresh, anomThresh)
    {
      UpdateThresholdsSpec(Snapshot(), ticker, sentThresh, anomThresh);
      stocks := SetThresholds(stocks, ticker, sentThresh, anomThresh);
    }

    /** `get_tracked_stocks()`: every row, in rowid order. */
    method GetTrackedStocks() returns (r: seq<Stock>)
      requires Valid()
      ensures r == stocks
      ensures UniqueTickers(r)
    {
      r := stocks;
    }

    /** `remove_stock(ticker)` */
    method RemoveStock(ticker: string)
      requires Valid()
      modifies this
      ensures Valid()
      ensures Snapshot() == Tables.RemoveStock(old(Snapshot()), ticker)
    {
      RemoveStockSpec(Snapshot(), ticker);
      stocks := Without(stocks, ticker);
    }

    /** `log_market_data(ticker, price, volume)`, stamped `now`. */
    method LogMarketData(ticker: string, now: int, price: real, volume: int)
      requires Valid()
      modifies this
      ensures Valid()
      ensures Snapshot() == Tables.LogMarketData(old(Snapshot()), ticker, now, price, volume)
    {
      LogSpec(Snapshot(), ticker, now, price, volume, "", "", 0.0, "", "");
      market := Append(market, ticker, now, Quote(price, volume));
    }

    /** `log_sentiment(ticker, source, content, score)`, stamped `now`. */
    method LogSentiment(ticker: string, now: int, source: string, content: string, score: real)
      requires Valid()
      modifies this
      ensures Valid()
      ensures Snapshot() == Tables.LogSentiment(old(Snapshot()), ticker, now, source, content, score)
    {
      LogSpec(Snapshot(), ticker, now, 0.0, 0, source, content, score, "", "");
      sentiment := Append(sentiment, ticker, now, Mention(source, content, score));
    }

    /** `log_alert(ticker, alert_type, message)`, stamped `now`. */
    method LogAlert(ticker: string, now: int, alertType: string, message: string)
      requires Valid()
      modifies this
      ensures Valid()
      ensures Snapshot() == Tables.LogAlert(old(Snapshot()), ticker, now, alertType, message)
    {
      LogSpec(Snapshot(), ticker, now, 0.0, 0, "", "", 0.0, alertType, message);
      alerts := Append(alerts, ticker, now, Alert(alertType, message));
    }

    /** `fetch_recent_alerts(limit)`: the newest `limit` alerts of every ticker, newest first. */
    method FetchRecentAlerts(limit: int) returns (r: seq<Row<Alert>>)
      requires Valid()
      ensures r == Tables.FetchRecentAlerts(Snapshot(), limit)
      ensures |r| == LimitCount(|alerts|, limit)
      ensures forall i :: 0 <= i < |r| ==> r[i] == alerts[|alerts| - 1 - i]
      ensures forall i, j :: 0 <= i < j < |r| ==> r[i].id > r[j].id
    {
      FetchRecentAlertsSpec(Snapshot(), limit);
      r := Newest(alerts, limit);
    }

    /** `fetch_chart_data(ticker, limit)`: the newest `limit` market rows of the ticker, newest first. */
    method FetchChartData(ticker: string, limit: int) returns (r: seq<Row<Quote>>)
      requires Valid()
      ensures r == Tables.FetchChartData(Snapshot(), ticker, limit)
      ensures limit >= 0 ==> |r| <= limit
      ensures forall x :: x in r ==> x in market && x.ticker == ticker
      ensures forall i, j :: 0 <= i < j < |r| ==> r[i].id > r[j].id
    {
      FetchChartDataSpec(Snapshot(), ticker, limit);
      r := NewestOf(market, ticker, limit);
    }
  }
}
