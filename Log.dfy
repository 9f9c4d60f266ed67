/**
 * An append-only table with an auto-increment id, as the `market_data`,
 * `sentiment_data` and `alerts` tables are used: rows are only ever
 * inserted, and readers ask for "rows of this ticker, ORDER BY id DESC
 * LIMIT n".
 */
module Log {

  /** One row: its id, the ticker column, the timestamp column, and the rest. */
  datatype Row<T> = Row(id: nat, ticker: string, timestamp: int, data: T)

  /**
   * `INTEGER PRIMARY KEY AUTOINCREMENT` on a table nothing is deleted from:
   * the i-th row inserted has id i + 1.
   */
  predicate Numbered<T>(log: seq<Row<T>>) {
    forall i :: 0 <= i < |log| ==> log[i].id == i + 1
  }

  /** An `INSERT` of one row; the id is the next one the table hands out. */
  function Append<T>(log: seq<Row<T>>, ticker: string, timestamp: int, data: T): seq<Row<T>> {
    log + [Row(|log| + 1, ticker, timestamp, data)]
  }

  /** The appended row has an id above every existing id, and nothing else moves. */
  lemma AppendFresh<T>(log: seq<Row<T>>, ticker: string, timestamp: int, data: T)
    requires Numbered(log)
    ensures Numbered(Append(log, ticker, timestamp, data))
    ensures var r := Append(log, ticker, timestamp, data);
      |r| == |log| + 1 && r[..|log|] == log &&
      r[|log|].ticker == ticker && r[|log|].timestamp == timestamp && r[|log|].data == data &&
      forall i :: 0 <= i < |log| ==> log[i].id < r[|log|].id
  {
    var r := Append(log, ticker, timestamp, data);
    assert r[..|log|] == log;
  }

  /** Newest first: the order of `ORDER BY id DESC` on a numbered table. */
  function Reverse<T>(s: seq<T>): (r: seq<T>)
    ensures |r| == |s|
    ensures forall i :: 0 <= i < |s| ==> r[i] == s[|s| - 1 - i]
    decreases |s|
  {
    if |s| == 0 then [] else [s[|s| - 1]] + Reverse(s[..|s| - 1])
  }

  /** `LIMIT n`; SQLite reads a negative limit as "no limit". */
  function Limit<T>(s: seq<T>, n: int): seq<T> {
    if n < 0 || n >= |s| then s else s[..n]
  }

  /** A prefix one longer is the prefix and the next element. */
  lemma TakeOneMore<T>(s: seq<T>, j: nat)
    requires j < |s|
    ensures s[..j + 1] == s[..j] + [s[j]]
  {
    assert s[..j + 1] == s[..j] + [s[j]];
  }

  /** Reading one more element of `s` after `done`. */
  lemma ReadOneMore<T>(done: seq<T>, s: seq<T>, j: nat)
    requires j < |s|
    ensures done + s[..j + 1] == (done + s[..j]) + [s[j]]
  {
    TakeOneMore(s, j);
  }

  /** How many rows `LIMIT n` keeps out of `count`. */
  function LimitCount(count: nat, n: int): nat {
    if n < 0 || n >= count then count else n
  }

  /** `SELECT * ORDER BY id DESC LIMIT n` */
  function Newest<T>(log: seq<Row<T>>, n: int): seq<Row<T>> {
    Limit(Reverse(log), n)
  }

  /** `WHERE ticker = t`, keeping table order. */
  function OfTicker<T>(log: seq<Row<T>>, t: string): seq<Row<T>>
    decreases |log|
  {
    if |log| == 0 then []
    else if log[|log| - 1].ticker == t then OfTicker(log[..|log| - 1], t) + [log[|log| - 1]]
    else OfTicker(log[..|log| - 1], t)
  }

  /** `SELECT * WHERE ticker = t ORDER BY id DESC LIMIT n` */
  function NewestOf<T>(log: seq<Row<T>>, t: string, n: int): seq<Row<T>> {
    Newest(OfTicker(log, t), n)
  }

  /** Ids strictly increase along the sequence. */
  predicate Increasing<T>(s: seq<Row<T>>) {
    forall i, j :: 0 <= i < j < |s| ==> s[i].id < s[j].id
  }

  /**
   * `Newest(log, n)` is the `LimitCount(|log|, n)` last rows of the table,
   * last inserted first.
   */
  lemma NewestRows<T>(log: seq<Row<T>>, n: int)
    ensures |Newest(log, n)| == LimitCount(|log|, n)
    ensures forall i :: 0 <= i < |Newest(log, n)| ==> Newest(log, n)[i] == log[|log| - 1 - i]
  {
  }

  /**
   * On a numbered table the rows come in descending id order, and every row
   * the limit leaves out is older than every row returned.
   */
  lemma NewestOrder<T>(log: seq<Row<T>>, n: int)
    requires Increasing(log)
    ensures forall i, j :: 0 <= i < j < |Newest(log, n)| ==> Newest(log, n)[i].id > Newest(log, n)[j].id
    ensures forall k, i ::
      (0 <= k < |log| - |Newest(log, n)| && 0 <= i < |Newest(log, n)|) ==> log[k].id < Newest(log, n)[i].id
  {
    NewestRows(log, n);
  }

  lemma NumberedIncreasing<T>(log: seq<Row<T>>)
    requires Numbered(log)
    ensures Increasing(log)
  {
  }

  /** The ticker filter keeps exactly the rows of that ticker. */
  lemma {:induction false} OfTickerMembers<T>(log: seq<Row<T>>, t: string)
    ensures forall x :: x in OfTicker(log, t) <==> x in log && x.ticker == t
    decreases |log|
  {
    if |log| > 0 {
      var p := log[..|log| - 1];
      OfTickerMembers(p, t);
      assert log == p + [log[|log| - 1]];
    }
  }

  lemma {:induction false} OfTickerBelow<T>(log: seq<Row<T>>, t: string, bound: int)
    requires forall k :: 0 <= k < |log| ==> log[k].id < bound
    ensures forall i :: 0 <= i < |OfTicker(log, t)| ==> OfTicker(log, t)[i].id < bound
    decreases |log|
  {
    if |log| > 0 {
      OfTickerBelow(log[..|log| - 1], t, bound);
    }
  }

  /** The filter keeps table order, so it keeps ids increasing. */
  lemma {:induction false} OfTickerIncreasing<T>(log: seq<Row<T>>, t: string)
    requires Increasing(log)
    ensures Increasing(OfTicker(log, t))
    decreases |log|
  {
    if |log| > 0 {
      var p := log[..|log| - 1];
      var last := log[|log| - 1];
      OfTickerIncreasing(p, t);
      if last.ticker == t {
        OfTickerBelow(p, t, last.id);
      }
    }
  }

  /**
   * `SELECT ... WHERE ticker = t ORDER BY id DESC LIMIT n`: at most n rows
   * (all of them when n is negative), all of ticker t, newest id first, and
   * every row of ticker t left out is older than every row returned.
   */
  lemma NewestOfSpec<T>(log: seq<Row<T>>, t: string, n: int)
    requires Numbered(log)
    ensures |NewestOf(log, t, n)| == LimitCount(|OfTicker(log, t)|, n)
    ensures forall x :: x in NewestOf(log, t, n) ==> x in log && x.ticker == t
    ensures forall i, j :: 0 <= i < j < |NewestOf(log, t, n)| ==>
      NewestOf(log, t, n)[i].id > NewestOf(log, t, n)[j].id
    ensures forall x, i ::
      (x in log && x.ticker == t && x !in NewestOf(log, t, n) && 0 <= i < |NewestOf(log, t, n)|) ==>
      x.id < NewestOf(log, t, n)[i].id
  {
    NumberedIncreasing(log);
    OfTickerIncreasing(log, t);
    NewestOfMembers(log, t, n);
    NewestOrder(OfTicker(log, t), n);
    NewestOfOlder(log, t, n);
  }

  lemma NewestOfMembers<T>(log: seq<Row<T>>, t: string, n: int)
    ensures |NewestOf(log, t, n)| == LimitCount(|OfTicker(log, t)|, n)
    ensures forall x :: x in NewestOf(log, t, n) ==> x in log && x.ticker == t
  {
    var f := OfTicker(log, t);
    var r := NewestOf(log, t, n);
    OfTickerMembers(log, t);
    NewestRows(f, n);
    forall x | x in r
      ensures x in f
    {
      var i :| 0 <= i < |r| && r[i] == x;
      assert x == f[|f| - 1 - i];
    }
  }

  lemma NewestOfOlder<T>(log: seq<Row<T>>, t: string, n: int)
    requires Increasing(OfTicker(log, t))
    ensures forall x, i ::
      (x in log && x.ticker == t && x !in NewestOf(log, t, n) && 0 <= i < |NewestOf(log, t, n)|) ==>
      x.id < NewestOf(log, t, n)[i].id
  {
    var f := OfTicker(log, t);
    var r := NewestOf(log, t, n);
    OfTickerMembers(log, t);
    NewestRows(f, n);
    NewestOrder(f, n);
    assert forall k :: |f| - |r| <= k < |f| ==> r[|f| - 1 - k] == f[k];
    forall x, i | x in log && x.ticker == t && x !in r && 0 <= i < |r|
      ensures x.id < r[i].id
    {
      assert x in f;
      var k :| 0 <= k < |f| && f[k] == x;
    }
  }

  /**
   * A row appended for ticker t is what the next newest-first read of t
   * returns first, whatever the limit (other than zero).
   */
  lemma AppendVisible<T>(log: seq<Row<T>>, t: string, timestamp: int, data: T, n: int)
    requires n != 0
    ensures |NewestOf(Append(log, t, timestamp, data), t, n)| > 0
    ensures NewestOf(Append(log, t, timestamp, data), t, n)[0] == Row(|log| + 1, t, timestamp, data)
  {
    var a := Append(log, t, timestamp, data);
    assert a[..|a| - 1] == log;
    NewestRows(OfTicker(a, t), n);
  }

  /** Rows of another ticker never enter a ticker's reads. */
  lemma AppendOther<T>(log: seq<Row<T>>, u: string, timestamp: int, data: T, t: string)
    requires u != t
    ensures OfTicker(Append(log, u, timestamp, data), t) == OfTicker(log, t)
  {
    var a := Append(log, u, timestamp, data);
    assert a[..|a| - 1] == log;
  }

  /** Appending is extension: every earlier row keeps its place. */
  ghost predicate Extends<T>(old_log: seq<Row<T>>, new_log: seq<Row<T>>) {
    |old_log| <= |new_log| && new_log[..|old_log|] == old_log
  }

  lemma ExtendsTransitive<T>(a: seq<Row<T>>, b: seq<Row<T>>, c: seq<Row<T>>)
    requires Extends(a, b) && Extends(b, c)
    ensures Extends(a, c)
  {
    assert c[..|a|] == c[..|b|][..|a|];
  }
}
