/**
 * News ingestion (`fetch_news_sentiment`): five Google News RSS searches
 * for the stock's search term, at most three entries from each, each link
 * processed at most once across all feeds, one sentiment row logged per
 * processed entry, and the mean score (0.0 when nothing was processed).
 *
 * The feeds are an input: `fetch(url)` is the list of entries
 * `feedparser.parse(url)` yields (empty when the fetch fails), and
 * `score(title)` is the sentiment analyser's compound score.
 */
module News {
  import opened Text
  import opened Stats
  import opened Log
  import opened Tables
  import opened Database

  /** One feed entry: its title and its link. */
  datatype Entry = Entry(title: string, link: string)

  /** `(title, sentiment, link)`, one per processed entry. */
  datatype Article = Article(title: string, sentiment: real, link: string)

  /** `feed.entries[:3]` */
  const EntriesPerFeed: int := 3

  const SearchPrefix: string := "https://news.google.com/rss/search?q="
  const SearchSuffix: string := "&hl=en-IN&gl=IN&ceid=IN:en"

  /** The site restrictions of the five searches, in the order they are read. */
  const Sites: seq<string> := ["", "+site:finance.yahoo.com", "+site:moneycontrol.com",
                               "+site:economictimes.indiatimes.com", "+site:livemint.com"]

  /** What `replace(" ", "%20")` turns one character into. */
  function Encoded(c: char): (r: string)
    ensures ' ' !in r
  {
    if c == ' ' then "%20" else [c]
  }

  /** `search_term.replace(" ", "%20")` */
  function EncodeSpaces(s: string): (r: string)
    ensures ' ' !in r
    ensures ' ' !in s ==> r == s
    ensures |s| == 1 ==> r == if s[0] == ' ' then "%20" else s
    decreases |s|
  {
    if |s| == 0 then ""
    else
      var rest := EncodeSpaces(s[1..]);
      assert ' ' !in s ==> [s[0]] + s[1..] == s;
      Encoded(s[0]) + rest
  }

  /**
   * The replacement works piece by piece: with the one-character case of
   * `EncodeSpaces`, every space becomes "%20" and every other character
   * stays, in order.
   */
  lemma {:induction false} EncodeSpacesAppend(a: string, b: string)
    ensures EncodeSpaces(a + b) == EncodeSpaces(a) + EncodeSpaces(b)
    decreases |a|
  {
    if |a| > 0 {
      calc {
        EncodeSpaces(a + b);
      == { assert (a + b)[0] == a[0]; assert (a + b)[1..] == a[1..] + b; }
        Encoded(a[0]) + EncodeSpaces(a[1..] + b);
      == { EncodeSpacesAppend(a[1..], b); }
        Encoded(a[0]) + (EncodeSpaces(a[1..]) + EncodeSpaces(b));
      ==
        (Encoded(a[0]) + EncodeSpaces(a[1..])) + EncodeSpaces(b);
      }
    } else {
      assert a + b == b;
    }
  }

  /** The five RSS search URLs for a search term. */
  function RssSources(term: string): (r: seq<string>)
    ensures |r| == |Sites| == 5
    ensures forall i :: 0 <= i < |r| ==> r[i] == SearchPrefix + EncodeSpaces(term) + Sites[i] + SearchSuffix
    ensures forall i :: 0 <= i < |r| ==> StartsWith(r[i], SearchPrefix + EncodeSpaces(term))
  {
    var q := SearchPrefix + EncodeSpaces(term);
    var r := seq(|Sites|, i requires 0 <= i < |Sites| => q + Sites[i] + SearchSuffix);
    assert forall i :: 0 <= i < |r| ==> r[i][..|q|] == q;
    r
  }

  /** What each of the five searches returned. */
  function Feeds(term: string, fetch: string -> seq<Entry>): (f: seq<seq<Entry>>)
    ensures |f| == 5
    ensures forall i :: 0 <= i < 5 ==> f[i] == fetch(RssSources(term)[i])
  {
    var urls := RssSources(term);
    seq(5, i requires 0 <= i < 5 => fetch(urls[i]))
  }

  /** The entries the loop looks at, feed after feed: the first three of each. */
  function Candidates(feeds: seq<seq<Entry>>): seq<Entry>
    decreases |feeds|
  {
    if |feeds| == 0 then []
    else Candidates(feeds[..|feeds| - 1]) + Limit(feeds[|feeds| - 1], EntriesPerFeed)
  }

  /** Reading one more feed adds its first three entries. */
  lemma CandidatesStep(feeds: seq<seq<Entry>>, u: nat)
    requires u < |feeds|
    ensures Candidates(feeds[..u + 1]) == Candidates(feeds[..u]) + Limit(feeds[u], EntriesPerFeed)
  {
    assert feeds[..u + 1][..u] == feeds[..u];
  }

  /** The links of a list of entries (`seen_links` after reading them). */
  function LinksOf(s: seq<Entry>): set<string>
    decreases |s|
  {
    if |s| == 0 then {} else LinksOf(s[..|s| - 1]) + {s[|s| - 1].link}
  }

  /** The entries that pass `if link in seen_links: continue`, in reading order. */
  function Kept(s: seq<Entry>): seq<Entry>
    decreases |s|
  {
    if |s| == 0 then []
    else
      var p := s[..|s| - 1];
      if s[|s| - 1].link in LinksOf(p) then Kept(p) else Kept(p) + [s[|s| - 1]]
  }

  /** The source label, by the first site name found in the link. */
  function SourceName(link: string): string {
    if Contains(link, "moneycontrol") then "MoneyControl"
    else if Contains(link, "livemint") then "LiveMint"
    else if Contains(link, "economictimes") then "Economic Times"
    else if Contains(link, "yahoo") then "Yahoo Finance"
    else "Google News"
  }

  /** The sentiment rows the loop logs for the kept entries, one per entry, in order. */
  function LogAll(db: Db, ticker: string, now: int, kept: seq<Entry>, score: string -> real): Db
    decreases |kept|
  {
    if |kept| == 0 then db
    else
      var e := kept[|kept| - 1];
      LogSentiment(LogAll(db, ticker, now, kept[..|kept| - 1], score), ticker, now, SourceName(e.link), e.title, score(e.title))
  }

  function Sentiments(kept: seq<Entry>, score: string -> real): (v: seq<real>)
    ensures |v| == |kept|
    ensures forall i :: 0 <= i < |kept| ==> v[i] == score(kept[i].title)
    decreases |kept|
  {
    if |kept| == 0 then [] else Sentiments(kept[..|kept| - 1], score) + [score(kept[|kept| - 1].title)]
  }

  function Articles(kept: seq<Entry>, score: string -> real): (v: seq<Article>)
    ensures |v| == |kept|
    ensures forall i :: 0 <= i < |kept| ==> v[i] == Article(kept[i].title, score(kept[i].title), kept[i].link)
    decreases |kept|
  {
    if |kept| == 0 then []
    else
      var e := kept[|kept| - 1];
      Articles(kept[..|kept| - 1], score) + [Article(e.title, score(e.title), e.link)]
  }

  /** The store after the batch, the average score, and the article list. */
  datatype NewsResult = NewsResult(db: Db, average: real, articles: seq<Article>)

  /** The entries `fetch_news_sentiment` processes, in reading order. */
  function Processed(term: string, fetch: string -> seq<Entry>): seq<Entry> {
    Kept(Candidates(Feeds(term, fetch)))
  }

  /** What processing the entries `kept` does: the rows logged, the average score and the articles. */
  function Batch(db: Db, ticker: string, kept: seq<Entry>, score: string -> real, now: int): NewsResult {
    NewsResult(LogAll(db, ticker, now, kept, score), MeanOrZero(Sentiments(kept, score)), Articles(kept, score))
  }

  /** `fetch_news_sentiment(ticker, search_term)` as a function of the store. */
  function Ingest(db: Db, ticker: string, term: string, fetch: string -> seq<Entry>,
                  score: string -> real, now: int): NewsResult
  {
    Batch(db, ticker, Processed(term, fetch), score, now)
  }

  /** The loop of `fetch_news_sentiment`, writing through the store. */
  method FetchNewsSentiment(store: Store, ticker: string, searchTerm: string, fetch: string -> seq<Entry>,
                            score: string -> real, now: int) returns (avg: real, articles: seq<Article>)
    requires store.Valid()
    modifies store
    ensures store.Valid()
    ensures var n := Ingest(old(store.Snapshot()), ticker, searchTerm, fetch, score, now);
      store.Snapshot() == n.db && avg == n.average && articles == n.articles
  {
    var sources := RssSources(searchTerm);
    var scores: seq<real> := [];
    var seen: set<string> := {};
    articles := [];
    ghost var feeds := Feeds(searchTerm, fetch);
    ghost var db0 := store.Snapshot();
    ghost var done: seq<Entry> := [];
    var u := 0;
    while u < |sources|
      invariant 0 <= u <= |sources|
      invariant done == Candidates(feeds[..u])
      invariant store.Valid() && Reading(db0, ticker, now, score, done, seen, store.Snapshot(), articles, scores)
    {
      var top := Limit(fetch(sources[u]), EntriesPerFeed);
      seen, articles, scores := ReadFeed(store, ticker, now, score, top, db0, done, seen, articles, scores);
      done := done + top;
      CandidatesStep(feeds, u);
      u := u + 1;
    }
    assert feeds[..u] == feeds;
    avg := MeanOrZero(scores);
  }

  /** The inner loop: the (at most three) entries of one feed. */
  method ReadFeed(store: Store, ticker: string, now: int, score: string -> real, top: seq<Entry>,
                  ghost db0: Db, ghost done: seq<Entry>, seen0: set<string>, articles0: seq<Article>, scores0: seq<real>)
    returns (seen: set<string>, articles: seq<Article>, scores: seq<real>)
    requires store.Valid() && Reading(db0, ticker, now, score, done, seen0, store.Snapshot(), articles0, scores0)
    modifies store
    ensures store.Valid() && Reading(db0, ticker, now, score, done + top, seen, store.Snapshot(), articles, scores)
  {
    seen, articles, scores := seen0, articles0, scores0;
    ghost var read := done;
    var j := 0;
    while j < |top|
      invariant 0 <= j <= |top| && read == done + top[..j]
      invariant store.Valid() && Reading(db0, ticker, now, score, read, seen, store.Snapshot(), articles, scores)
    {
      seen, articles, scores := ReadEntry(store, ticker, now, score, top[j], db0, read, seen, articles, scores);
      read := read + [top[j]];
      TakeOneMore(top, j);
      j := j + 1;
    }
    assert top[..j] == top;
  }

  /** One entry of a feed: skipped when its link was seen, otherwise logged and collected. */
  method ReadEntry(store: Store, ticker: string, now: int, score: string -> real, entry: Entry,
                   ghost db0: Db, ghost done: seq<Entry>, seen0: set<string>, articles0: seq<Article>, scores0: seq<real>)
    returns (seen: set<string>, articles: seq<Article>, scores: seq<real>)
    requires store.Valid() && Reading(db0, ticker, now, score, done, seen0, store.Snapshot(), articles0, scores0)
    modifies store
    ensures store.Valid() && Reading(db0, ticker, now, score, done + [entry], seen, store.Snapshot(), articles, scores)
  {
    seen, articles, scores := seen0, articles0, scores0;
    if entry.link !in seen {
      var sentiment := score(entry.title);
      ReadingKeep(db0, ticker, now, score, done, entry, seen, store.Snapshot(), articles, scores);
      store.LogSentiment(ticker, now, SourceName(entry.link), entry.title, sentiment);
      seen := seen + {entry.link};
      scores := scores + [sentiment];
      articles := articles + [Article(entry.title, sentiment, entry.link)];
    } else {
      ReadingSkip(db0, ticker, now, score, done, entry, seen, store.Snapshot(), articles, scores);
    }
  }

  /**
   * The loop's state after reading `done`: the links seen, the rows logged
   * for the kept entries, and the articles and scores collected for them.
   */
  ghost predicate Reading(db0: Db, ticker: string, now: int, score: string -> real, done: seq<Entry>,
                          seen: set<string>, db: Db, articles: seq<Article>, scores: seq<real>)
  {
    seen == LinksOf(done) &&
    db == LogAll(db0, ticker, now, Kept(done), score) &&
    articles == Articles(Kept(done), score) &&
    scores == Sentiments(Kept(done), score)
  }

  /** Reading an entry whose link was already seen changes nothing. */
  lemma ReadingSkip(db0: Db, ticker: string, now: int, score: string -> real, done: seq<Entry>, e: Entry,
                    seen: set<string>, db: Db, articles: seq<Article>, scores: seq<real>)
    requires Reading(db0, ticker, now, score, done, seen, db, articles, scores)
    requires e.link in seen
    ensures Reading(db0, ticker, now, score, done + [e], seen, db, articles, scores)
  {
    SnocEntry(done, e);
  }

  /** Reading an entry with a new link logs it and collects its article and score. */
  lemma ReadingKeep(db0: Db, ticker: string, now: int, score: string -> real, done: seq<Entry>, e: Entry,
                    seen: set<string>, db: Db, articles: seq<Article>, scores: seq<real>)
    requires Reading(db0, ticker, now, score, done, seen, db, articles, scores)
    requires e.link !in seen
    ensures Reading(db0, ticker, now, score, done + [e], seen + {e.link},
                    LogSentiment(db, ticker, now, SourceName(e.link), e.title, score(e.title)),
                    articles + [Article(e.title, score(e.title), e.link)], scores + [score(e.title)])
  {
    SnocEntry(done, e);
    SnocKept(db0, ticker, now, Kept(done), e, score);
  }

  /** How the reading state grows by one entry. */
  lemma SnocEntry(s: seq<Entry>, e: Entry)
    ensures LinksOf(s + [e]) == LinksOf(s) + {e.link}
    ensures Kept(s + [e]) == if e.link in LinksOf(s) then Kept(s) else Kept(s) + [e]
  {
    assert (s + [e])[..|s|] == s;
  }

  /** How the logged state grows by one kept entry. */
  lemma SnocKept(db: Db, ticker: string, now: int, kept: seq<Entry>, e: Entry, score: string -> real)
    ensures LogAll(db, ticker, now, kept + [e], score) ==
      LogSentiment(LogAll(db, ticker, now, kept, score), ticker, now, SourceName(e.link), e.title, score(e.title))
    ensures Articles(kept + [e], score) == Articles(kept, score) + [Article(e.title, score(e.title), e.link)]
    ensures Sentiments(kept + [e], score) == Sentiments(kept, score) + [score(e.title)]
  {
    assert (kept + [e])[..|kept|] == kept;
  }

  /** The label follows the priority MoneyControl, LiveMint, Economic Times, Yahoo Finance, Google News. */
  lemma SourceNamePriority(link: string)
    ensures SourceName(link) == "MoneyControl" <==> Contains(link, "moneycontrol")
    ensures SourceName(link) == "LiveMint" <==> !Contains(link, "moneycontrol") && Contains(link, "livemint")
    ensures SourceName(link) == "Economic Times" <==>
      !Contains(link, "moneycontrol") && !Contains(link, "livemint") && Contains(link, "economictimes")
    ensures SourceName(link) == "Yahoo Finance" <==>
      !Contains(link, "moneycontrol") && !Contains(link, "livemint") && !Contains(link, "economictimes") &&
      Contains(link, "yahoo")
    ensures SourceName(link) == "Google News" <==>
      !Contains(link, "moneycontrol") && !Contains(link, "livemint") && !Contains(link, "economictimes") &&
      !Contains(link, "yahoo")
  {
  }

  /** At most three entries of each feed are looked at, and each comes from the head of its feed. */
  lemma {:induction false} CandidatesBound(feeds: seq<seq<Entry>>)
    ensures |Candidates(feeds)| <= EntriesPerFeed * |feeds|
    ensures forall e :: e in Candidates(feeds) ==>
      exists i, k :: 0 <= i < |feeds| && 0 <= k < |feeds[i]| && k < EntriesPerFeed && feeds[i][k] == e
    decreases |feeds|
  {
    if |feeds| > 0 {
      var p := feeds[..|feeds| - 1];
      var last := feeds[|feeds| - 1];
      CandidatesBound(p);
      forall e | e in Candidates(feeds)
        ensures exists i, k :: 0 <= i < |feeds| && 0 <= k < |feeds[i]| && k < EntriesPerFeed && feeds[i][k] == e
      {
        if e in Candidates(p) {
          var i, k :| 0 <= i < |p| && 0 <= k < |p[i]| && k < EntriesPerFeed && p[i][k] == e;
          assert feeds[i] == p[i];
        } else {
          var top := Limit(last, EntriesPerFeed);
          assert e in top;
          var k :| 0 <= k < |top| && top[k] == e;
          assert feeds[|feeds| - 1][k] == e;
        }
      }
    }
  }

  lemma {:induction false} LinksOfMembers(s: seq<Entry>)
    ensures forall i :: 0 <= i < |s| ==> s[i].link in LinksOf(s)
    ensures forall x :: x in LinksOf(s) ==> exists i :: 0 <= i < |s| && s[i].link == x
    decreases |s|
  {
    if |s| > 0 {
      var p := s[..|s| - 1];
      LinksOfMembers(p);
      forall x | x in LinksOf(s)
        ensures exists i :: 0 <= i < |s| && s[i].link == x
      {
        if x in LinksOf(p) {
          var i :| 0 <= i < |p| && p[i].link == x;
          assert s[i] == p[i];
        } else {
          assert s[|s| - 1].link == x;
        }
      }
    }
  }

  /** Every link read is processed: the kept entries have the same links as all entries read. */
  lemma {:induction false} KeptLinks(s: seq<Entry>)
    ensures LinksOf(Kept(s)) == LinksOf(s)
    decreases |s|
  {
    if |s| > 0 {
      var p := s[..|s| - 1];
      var e := s[|s| - 1];
      KeptLinks(p);
      if e.link !in LinksOf(p) {
        SnocEntry(Kept(p), e);
      }
    }
  }

  /** Each kept entry is an entry that was read. */
  lemma {:induction false} KeptMembers(s: seq<Entry>)
    ensures forall e :: e in Kept(s) ==> e in s
    decreases |s|
  {
    if |s| > 0 {
      KeptMembers(s[..|s| - 1]);
    }
  }

  /** No link is processed twice. */
  lemma {:induction false} KeptDistinct(s: seq<Entry>)
    ensures forall i, j :: 0 <= i < j < |Kept(s)| ==> Kept(s)[i].link != Kept(s)[j].link
    decreases |s|
  {
    if |s| > 0 {
      var p := s[..|s| - 1];
      var e := s[|s| - 1];
      KeptDistinct(p);
      if e.link !in LinksOf(p) {
        var k := Kept(p);
        KeptLinks(p);
        LinksOfMembers(k);
        assert Kept(s) == k + [e];
        forall i | 0 <= i < |k|
          ensures Kept(s)[i].link != e.link
        {
          assert k[i].link in LinksOf(k);
        }
      }
    }
  }

  /**
   * The ingested rows: one sentiment row per kept entry, in reading order,
   * with fresh ids, its source label, title and score; the other tables and
   * every earlier row unchanged.
   */
  lemma {:induction false} LogAllSpec(db: Db, ticker: string, now: int, kept: seq<Entry>, score: string -> real)
    requires Valid(db)
    ensures var r := LogAll(db, ticker, now, kept, score);
      Valid(r) && |r.sentiment| == |db.sentiment| + |kept| && Extends(db.sentiment, r.sentiment) &&
      r.stocks == db.stocks && r.market == db.market && r.alerts == db.alerts
    ensures var r := LogAll(db, ticker, now, kept, score);
      forall i :: 0 <= i < |kept| ==>
        r.sentiment[|db.sentiment| + i] ==
        Row(|db.sentiment| + i + 1, ticker, now, Mention(SourceName(kept[i].link), kept[i].title, score(kept[i].title)))
    decreases |kept|
  {
    if |kept| > 0 {
      var n := |kept| - 1;
      var p := kept[..n];
      var e := kept[n];
      LogAllSpec(db, ticker, now, p, score);
      var q := LogAll(db, ticker, now, p, score);
      LogSpec(q, ticker, now, 0.0, 0, SourceName(e.link), e.title, score(e.title), "", "");
      var r := LogAll(db, ticker, now, kept, score);
      assert r == LogSentiment(q, ticker, now, SourceName(e.link), e.title, score(e.title));
      ExtendsTransitive(db.sentiment, q.sentiment, r.sentiment);
      forall i | 0 <= i < |kept|
        ensures r.sentiment[|db.sentiment| + i] ==
          Row(|db.sentiment| + i + 1, ticker, now, Mention(SourceName(kept[i].link), kept[i].title, score(kept[i].title)))
      {
        if i < n {
          assert kept[i] == p[i];
          assert r.sentiment[|db.sentiment| + i] == q.sentiment[|db.sentiment| + i];
        }
      }
    }
  }

  /**
   * `fetch_news_sentiment` reads: at most 15 entries processed, no link
   * twice, and every link read processed.
   */
  lemma IngestArticles(db: Db, ticker: string, term: string, fetch: string -> seq<Entry>, score: string -> real, now: int)
    ensures var n := Ingest(db, ticker, term, fetch, score, now);
      |n.articles| <= EntriesPerFeed * |Sites| &&
      (forall i, j :: 0 <= i < j < |n.articles| ==> n.articles[i].link != n.articles[j].link)
    ensures var n := Ingest(db, ticker, term, fetch, score, now);
      forall a :: a in Candidates(Feeds(term, fetch)) ==>
        exists i :: 0 <= i < |n.articles| && n.articles[i].link == a.link
  {
    FeedArticles(db, ticker, Feeds(term, fetch), score, now);
  }

  /** The same for any list of feeds: at most three articles per feed, distinct links, every link read kept. */
  lemma FeedArticles(db: Db, ticker: string, feeds: seq<seq<Entry>>, score: string -> real, now: int)
    ensures var n := Batch(db, ticker, Kept(Candidates(feeds)), score, now);
      |n.articles| <= EntriesPerFeed * |feeds| &&
      (forall i, j :: 0 <= i < j < |n.articles| ==> n.articles[i].link != n.articles[j].link)
    ensures var n := Batch(db, ticker, Kept(Candidates(feeds)), score, now);
      forall a :: a in Candidates(feeds) ==>
        exists i :: 0 <= i < |n.articles| && n.articles[i].link == a.link
  {
    var read := Candidates(feeds);
    CandidatesBound(feeds);
    KeepAtMost(read);
    KeptDistinct(read);
    KeptCovers(read, score);
  }

  /** Every link read is the link of one of the articles. */
  lemma KeptCovers(read: seq<Entry>, score: string -> real)
    ensures var articles := Articles(Kept(read), score);
      forall a :: a in read ==> exists i :: 0 <= i < |articles| && articles[i].link == a.link
  {
    KeptLinks(read);
    LinksOfMembers(read);
    ArticleLinks(Kept(read), score);
    forall a | a in read
      ensures a.link in LinksOf(Kept(read))
    {
      var k :| 0 <= k < |read| && read[k] == a;
    }
  }

  /** Each link among the entries is the link of one of their articles. */
  lemma ArticleLinks(kept: seq<Entry>, score: string -> real)
    ensures var articles := Articles(kept, score);
      forall x :: x in LinksOf(kept) ==> exists i :: 0 <= i < |articles| && articles[i].link == x
  {
    var articles := Articles(kept, score);
    LinksOfMembers(kept);
    forall x | x in LinksOf(kept)
      ensures exists i :: 0 <= i < |articles| && articles[i].link == x
    {
      var i :| 0 <= i < |kept| && kept[i].link == x;
      assert articles[i].link == x;
    }
    assert articles == Articles(kept, score);
  }

  /**
   * `fetch_news_sentiment` writes one sentiment row per processed entry and
   * nothing else, and returns the mean of the scores of the articles it
   * returns (0.0 when none).
   */
  lemma IngestLogs(db: Db, ticker: string, term: string, fetch: string -> seq<Entry>, score: string -> real, now: int)
    requires Valid(db)
    ensures var n := Ingest(db, ticker, term, fetch, score, now);
      Valid(n.db) && |n.db.sentiment| == |db.sentiment| + |n.articles| && Extends(db.sentiment, n.db.sentiment) &&
      n.db.stocks == db.stocks && n.db.market == db.market && n.db.alerts == db.alerts
    ensures var n := Ingest(db, ticker, term, fetch, score, now);
      n.average == MeanOrZero(ArticleScores(n.articles))
  {
    var kept := Processed(term, fetch);
    KeptLogs(db, ticker, now, kept, score);
    KeptAverage(kept, score);
  }

  /** What the batch writes, for any list of processed entries. */
  lemma KeptLogs(db: Db, ticker: string, now: int, kept: seq<Entry>, score: string -> real)
    requires Valid(db)
    ensures var r := LogAll(db, ticker, now, kept, score);
      Valid(r) && |r.sentiment| == |db.sentiment| + |Articles(kept, score)| && Extends(db.sentiment, r.sentiment) &&
      r.stocks == db.stocks && r.market == db.market && r.alerts == db.alerts
  {
    LogAllSpec(db, ticker, now, kept, score);
  }

  /** The scores averaged are those of the articles returned. */
  lemma KeptAverage(kept: seq<Entry>, score: string -> real)
    ensures ArticleScores(Articles(kept, score)) == Sentiments(kept, score)
  {
    assert ArticleScores(Articles(kept, score)) == Sentiments(kept, score);
  }

  /** The scores of a list of articles. */
  function ArticleScores(a: seq<Article>): (v: seq<real>)
    ensures |v| == |a|
    ensures forall i :: 0 <= i < |a| ==> v[i] == a[i].sentiment
  {
    seq(|a|, i requires 0 <= i < |a| => a[i].sentiment)
  }

  lemma {:induction false} KeepAtMost(s: seq<Entry>)
    ensures |Kept(s)| <= |s|
    decreases |s|
  {
    if |s| > 0 {
      KeepAtMost(s[..|s| - 1]);
    }
  }
}
