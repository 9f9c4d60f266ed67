/**
 * The older one-stock pipeline of `logic.py`: save the latest one-minute
 * bar, test its volume against the stored history with a hard-coded
 * 3-sigma rule once more than 10 rows are stored, scan three subreddits
 * and save one sentiment row per post, and raise an alert when the mean
 * post sentiment is beyond +-0.4.
 *
 * The store helpers it imports (`save_price`, `save_social`,
 * `get_recent_prices`) are modelled on the store of module Tables: a price
 * is a market row stamped with the bar's time, a post a sentiment row
 * stamped with its creation time, and the history the 20 newest volumes of
 * the ticker. Its `log_alert` call passes the formatted message where the
 * alert type goes; the model keeps the message's fixed prefix as the type
 * and an empty message.
 */
module Legacy {
  import opened Wrappers
  import opened Stats
  import opened Log
  import opened Tables
  import opened Database
  import opened Anomaly
  import opened Pipeline

  /** `{"ts", "close", "volume"}` of the latest one-minute bar. */
  datatype Bar = Bar(ts: int, close: real, volume: int)

  /** `if len(history) > 10:` */
  const MinHistory: int := 10
  /** `if z_score > 3:` */
  const LegacySpikeZ: real := 3.0
  /** `if abs(avg_sent) > 0.4:` */
  const LegacySentiment: real := 0.4
  /** `limit=5` posts per subreddit. */
  const PostsPerSub: int := 5
  /** `[:500]`: the text scored for a post. */
  const TextLimit: int := 500

  const LegacySubs: seq<string> := ["IndianStreetBets", "DalalStreetTalks", "stocks"]

  const VolumeSpikeType: string := "Volume Spike"
  const SocialSentimentType: string := "High Social Sentiment"

  // ---- The volume check ----

  /**
   * The spike rule on the stored history (which already holds the current
   * bar): more than 10 rows, a nonzero spread, and a z-score above 3.
   */
  function LegacySpike(history: seq<int>, current: int): bool {
    if |history| > MinHistory then
      VarianceZeroIffAllEqual(history);
      Variance(history) > 0.0 && Ratio(Deviation(history, current), Variance(history)).Exceeds(LegacySpikeZ)
    else false
  }

  /**
   * The old rule is the detector of `run_pipeline` at threshold 3 with more
   * than 10 samples instead of at least 5: it never flags what that
   * detector at 3 would not, and on more than 10 samples the two agree.
   */
  lemma LegacySpikeIsDetect(history: seq<int>, current: int)
    ensures LegacySpike(history, current) <==>
      |history| > MinHistory && Detect(history, current, LegacySpikeZ).anomalous
    ensures LegacySpike(history, current) ==> Detect(history, current, LegacySpikeZ).anomalous
  {
    if |history| > MinHistory {
      VarianceZeroIffAllEqual(history);
    }
  }

  /** With six samples the detector of `run_pipeline` flags a spike the old rule ignores. */
  lemma FewSamplesDiffer()
    ensures Detect([90, 110, 90, 110, 90, 110], 140, LegacySpikeZ).anomalous
    ensures !LegacySpike([90, 110, 90, 110, 90, 110], 140)
  {
    ExampleSpike();
  }

  /**
   * Whatever `np.std` returns (sigma >= 0 with the variance as its square)
   * and whatever z then is: with more than 10 rows, the old rule flags
   * exactly when sigma > 0 and z > 3.
   */
  lemma LegacySpikeIsZTest(history: seq<int>, current: int, sigma: real, z: real)
    requires |history| > MinHistory
    requires sigma >= 0.0 && sigma * sigma == Variance(history)
    requires sigma > 0.0 ==> z * sigma == current as real - Mean(history)
    ensures !AllEqual(history) ==> (LegacySpike(history, current) <==> sigma > 0.0 && z > LegacySpikeZ)
    ensures AllEqual(history) ==> !LegacySpike(history, current)
  {
    LegacySpikeIsDetect(history, current);
    DetectIsZTest(history, current, LegacySpikeZ, sigma, z);
  }

  // ---- get_reddit_data ----

  /** A search hit: `post.title`, `post.selftext`, `post.created_utc`. */
  datatype Hit = Hit(title: string, selftext: string, created: int)

  /** The row `save_social` writes for one post, and the sentiment appended to `posts_found`. */
  datatype Social = Social(source: string, title: string, ts: int, sentiment: real)

  /** `f"{post.title} {post.selftext}"[:500]`: the text a post's sentiment is scored on. */
  function ScoredText(h: Hit): (t: string)
    ensures var full := h.title + " " + h.selftext;
      |t| == (if |full| <= TextLimit then |full| else TextLimit) && t == full[..|t|]
  {
    Limit(h.title + " " + h.selftext, TextLimit)
  }

  function SocialOf(sub: string, h: Hit, score: string -> real): (r: Social)
    ensures r.source == "Reddit (r/" + sub + ")" && r.title == h.title && r.ts == h.created
    ensures r.sentiment == score(ScoredText(h))
  {
    Social("Reddit (r/" + sub + ")", h.title, h.created, score(ScoredText(h)))
  }

  /** The posts read from one subreddit: its first 5 hits, in search order. */
  function SubPosts(sub: string, keyword: string, search: (string, string) -> seq<Hit>, score: string -> real): (r: seq<Social>)
    ensures |r| <= PostsPerSub
    ensures |r| == if |search(sub, keyword)| <= PostsPerSub then |search(sub, keyword)| else PostsPerSub
    ensures forall i :: 0 <= i < |r| ==> r[i] == SocialOf(sub, search(sub, keyword)[i], score)
  {
    var hits := Limit(search(sub, keyword), PostsPerSub);
    seq(|hits|, i requires 0 <= i < |hits| => SocialOf(sub, hits[i], score))
  }

  /** Every post of the subreddits, in subreddit order. */
  function Posts(subs: seq<string>, keyword: string, search: (string, string) -> seq<Hit>, score: string -> real): seq<Social>
    decreases |subs|
  {
    if |subs| == 0 then []
    else Posts(subs[..|subs| - 1], keyword, search, score) + SubPosts(subs[|subs| - 1], keyword, search, score)
  }

  /** `save_social` for each post in turn. */
  function Save(db: Db, ticker: string, posts: seq<Social>): Db
    decreases |posts|
  {
    if |posts| == 0 then db
    else
      var p := posts[|posts| - 1];
      LogSentiment(Save(db, ticker, posts[..|posts| - 1]), ticker, p.ts, p.source, p.title, p.sentiment)
  }

  function Sentiments(posts: seq<Social>): (v: seq<real>)
    ensures |v| == |posts|
    ensures forall i :: 0 <= i < |posts| ==> v[i] == posts[i].sentiment
  {
    seq(|posts|, i requires 0 <= i < |posts| => posts[i].sentiment)
  }

  /** The posts `get_reddit_data` reads: none without credentials. */
  function RedditScan(client: bool, keyword: string, search: (string, string) -> seq<Hit>, score: string -> real): seq<Social> {
    if client then Posts(LegacySubs, keyword, search, score) else []
  }

  /** `get_reddit_data(ticker, keyword)` against the store. */
  method GetRedditData(store: Store, ticker: string, keyword: string, client: bool,
                       search: (string, string) -> seq<Hit>, score: string -> real) returns (found: seq<real>)
    requires store.Valid()
    modifies store
    ensures store.Valid()
    ensures var posts := RedditScan(client, keyword, search, score);
      store.Snapshot() == Save(old(store.Snapshot()), ticker, posts) && found == Sentiments(posts)
  {
    if !client {
      return [];
    }
    ghost var db0 := store.Snapshot();
    ghost var done: seq<Social> := [];
    found := [];
    var subs := LegacySubs;
    var i := 0;
    while i < |subs|
      invariant 0 <= i <= |subs|
      invariant done == Posts(subs[..i], keyword, search, score)
      invariant store.Valid() && store.Snapshot() == Save(db0, ticker, done) && found == Sentiments(done)
    {
      var sub := subs[i];
      found := ScanSub(store, ticker, sub, keyword, search, score, db0, done, found);
      done := done + SubPosts(sub, keyword, search, score);
      assert subs[..i + 1][..i] == subs[..i];
      i := i + 1;
    }
    assert subs[..i] == subs;
  }

  /** The inner loop: the (at most five) hits of one subreddit. */
  method ScanSub(store: Store, ticker: string, sub: string, keyword: string,
                 search: (string, string) -> seq<Hit>, score: string -> real,
                 ghost db0: Db, ghost done: seq<Social>, found0: seq<real>) returns (found: seq<real>)
    requires store.Valid() && store.Snapshot() == Save(db0, ticker, done) && found0 == Sentiments(done)
    modifies store
    ensures var all := done + SubPosts(sub, keyword, search, score);
      store.Valid() && store.Snapshot() == Save(db0, ticker, all) && found == Sentiments(all)
  {
    var hits := Limit(search(sub, keyword), PostsPerSub);
    ghost var posts := SubPosts(sub, keyword, search, score);
    ghost var read := done;
    found := found0;
    var j := 0;
    while j < |hits|
      invariant 0 <= j <= |hits| && |posts| == |hits| && read == done + posts[..j]
      invariant store.Valid() && store.Snapshot() == Save(db0, ticker, read) && found == Sentiments(read)
    {
      var post := hits[j];
      var text := Limit(post.title + " " + post.selftext, TextLimit);
      var sentiment := score(text);
      PostAt(sub, keyword, search, score, j);
      SaveSnoc(db0, ticker, read, posts[j]);
      store.LogSentiment(ticker, post.created, "Reddit (r/" + sub + ")", post.title, sentiment);
      found := found + [sentiment];
      ReadOneMore(done, posts, j);
      read := read + [posts[j]];
      j := j + 1;
    }
    assert posts[..j] == posts;
  }

  /** The `j`-th post read from a subreddit is its `j`-th hit, saved with the score of its text. */
  lemma PostAt(sub: string, keyword: string, search: (string, string) -> seq<Hit>, score: string -> real, j: nat)
    requires j < |Limit(search(sub, keyword), PostsPerSub)|
    ensures var posts := SubPosts(sub, keyword, search, score);
      var h := Limit(search(sub, keyword), PostsPerSub)[j];
      j < |posts| &&
      posts[j] == Social("Reddit (r/" + sub + ")", h.title, h.created, score(Limit(h.title + " " + h.selftext, TextLimit)))
  {
  }

  lemma SaveSnoc(db: Db, ticker: string, posts: seq<Social>, p: Social)
    ensures Save(db, ticker, posts + [p]) == LogSentiment(Save(db, ticker, posts), ticker, p.ts, p.source, p.title, p.sentiment)
    ensures Sentiments(posts + [p]) == Sentiments(posts) + [p.sentiment]
  {
    assert (posts + [p])[..|posts|] == posts;
  }

  /** At most five posts from each subreddit, each saved under its subreddit's source name. */
  lemma {:induction false} PostsSpec(subs: seq<string>, keyword: string, search: (string, string) -> seq<Hit>, score: string -> real)
    ensures |Posts(subs, keyword, search, score)| <= PostsPerSub * |subs|
    ensures forall p :: p in Posts(subs, keyword, search, score) ==>
      exists s :: s in subs && p.source == "Reddit (r/" + s + ")"
    decreases |subs|
  {
    if |subs| > 0 {
      var q := subs[..|subs| - 1];
      var s := subs[|subs| - 1];
      PostsSpec(q, keyword, search, score);
      var r := Posts(subs, keyword, search, score);
      forall p | p in r ensures exists s' :: s' in subs && p.source == "Reddit (r/" + s' + ")" {
        if p in Posts(q, keyword, search, score) {
          var s' :| s' in q && p.source == "Reddit (r/" + s' + ")";
          assert s' in subs;
        } else {
          assert p in SubPosts(s, keyword, search, score);
        }
      }
    }
  }

  /**
   * Saving posts only appends sentiment rows, one per post in order, each
   * stamped with the post's time; the other tables are untouched.
   */
  lemma {:induction false} SaveSpec(db: Db, ticker: string, posts: seq<Social>)
    requires Valid(db)
    ensures var r := Save(db, ticker, posts);
      Valid(r) && |r.sentiment| == |db.sentiment| + |posts| && Extends(db.sentiment, r.sentiment) &&
      r.stocks == db.stocks && r.market == db.market && r.alerts == db.alerts
    ensures var r := Save(db, ticker, posts);
      forall i :: 0 <= i < |posts| ==>
        r.sentiment[|db.sentiment| + i] ==
        Row(|db.sentiment| + i + 1, ticker, posts[i].ts, Mention(posts[i].source, posts[i].title, posts[i].sentiment))
    decreases |posts|
  {
    if |posts| > 0 {
      var n := |posts| - 1;
      var pre := posts[..n];
      var p := posts[n];
      SaveSpec(db, ticker, pre);
      var q := Save(db, ticker, pre);
      LogSpec(q, ticker, p.ts, 0.0, 0, p.source, p.title, p.sentiment, "", "");
      var r := Save(db, ticker, posts);
      assert r == LogSentiment(q, ticker, p.ts, p.source, p.title, p.sentiment);
      ExtendsTransitive(db.sentiment, q.sentiment, r.sentiment);
      forall i | 0 <= i < |posts|
        ensures r.sentiment[|db.sentiment| + i] ==
          Row(|db.sentiment| + i + 1, ticker, posts[i].ts, Mention(posts[i].source, posts[i].title, posts[i].sentiment))
      {
        if i < n {
          assert posts[i] == pre[i];
          assert r.sentiment[|db.sentiment| + i] == q.sentiment[|db.sentiment| + i];
        }
      }
    }
  }

  /** Without credentials nothing is read or saved; with them at most 15 posts. */
  lemma RedditScanSpec(client: bool, keyword: string, search: (string, string) -> seq<Hit>, score: string -> real)
    ensures !client ==> RedditScan(client, keyword, search, score) == []
    ensures |RedditScan(client, keyword, search, score)| <= 15
  {
    PostsSpec(LegacySubs, keyword, search, score);
  }

  // ---- analyze_ticker ----

  /** The first half of `analyze_ticker`: save the bar, then test its volume. */
  function PriceStep(db: Db, ticker: string, data: Option<Bar>, now: int): Db {
    if data.None? then db
    else
      var saved := LogMarketData(db, ticker, data.value.ts, data.value.close, data.value.volume);
      if LegacySpike(Window(saved, ticker), data.value.volume)
      then LogAlert(saved, ticker, now, VolumeSpikeType, "") else saved
  }

  /** The second half: save the posts, then test their mean sentiment. */
  function SocialStep(db: Db, ticker: string, posts: seq<Social>, now: int): Db {
    var saved := Save(db, ticker, posts);
    if SocialAlarm(posts) then LogAlert(saved, ticker, now, SocialSentimentType, "") else saved
  }

  /** `if posts_found:` and `abs(avg_sent) > 0.4` */
  predicate SocialAlarm(posts: seq<Social>) {
    |posts| > 0 && Abs(MeanOrZero(Sentiments(posts))) > LegacySentiment
  }

  /** `analyze_ticker(ticker, keyword)` as a function of the store; `now` stamps the alerts. */
  function Analyze(db: Db, ticker: string, data: Option<Bar>, client: bool, keyword: string,
                   search: (string, string) -> seq<Hit>, score: string -> real, now: int): Db
  {
    SocialStep(PriceStep(db, ticker, data, now), ticker, RedditScan(client, keyword, search, score), now)
  }

  /** `analyze_ticker(ticker, keyword)` against the store, given what `get_market_data` returned. */
  method AnalyzeTicker(store: Store, ticker: string, keyword: string, data: Option<Bar>, client: bool,
                       search: (string, string) -> seq<Hit>, score: string -> real, now: int) returns (r: string)
    requires store.Valid()
    modifies store
    ensures store.Valid()
    ensures r == "Done"
    ensures store.Snapshot() == Analyze(old(store.Snapshot()), ticker, data, client, keyword, search, score, now)
  {
    if data.Some? {
      var bar := data.value;
      store.LogMarketData(ticker, bar.ts, bar.close, bar.volume);
      var history := RecentVolumes(store.Snapshot(), ticker, WindowSize);
      if LegacySpike(history, bar.volume) {
        store.LogAlert(ticker, now, VolumeSpikeType, "");
      }
    }
    var sentiments := GetRedditData(store, ticker, keyword, client, search, score);
    if |sentiments| > 0 {
      var avg := MeanOrZero(sentiments);
      if Abs(avg) > LegacySentiment {
        store.LogAlert(ticker, now, SocialSentimentType, "");
      }
    }
    r := "Done";
  }

  /** The alerts `analyze_ticker` raises, in order. */
  function LegacyAlerts(db: Db, ticker: string, data: Option<Bar>, posts: seq<Social>): seq<Alert> {
    PriceAlerts(db, ticker, data) +
    (if SocialAlarm(posts) then [Alert(SocialSentimentType, "")] else [])
  }

  /** The alerts `analyze_ticker` raises over the price, in order. */
  function PriceAlerts(db: Db, ticker: string, data: Option<Bar>): seq<Alert> {
    if data.Some? &&
       LegacySpike(Window(LogMarketData(db, ticker, data.value.ts, data.value.close, data.value.volume), ticker),
                   data.value.volume)
    then [Alert(VolumeSpikeType, "")] else []
  }

  /**
   * The price row is written before the history is read, so the history
   * tested starts with the current volume; one market row is written exactly
   * when a bar came back and a spike alert exactly when the rule fires.
   */
  lemma PriceStepSpec(db: Db, ticker: string, data: Option<Bar>, now: int)
    requires Valid(db)
    ensures data.Some? ==>
      var w := Window(LogMarketData(db, ticker, data.value.ts, data.value.close, data.value.volume), ticker);
      |w| > 0 && w[0] == data.value.volume
    ensures var r := PriceStep(db, ticker, data, now);
      Valid(r) && r.stocks == db.stocks && r.sentiment == db.sentiment && Extends(db.market, r.market) &&
      |r.market| == |db.market| + (if data.Some? then 1 else 0) &&
      r.alerts == db.alerts + NewRows(|db.alerts|, ticker, now, PriceAlerts(db, ticker, data))
  {
    if data.Some? {
      var b := data.value;
      RecentVolumesAfterLog(db, ticker, b.ts, b.close, b.volume, WindowSize);
      LogSpec(db, ticker, b.ts, b.close, b.volume, "", "", 0.0, VolumeSpikeType, "");
      var saved := LogMarketData(db, ticker, b.ts, b.close, b.volume);
      LogSpec(saved, ticker, now, 0.0, 0, "", "", 0.0, VolumeSpikeType, "");
      var rows := NewRows(|db.alerts|, ticker, now, PriceAlerts(db, ticker, data));
      if LegacySpike(Window(saved, ticker), b.volume) {
        assert LogAlert(saved, ticker, now, VolumeSpikeType, "").alerts == db.alerts + rows;
      } else {
        assert rows == [];
      }
    } else {
      assert NewRows(|db.alerts|, ticker, now, []) == [];
    }
  }

  /**
   * One sentiment row per post, in order, and a social sentiment alert
   * exactly when there were posts and their mean is beyond +-0.4.
   */
  lemma SocialStepSpec(db: Db, ticker: string, posts: seq<Social>, now: int)
    requires Valid(db)
    ensures var r := SocialStep(db, ticker, posts, now);
      Valid(r) && r.stocks == db.stocks && r.market == db.market && Extends(db.sentiment, r.sentiment) &&
      |r.sentiment| == |db.sentiment| + |posts| &&
      r.alerts == db.alerts + NewRows(|db.alerts|, ticker, now, if SocialAlarm(posts) then [Alert(SocialSentimentType, "")] else [])
  {
    SaveSpec(db, ticker, posts);
    var saved := Save(db, ticker, posts);
    LogSpec(saved, ticker, now, 0.0, 0, "", "", 0.0, SocialSentimentType, "");
    if !SocialAlarm(posts) {
      assert NewRows(|db.alerts|, ticker, now, []) == [];
    }
  }

  lemma NewRowsAppend(base: nat, ticker: string, now: int, a: seq<Alert>, b: seq<Alert>)
    ensures NewRows(base, ticker, now, a) + NewRows(base + |a|, ticker, now, b) == NewRows(base, ticker, now, a + b)
  {
    var l := NewRows(base, ticker, now, a) + NewRows(base + |a|, ticker, now, b);
    var r := NewRows(base, ticker, now, a + b);
    assert |l| == |r|;
    forall i | 0 <= i < |l| ensures l[i] == r[i] {
      if i >= |a| {
        assert l[i] == NewRows(base + |a|, ticker, now, b)[i - |a|];
      }
    }
  }

  /**
   * `analyze_ticker` leaves the registry alone, only appends rows, writes one
   * market row exactly when a bar came back and one sentiment row per post,
   * and raises the volume spike alert and then the social sentiment alert,
   * each exactly when its rule fires.
   */
  lemma AnalyzeSpec(db: Db, ticker: string, data: Option<Bar>, client: bool, keyword: string,
                    search: (string, string) -> seq<Hit>, score: string -> real, now: int)
    requires Valid(db)
    ensures var r := Analyze(db, ticker, data, client, keyword, search, score, now);
      Valid(r) && r.stocks == db.stocks &&
      Extends(db.market, r.market) && Extends(db.sentiment, r.sentiment) && Extends(db.alerts, r.alerts)
    ensures var r := Analyze(db, ticker, data, client, keyword, search, score, now);
      |r.market| == |db.market| + (if data.Some? then 1 else 0) &&
      |r.sentiment| == |db.sentiment| + |RedditScan(client, keyword, search, score)|
    ensures var r := Analyze(db, ticker, data, client, keyword, search, score, now);
      r.alerts == db.alerts +
        NewRows(|db.alerts|, ticker, now, LegacyAlerts(db, ticker, data, RedditScan(client, keyword, search, score)))
  {
    StepsSpec(db, ticker, data, RedditScan(client, keyword, search, score), now);
  }

  /** The two halves of `analyze_ticker` together, for any list of posts read. */
  lemma StepsSpec(db: Db, ticker: string, data: Option<Bar>, posts: seq<Social>, now: int)
    requires Valid(db)
    ensures var r := SocialStep(PriceStep(db, ticker, data, now), ticker, posts, now);
      Valid(r) && r.stocks == db.stocks &&
      Extends(db.market, r.market) && Extends(db.sentiment, r.sentiment) && Extends(db.alerts, r.alerts) &&
      |r.market| == |db.market| + (if data.Some? then 1 else 0) &&
      |r.sentiment| == |db.sentiment| + |posts| &&
      r.alerts == db.alerts + NewRows(|db.alerts|, ticker, now, LegacyAlerts(db, ticker, data, posts))
  {
    PriceStepSpec(db, ticker, data, now);
    var p := PriceStep(db, ticker, data, now);
    var pa := PriceAlerts(db, ticker, data);
    var sa := if SocialAlarm(posts) then [Alert(SocialSentimentType, "")] else [];
    assert LegacyAlerts(db, ticker, data, posts) == pa + sa;
    SocialAfter(db, ticker, now, pa, posts, p, SocialStep(p, ticker, posts, now));
  }

  /** The social half after any price half that only appended market rows and the alerts `pa`. */
  lemma SocialAfter(db: Db, ticker: string, now: int, pa: seq<Alert>, posts: seq<Social>, p: Db, r: Db)
    requires Valid(db) && Valid(p) && p.stocks == db.stocks && p.sentiment == db.sentiment
    requires Extends(db.market, p.market)
    requires p.alerts == db.alerts + NewRows(|db.alerts|, ticker, now, pa)
    requires r == SocialStep(p, ticker, posts, now)
    ensures Valid(r) && r.stocks == db.stocks && r.market == p.market &&
      Extends(db.market, r.market) && Extends(db.sentiment, r.sentiment) && Extends(db.alerts, r.alerts) &&
      |r.sentiment| == |db.sentiment| + |posts|
    ensures var sa := if SocialAlarm(posts) then [Alert(SocialSentimentType, "")] else [];
      r.alerts == db.alerts + NewRows(|db.alerts|, ticker, now, pa + sa)
  {
    SocialStepSpec(p, ticker, posts, now);
    var sa := if SocialAlarm(posts) then [Alert(SocialSentimentType, "")] else [];
    NewRowsAppend(|db.alerts|, ticker, now, pa, sa);
    ExtendsTransitive(db.sentiment, p.sentiment, r.sentiment);
    assert r.alerts[..|db.alerts|] == db.alerts;
  }
}
