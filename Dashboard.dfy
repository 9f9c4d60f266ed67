/**
 * The decision rules of the Streamlit dashboard: the "time ago" captions,
 * the headline tagger, the alert-card style, the whisper filter, the
 * volume z-score and summary of a stock's overview tab, and which alerts
 * the banner and a stock's tab show. Rendering is not modelled; the
 * clock is a parameter.
 */
module Dashboard {
  import opened Wrappers
  import opened Text
  import opened Stats
  import opened Log
  import opened Tables
  import opened Anomaly
  import opened Forums
  import opened Signals
  import opened Pipeline

  // ---- get_time_ago ----

  /** `int(x)` on a float: truncation toward zero. */
  function Trunc(x: real): int {
    if x >= 0.0 then x.Floor else -((-x).Floor)
  }

  /** The four captions, with the count each one prints. */
  datatype Ago = JustNow | MinutesAgo(minutes: nat) | HoursAgo(hours: nat) | DaysAgo(days: nat)

  /** The bucket for an elapsed time of `seconds` (negative for a timestamp in the future). */
  function Bucket(seconds: real): Ago {
    var minutes := Trunc(seconds / 60.0);
    if minutes < 1 then JustNow
    else if minutes < 60 then MinutesAgo(minutes)
    else
      var hours := minutes / 60;
      if hours < 24 then HoursAgo(hours) else DaysAgo(hours / 24)
  }

  function AgoText(a: Ago): string {
    match a
    case JustNow => "Just now"
    case MinutesAgo(m) => NatToString(m) + " min ago"
    case HoursAgo(h) => NatToString(h) + " hr ago"
    case DaysAgo(d) => NatToString(d) + " days ago"
  }

  /**
   * `get_time_ago(timestamp_str)`: `elapsed` is `now - dt` in seconds, or
   * `None` when the timestamp does not parse, in which case the raw string
   * is shown.
   */
  function TimeAgo(raw: string, elapsed: Option<real>): string {
    match elapsed
    case None => raw
    case Some(seconds) => AgoText(Bucket(seconds))
  }

  /**
   * The buckets cut at one minute, one hour and one day, and each count is
   * the number of whole units elapsed.
   */
  lemma BucketSpec(seconds: real)
    ensures Bucket(seconds) == JustNow <==> seconds < 60.0
    ensures Bucket(seconds).MinutesAgo? <==> 60.0 <= seconds < 3600.0
    ensures Bucket(seconds).HoursAgo? <==> 3600.0 <= seconds < 86400.0
    ensures Bucket(seconds).DaysAgo? <==> 86400.0 <= seconds
    ensures Bucket(seconds).MinutesAgo? ==>
      var m := Bucket(seconds).minutes as real; m * 60.0 <= seconds < (m + 1.0) * 60.0
    ensures Bucket(seconds).HoursAgo? ==>
      var h := Bucket(seconds).hours as real; h * 3600.0 <= seconds < (h + 1.0) * 3600.0
    ensures Bucket(seconds).DaysAgo? ==>
      var d := Bucket(seconds).days as real; d * 86400.0 <= seconds < (d + 1.0) * 86400.0
  {
    var x := seconds / 60.0;
    assert seconds == x * 60.0;
    if x >= 0.0 {
      var m := x.Floor;
      assert m as real <= x < m as real + 1.0;
      if m >= 60 {
        var h := m / 60;
        assert 60 * h <= m < 60 * h + 60;
        assert (60 * h) as real <= m as real;
        if h >= 24 {
          var d := h / 24;
          assert 24 * d <= h < 24 * d + 24;
          assert (1440 * d) as real <= m as real < (1440 * d + 1440) as real;
        }
      }
    } else {
      assert Trunc(x) <= 0;
    }
  }

  /** Later is never a shorter caption: the bucket only moves forward as time passes. */
  function Rank(a: Ago): nat {
    match a
    case JustNow => 0
    case MinutesAgo(_) => 1
    case HoursAgo(_) => 2
    case DaysAgo(_) => 3
  }

  lemma BucketMonotone(s1: real, s2: real)
    requires s1 <= s2
    ensures Rank(Bucket(s1)) <= Rank(Bucket(s2))
  {
    BucketSpec(s1);
    BucketSpec(s2);
  }

  // ---- get_smart_tags ----

  datatype Tag = Earnings | Growth | Mgmt | Legal | Market

  /** The order the tagger checks, and lists, the tags. */
  const TagOrder: seq<Tag> := [Earnings, Growth, Mgmt, Legal, Market]

  function Position(t: Tag): nat {
    match t
    case Earnings => 0
    case Growth => 1
    case Mgmt => 2
    case Legal => 3
    case Market => 4
  }

  /** The keywords of each tag, matched as substrings of the lower-cased headline. */
  function Keywords(t: Tag): seq<string> {
    match t
    case Earnings => ["profit", "loss", "quarter", "q1", "q2", "q3", "q4", "result", "revenue", "dividend", "net income", "margin"]
    case Growth => ["acquire", "deal", "merge", "partnership", "contract", "order", "win", "launch", "expand", "new"]
    case Mgmt => ["ceo", "cfo", "resign", "appoint", "quit", "step down", "board", "director", "management"]
    case Legal => ["sebi", "rbi", "ban", "fraud", "scam", "court", "suit", "penalty", "fine", "compliance"]
    case Market => ["surge", "jump", "crash", "drop", "plunge", "rally", "target", "upgrade", "downgrade", "buy", "sell"]
  }

  /** The `(Label, HexColor)` pair of each tag. */
  function Badge(t: Tag): (string, string) {
    match t
    case Earnings => ("💰 Earnings", "#FFD700")
    case Growth => ("🚀 Growth", "#00CC96")
    case Mgmt => ("👔 Mgmt", "#AB63FA")
    case Legal => ("⚖️ Legal", "#EF553B")
    case Market => ("📈 Market", "#636EFA")
  }

  /** `any(x in title_lower for x in keywords)` */
  predicate AnyIn(keywords: seq<string>, s: string) {
    exists k :: k in keywords && Contains(s, k)
  }

  predicate Tagged(title: string, t: Tag) {
    AnyIn(Keywords(t), Lower(title))
  }

  /** The tags of `order` that `hit` selects, in that order. */
  function Earned(order: seq<Tag>, hit: Tag -> bool): seq<Tag>
    decreases |order|
  {
    if |order| == 0 then []
    else (if hit(order[0]) then [order[0]] else []) + Earned(order[1..], hit)
  }

  /** Which tags a headline earns. */
  function Hits(title: string): Tag -> bool {
    t => Tagged(title, t)
  }

  /** The tags of a headline; an empty headline has none. */
  function SmartTags(title: string): seq<Tag> {
    if title == "" then [] else Earned(TagOrder, Hits(title))
  }

  function Badges(tags: seq<Tag>): (r: seq<(string, string)>)
    ensures |r| == |tags|
    ensures forall i :: 0 <= i < |tags| ==> r[i] == Badge(tags[i])
  {
    seq(|tags|, i requires 0 <= i < |tags| => Badge(tags[i]))
  }

  /** `get_smart_tags(title)` */
  method GetSmartTags(title: string) returns (tags: seq<(string, string)>)
    ensures tags == Badges(SmartTags(title))
  {
    if title == "" {
      return [];
    }
    tags := AppendBadges(Hits(title));
  }

  /** The five `if any(...): tags.append(...)` steps, given which tags the headline hits. */
  method AppendBadges(hit: Tag -> bool) returns (tags: seq<(string, string)>)
    ensures tags == Badges(Earned(TagOrder, hit))
  {
    tags := [];
    ghost var earned: seq<Tag> := [];
    if hit(Earnings) {
      tags := tags + [Badge(Earnings)];
    }
    earned := BadgesStep(earned, hit, Earnings);
    if hit(Growth) {
      tags := tags + [Badge(Growth)];
    }
    earned := BadgesStep(earned, hit, Growth);
    if hit(Mgmt) {
      tags := tags + [Badge(Mgmt)];
    }
    earned := BadgesStep(earned, hit, Mgmt);
    if hit(Legal) {
      tags := tags + [Badge(Legal)];
    }
    earned := BadgesStep(earned, hit, Legal);
    if hit(Market) {
      tags := tags + [Badge(Market)];
    }
    earned := BadgesStep(earned, hit, Market);
    EarnedInOrder(hit);
  }

  /** One `if ...: tags.append(badge)` of the tagger, on the tags it stands for. */
  ghost function BadgesStep(earned: seq<Tag>, hit: Tag -> bool, t: Tag): (r: seq<Tag>)
    ensures r == earned + Pick(hit, t)
    ensures Badges(r) == if hit(t) then Badges(earned) + [Badge(t)] else Badges(earned)
  {
    earned + Pick(hit, t)
  }

  function Pick(hit: Tag -> bool, t: Tag): seq<Tag> {
    if hit(t) then [t] else []
  }

  lemma EarnedCons(t: Tag, rest: seq<Tag>, hit: Tag -> bool)
    ensures Earned([t] + rest, hit) == Pick(hit, t) + Earned(rest, hit)
  {
    assert ([t] + rest)[1..] == rest;
  }

  lemma EarnedUnfold(hit: Tag -> bool)
    ensures Earned(TagOrder, hit) ==
      Pick(hit, Earnings) + (Pick(hit, Growth) + (Pick(hit, Mgmt) + (Pick(hit, Legal) + Pick(hit, Market))))
  {
    EarnedCons(Market, [], hit);
    assert [Market] + [] == [Market];
    EarnedCons(Legal, [Market], hit);
    EarnedCons(Mgmt, [Legal, Market], hit);
    EarnedCons(Growth, [Mgmt, Legal, Market], hit);
    EarnedCons(Earnings, [Growth, Mgmt, Legal, Market], hit);
    assert TagOrder == [Earnings] + [Growth, Mgmt, Legal, Market];
    assert [Growth] + [Mgmt, Legal, Market] == [Growth, Mgmt, Legal, Market];
    assert [Mgmt] + [Legal, Market] == [Mgmt, Legal, Market];
    assert [Legal] + [Market] == [Legal, Market];
  }

  /** Tags in strictly increasing position, hence each at most once. */
  predicate Ordered(tags: seq<Tag>) {
    forall i, j :: 0 <= i < j < |tags| ==> Position(tags[i]) < Position(tags[j])
  }

  /** The same five steps, as the tagger takes them. */
  lemma EarnedInOrder(hit: Tag -> bool)
    ensures Earned(TagOrder, hit) ==
      [] + Pick(hit, Earnings) + Pick(hit, Growth) + Pick(hit, Mgmt) + Pick(hit, Legal) + Pick(hit, Market)
  {
    EarnedUnfold(hit);
    Regroup(Pick(hit, Earnings), Pick(hit, Growth), Pick(hit, Mgmt), Pick(hit, Legal), Pick(hit, Market));
  }

  lemma Regroup(p1: seq<Tag>, p2: seq<Tag>, p3: seq<Tag>, p4: seq<Tag>, p5: seq<Tag>)
    ensures [] + p1 + p2 + p3 + p4 + p5 == p1 + (p2 + (p3 + (p4 + p5)))
  {
    assert [] + p1 == p1;
    assert p1 + p2 + p3 == p1 + (p2 + p3);
    assert p1 + (p2 + p3) + p4 == p1 + (p2 + (p3 + p4));
    assert p1 + (p2 + (p3 + p4)) + p5 == p1 + (p2 + (p3 + (p4 + p5)));
  }

  lemma {:induction false} EarnedSpec(order: seq<Tag>, hit: Tag -> bool)
    ensures forall t :: t in Earned(order, hit) <==> t in order && hit(t)
    ensures |Earned(order, hit)| <= |order|
    ensures Ordered(order) ==> Ordered(Earned(order, hit))
  {
    EarnedMembers(order, hit);
    if Ordered(order) {
      EarnedOrdered(order, hit);
    }
  }

  lemma {:induction false} EarnedMembers(order: seq<Tag>, hit: Tag -> bool)
    ensures forall t :: t in Earned(order, hit) <==> t in order && hit(t)
    ensures |Earned(order, hit)| <= |order|
    decreases |order|
  {
    if |order| > 0 {
      EarnedMembers(order[1..], hit);
      assert Earned(order, hit) == Pick(hit, order[0]) + Earned(order[1..], hit);
      assert order == [order[0]] + order[1..];
    }
  }

  lemma {:induction false} EarnedOrdered(order: seq<Tag>, hit: Tag -> bool)
    requires Ordered(order)
    ensures Ordered(Earned(order, hit))
    decreases |order|
  {
    if |order| > 0 {
      var t := order[0];
      OrderedSplit(order);
      EarnedOrdered(order[1..], hit);
      EarnedMembers(order[1..], hit);
      var rest := Earned(order[1..], hit);
      assert Earned(order, hit) == Pick(hit, t) + rest;
      if hit(t) {
        OrderedCons(t, rest);
        assert Earned(order, hit) == [t] + rest;
      }
    }
  }

  /** The tail of an ordered sequence is ordered, and its head comes before every later tag. */
  lemma OrderedSplit(order: seq<Tag>)
    requires Ordered(order) && |order| > 0
    ensures Ordered(order[1..])
    ensures forall x :: x in order[1..] ==> Position(order[0]) < Position(x)
  {
    var tail := order[1..];
    forall i, j | 0 <= i < j < |tail| ensures Position(tail[i]) < Position(tail[j]) {
      assert tail[i] == order[i + 1] && tail[j] == order[j + 1];
    }
    forall x | x in tail ensures Position(order[0]) < Position(x) {
      var k :| 0 <= k < |tail| && tail[k] == x;
      assert order[k + 1] == x;
    }
  }

  lemma OrderedCons(t: Tag, rest: seq<Tag>)
    requires Ordered(rest)
    requires forall x :: x in rest ==> Position(t) < Position(x)
    ensures Ordered([t] + rest)
  {
    var r := [t] + rest;
    forall i, j | 0 <= i < j < |r| ensures Position(r[i]) < Position(r[j]) {
      assert r[j] == rest[j - 1];
      if i == 0 {
        assert rest[j - 1] in rest;
      } else {
        assert r[i] == rest[i - 1];
      }
    }
  }

  /**
   * A headline gets a tag exactly when it is non-empty and its lower-cased
   * text contains one of the tag's keywords; the tags come in the order
   * Earnings, Growth, Mgmt, Legal, Market, each at most once.
   */
  lemma SmartTagsSpec(title: string)
    ensures title == "" ==> SmartTags(title) == []
    ensures forall t :: t in SmartTags(title) <==> title != "" && Tagged(title, t)
    ensures Ordered(SmartTags(title))
    ensures forall i, j :: 0 <= i < j < |SmartTags(title)| ==> SmartTags(title)[i] != SmartTags(title)[j]
    ensures |SmartTags(title)| <= 5
  {
    if title != "" {
      var hit := Hits(title);
      EarnedSpec(TagOrder, hit);
      TagOrderSorted();
      forall t ensures t in SmartTags(title) <==> Tagged(title, t) {
        InTagOrder(t);
        assert hit(t) == Tagged(title, t);
      }
    }
  }

  lemma TagOrderSorted()
    ensures Ordered(TagOrder)
  {
    forall i | 0 <= i < |TagOrder| ensures Position(TagOrder[i]) == i {
    }
  }

  lemma InTagOrder(t: Tag)
    ensures t in TagOrder
  {
    assert TagOrder[Position(t)] == t;
  }

  // ---- The alert card ----

  /** The three CSS classes an alert card can have. */
  datatype Card = AnomalyCard | PositiveCard | NegativeCard

  /** The card class of an alert, from its type and message. */
  function CardClass(alertType: string, message: string): Card {
    if Contains(alertType, "SENTIMENT") then
      if Contains(message, "Positive") then PositiveCard else NegativeCard
    else AnomalyCard
  }

  /**
   * On the alerts the pipeline raises: a volume spike shows as an anomaly
   * card, and a sentiment shift as a positive card exactly when its average
   * was above zero.
   */
  lemma PipelineCards(avg: real)
    ensures CardClass(AnomalyType, SpikeMessage) == AnomalyCard
    ensures CardClass(SentimentType, ShiftMessage(avg)) == (if avg > 0.0 then PositiveCard else NegativeCard)
  {
    NotContains(AnomalyType, "SENTIMENT");
    assert OccursAt(SentimentType, "SENTIMENT", 0);
    ContainsAt(SentimentType, "SENTIMENT", 0);
    var m := ShiftMessage(avg);
    if avg > 0.0 {
      assert m[|ShiftPrefix|..|ShiftPrefix| + 8] == "Positive";
      ContainsAt(m, "Positive", |ShiftPrefix|);
    } else {
      assert m == "News Sentiment Shift: Negative";
      NotContains(m, "Positive");
    }
  }

  // ---- Whisper mode ----

  /** In whisper mode a post is shown only with at most 10 likes and a sentiment of at least 0.5 either way. */
  predicate Whisper(p: Post) {
    !(Likes(p) > 10 || Abs(PostSentiment(p)) < 0.5)
  }

  /** The posts the forum column lists. */
  function Shown(posts: seq<Post>, whisper: bool): seq<Post>
    decreases |posts|
  {
    if !whisper || |posts| == 0 then posts
    else
      var rest := Shown(posts[..|posts| - 1], whisper);
      if Whisper(posts[|posts| - 1]) then rest + [posts[|posts| - 1]] else rest
  }

  /**
   * Without whisper mode every post is listed; with it, exactly the posts
   * with at most 10 likes and |sentiment| >= 0.5, and a ValuePickr
   * discussion (which has no likes) only on its sentiment.
   */
  lemma {:induction false} ShownSpec(posts: seq<Post>, whisper: bool)
    ensures !whisper ==> Shown(posts, whisper) == posts
    ensures |Shown(posts, whisper)| <= |posts|
    ensures whisper ==> forall p :: p in Shown(posts, whisper) <==>
      p in posts && Likes(p) <= 10 && (PostSentiment(p) >= 0.5 || PostSentiment(p) <= -0.5)
    ensures forall th :: FromValuePickr(th) in posts && whisper ==>
      (FromValuePickr(th) in Shown(posts, whisper) <==> th.sentiment >= 0.5 || th.sentiment <= -0.5)
    decreases |posts|
  {
    if whisper && |posts| > 0 {
      var p := posts[..|posts| - 1];
      ShownSpec(p, whisper);
      assert posts == p + [posts[|posts| - 1]];
    }
  }

  // ---- The overview tab ----

  /**
   * The z of the overview tab on the stored window `w`: the newest stored
   * volume scored against the window that holds it, when more than 5
   * volumes are stored and the spread is not zero; 0.0 otherwise.
   */
  function DashboardZ(w: seq<int>): (r: ZScore)
    ensures |w| <= 5 || AllEqual(w) ==> r == Zero
  {
    if |w| > 5 then
      VarianceZeroIffAllEqual(w);
      if Variance(w) > 0.0 then Ratio(Deviation(w, w[0]), Variance(w)) else Zero
    else Zero
  }

  /** `current_sent`: the mean of the 20 newest stored scores of the ticker, or 0.0. */
  function DashboardSentiment(db: Db, t: string): real {
    MeanOrZero(RecentScores(db, t, 20))
  }

  /** `generate_ai_summary(current_sent, current_z)` as the tab computes it. */
  function Brief(db: Db, t: string): string {
    Signals.Text(ClassifyScore(DashboardSentiment(db, t), DashboardZ(Window(db, t))))
  }

  /**
   * Whatever `np.std` returns on a window of more than 5 volumes (any
   * sigma >= 0 whose square is the variance) and whatever `current_z` then
   * is: on a window with spread, sigma is positive and the tab's score
   * stands for `(vols[0] - mean) / sigma`; a zero sigma means a flat window
   * and the score 0.0.
   */
  lemma DashboardZDenotes(w: seq<int>, sigma: real, z: real)
    requires |w| > 5
    requires sigma >= 0.0 && sigma * sigma == Variance(w)
    requires sigma > 0.0 ==> z * sigma == w[0] as real - Mean(w)
    ensures !AllEqual(w) ==> sigma > 0.0 && DashboardZ(w).Denotes(z, sigma)
    ensures sigma == 0.0 ==> AllEqual(w) && DashboardZ(w) == Zero
    ensures AllEqual(w) ==> DashboardZ(w) == Zero
  {
    VarianceZeroIffAllEqual(w);
    if !AllEqual(w) {
      SigmaPositive(sigma, Variance(w));
    }
  }

  /**
   * The brief the tab shows is `generate_ai_summary(current_sent,
   * current_z)`, where `current_z` is the z above on a window of more than
   * 5 volumes with spread, and 0.0 otherwise.
   */
  lemma BriefAgrees(db: Db, t: string, sigma: real, z: real)
    requires var w := Window(db, t); |w| > 5 ==> sigma >= 0.0 && sigma * sigma == Variance(w)
    requires var w := Window(db, t); |w| > 5 && sigma > 0.0 ==> z * sigma == w[0] as real - Mean(w)
    ensures var w := Window(db, t);
      Brief(db, t) == GenerateAiSummary(DashboardSentiment(db, t), if |w| > 5 && !AllEqual(w) then z else 0.0)
  {
    var w := Window(db, t);
    var currentZ := if |w| > 5 && !AllEqual(w) then z else 0.0;
    if |w| > 5 {
      DashboardZDenotes(w, sigma, z);
    }
    assert DashboardZ(w).Denotes(currentZ, sigma);
    ClassifyScoreAgrees(DashboardSentiment(db, t), DashboardZ(w), currentZ, sigma);
  }

  /**
   * Right after the pipeline logs a truthy quote, the tab scores that same
   * volume against the same window the detector used; the two agree when
   * more than 5 volumes are stored, while at exactly 5 the detector scores
   * and the tab shows 0.0.
   */
  lemma DashboardMatchesDetect(db: Db, t: string, now: int, price: real, volume: int, threshold: real)
    ensures var w := Window(LogMarketData(db, t, now, price, volume), t);
      |w| > 0 && w[0] == volume &&
      (|w| > 5 ==> DashboardZ(w) == Detect(w, volume, threshold).score) &&
      (|w| == 5 ==> DashboardZ(w) == Zero)
  {
    RecentVolumesAfterLog(db, t, now, price, volume, WindowSize);
    var w := Window(LogMarketData(db, t, now, price, volume), t);
    if |w| > 5 {
      VarianceZeroIffAllEqual(w);
    }
  }

  // ---- Which alerts are shown ----

  /** `df[mask]` on a list of rows, keeping their order. */
  function Filter<T>(rows: seq<Row<T>>, keep: Row<T> -> bool): seq<Row<T>>
    decreases |rows|
  {
    if |rows| == 0 then []
    else
      var rest := Filter(rows[..|rows| - 1], keep);
      if keep(rows[|rows| - 1]) then rest + [rows[|rows| - 1]] else rest
  }

  /** Ids strictly decrease along the rows: newest first. */
  predicate NewestFirst<T>(rows: seq<Row<T>>) {
    forall i, j :: 0 <= i < j < |rows| ==> rows[i].id > rows[j].id
  }

  lemma {:induction false} FilterSpec<T>(rows: seq<Row<T>>, keep: Row<T> -> bool)
    ensures forall x :: x in Filter(rows, keep) ==> x in rows && keep(x)
    ensures forall x :: x in rows && keep(x) ==> x in Filter(rows, keep)
    ensures |Filter(rows, keep)| <= |rows|
    ensures NewestFirst(rows) ==> NewestFirst(Filter(rows, keep))
    decreases |rows|
  {
    if |rows| > 0 {
      var p := rows[..|rows| - 1];
      var last := rows[|rows| - 1];
      FilterSpec(p, keep);
      var f := Filter(p, keep);
      var r := Filter(rows, keep);
      assert rows == p + [last];
      assert r == if keep(last) then f + [last] else f;
      forall x | x in r ensures x in rows && keep(x) {
        if x != last || !keep(last) {
          assert x in f;
        }
      }
      forall x | x in rows && keep(x) ensures x in r {
        if x != last {
          assert x in p;
        }
      }
      if NewestFirst(rows) {
        assert NewestFirst(p);
        forall i, j | 0 <= i < j < |r| ensures r[i].id > r[j].id {
          if j < |f| {
            assert r[i] == f[i] && r[j] == f[j];
          } else {
            assert r[i] == f[i] && r[i] in f && r[j] == last;
            var k :| 0 <= k < |p| && p[k] == r[i];
            assert rows[k] == r[i];
          }
        }
      }
    }
  }

  /** `timedelta(hours=24)` in seconds: the banner keeps alerts of the last day. */
  const Day: int := 86400

  /** The tickers of the registry. */
  function TrackedTickers(db: Db): set<string> {
    set s | s in db.stocks :: s.ticker
  }

  /** `isin(tracked_tickers)` and `dt > now - 24h` */
  function BannerKeep(tracked: set<string>, now: int): Row<Alert> -> bool {
    (r: Row<Alert>) => r.ticker in tracked && r.timestamp > now - Day
  }

  /** `ticker == t` */
  function OfStock(t: string): Row<Alert> -> bool {
    (r: Row<Alert>) => r.ticker == t
  }

  /** The global banner: of the 20 newest alerts, those of tracked tickers stamped after `now - 24h`, first 3. */
  function Banner(db: Db, now: int): seq<Row<Alert>> {
    if |db.stocks| == 0 then []
    else
      var tracked := TrackedTickers(db);
      Limit(Filter(FetchRecentAlerts(db, 20), BannerKeep(tracked, now)), 3)
  }

  /** A stock's tab: of the 10 newest alerts of any ticker, those of this ticker, first 3. */
  function StockAlerts(db: Db, t: string): seq<Row<Alert>> {
    Limit(Filter(FetchRecentAlerts(db, 10), OfStock(t)), 3)
  }

  lemma LimitSpec<T>(s: seq<T>, n: nat)
    ensures |Limit(s, n)| <= n && |Limit(s, n)| <= |s|
    ensures forall i :: 0 <= i < |Limit(s, n)| ==> Limit(s, n)[i] == s[i]
    ensures forall x :: x in s && x !in Limit(s, n) ==> |Limit(s, n)| == n
  {
  }

  /**
   * Showing the first 3 of the alerts among `recent` that `keep` accepts:
   * at most 3, each a stored alert `keep` accepts, newest first, and an
   * accepted one left out means 3 are shown.
   */
  lemma ShownAlerts(db: Db, limit: nat, keep: Row<Alert> -> bool)
    requires Valid(db)
    ensures var shown := Limit(Filter(FetchRecentAlerts(db, limit), keep), 3);
      |shown| <= 3 &&
      (forall x :: x in shown ==> x in db.alerts && keep(x)) &&
      NewestFirst(shown) &&
      (forall x :: x in FetchRecentAlerts(db, limit) && keep(x) && x !in shown ==> |shown| == 3)
  {
    var recent := FetchRecentAlerts(db, limit);
    FetchRecentAlertsSpec(db, limit);
    assert NewestFirst(recent);
    FilterSpec(recent, keep);
    var f := Filter(recent, keep);
    LimitSpec(f, 3);
    var shown := Limit(f, 3);
    forall x | x in recent ensures x in db.alerts {
      var i :| 0 <= i < |recent| && recent[i] == x;
      assert x == db.alerts[|db.alerts| - 1 - i];
    }
    forall x | x in shown ensures x in f {
      var i :| 0 <= i < |shown| && shown[i] == x;
      assert f[i] == x;
    }
    assert NewestFirst(shown) by {
      forall i, j | 0 <= i < j < |shown| ensures shown[i].id > shown[j].id {
        assert shown[i] == f[i] && shown[j] == f[j];
      }
    }
  }

  /**
   * The banner shows at most 3 alerts, each stored, of a tracked ticker and
   * from the last 24 hours, newest first; any such alert among the 20 newest
   * that is not shown lost its place to 3 newer ones. With no tracked stock
   * there is no banner.
   */
  lemma BannerSpec(db: Db, now: int)
    requires Valid(db)
    ensures |Banner(db, now)| <= 3
    ensures |db.stocks| == 0 ==> Banner(db, now) == []
    ensures forall x :: x in Banner(db, now) ==>
      x in db.alerts && x.ticker in TrackedTickers(db) && x.timestamp > now - Day
    ensures NewestFirst(Banner(db, now))
    ensures |db.stocks| > 0 ==> forall x :: (x in FetchRecentAlerts(db, 20) && x.ticker in TrackedTickers(db) &&
      x.timestamp > now - Day && x !in Banner(db, now)) ==> |Banner(db, now)| == 3
  {
    if |db.stocks| > 0 {
      ShownAlerts(db, 20, BannerKeep(TrackedTickers(db), now));
    }
  }

  /**
   * A stock's tab shows at most 3 stored alerts, all of that ticker, newest
   * first; one of its alerts among the 10 newest overall that is not shown
   * lost its place to 3 newer ones.
   */
  lemma StockAlertsSpec(db: Db, t: string)
    requires Valid(db)
    ensures |StockAlerts(db, t)| <= 3
    ensures forall x :: x in StockAlerts(db, t) ==> x in db.alerts && x.ticker == t
    ensures NewestFirst(StockAlerts(db, t))
    ensures forall x :: x in FetchRecentAlerts(db, 10) && x.ticker == t && x !in StockAlerts(db, t) ==>
      |StockAlerts(db, t)| == 3
  {
    ShownAlerts(db, 10, OfStock(t));
  }
}
