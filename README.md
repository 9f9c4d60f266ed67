# Sentinel Alpha: a verified model of its alerting core

Sentinel Alpha is a stock-monitoring dashboard for Indian equities. A
SQLite store holds a registry of tracked tickers and three append-only
logs: market prices and volumes, sentiment readings, and alerts. A
pipeline cycle works through the registry. For each stock it records the
latest price and volume and tests the volume against the recent history
with a z-score. It then scores news headlines and raises an alert on a
volume spike or a strong sentiment shift. A Streamlit dashboard reads the
store back. It shows a banner of recent alerts, a one-line "AI brief",
tagged headlines and forum posts.

This project models that core in Dafny and proves what each part
promises.

- **Store** (`Log`, `Tables`, `Database`):
  - the registry is a sequence of stocks in row order, with a map view;
  - each log is a sequence of rows numbered 1, 2, 3, ...;
  - `Tables` gives each data-access operation as a function on the four tables;
  - class `Database.Store` holds the tables as fields and updates them in place, one method per operation.
- **Anomaly detector** (`Stats`, `Anomaly`): the z-score rule of `detect_anomalies`. It runs over the 20 newest volumes of a ticker.
- **News ingestion** (`News`): the loop of `fetch_news_sentiment`. The contents of the five RSS feeds are an input.
- **Forum filters** (`Forums`): the ValuePickr and Reddit result filters.
- **Decision rules** (`Signals`): the summary text rule and the peer table.
- **Pipeline cycle** (`Pipeline`): `run_pipeline`, as a method on the store.
- **Dashboard rules** (`Dashboard`):
  - the time-ago captions;
  - the headline tagger;
  - alert-card styles;
  - whisper mode;
  - the dashboard z-score and brief;
  - which alerts the banner and a stock's tab show.
- **Older pipeline** (`Legacy`): `analyze_ticker` and `get_reddit_data` of `logic.py`.

## How the model stands in for the outside world

These parts of the program become parameters of the model:

- **Network fetches.** These are yfinance, feedparser, requests and praw. Each result is a function parameter, and a failed fetch is `None` or empty.
- **The VADER sentiment scorer.** It is an uninterpreted `score: string -> real`.
- **The clock.** Every timestamp is an integer number of seconds passed in as `now`. One `now` stamps every row and alert that one cycle (or one `analyze_ticker` call) writes. The logging functions at database.py:97, 105 and 113 read the clock again for each row, so the rows of one cycle can carry slightly different times. The model gives them all the same time.
- **Square roots.** The model has no square root. A standard deviation is any `sigma >= 0` with `sigma * sigma` equal to the population variance. A z-score is any `z` with `z * sigma` equal to the deviation from the mean.
- **Z-score comparisons.** The comparison `z > t` is decided on the deviation and the variance alone (`Stats.ZScore`). Lemma `Stats.ExceedsIff` proves that this decision agrees with every such `z` and `sigma`.

## Where the code and its description differ (the model follows the code)

- **The detector's window includes the current sample.** `run_pipeline` writes the market row before `detect_anomalies` reads the 20 newest volumes (backend.py:316-318). `analyze_ticker` also saves the price before reading the history (logic.py:70-74).
- **A missing price aborts the whole cycle.** `run_pipeline` formats `price` unconditionally (backend.py:331). When the fetch returned nothing, that line fails and the remaining stocks of that cycle are never processed. The model reports this as `Report.Failed(ticker)`. The rows already written stay.
- **The peer table makes the index its own peer.** Every unlisted ticker, the Nifty 50 index `^NSEI` included, gets `["^NSEI"]` as peers (backend.py:247).
- **The dashboard and the detector use different thresholds.** The dashboard scores the newest stored volume only with more than 5 rows (app.py:199). The detector needs at least 5 (backend.py:285). `analyze_ticker` needs more than 10 (logic.py:75).
- **`logic.py` cannot be imported as written.** It imports `save_price`, `save_social`, `get_recent_prices` and `get_recent_social` (logic.py:8), which database.py does not define. So its rules are modelled against the store above:
  - a saved price is a market row stamped with the bar's time;
  - a saved post is a sentiment row stamped with its creation time;
  - the history is the 20 newest volumes of the ticker.
- **`analyze_ticker` passes `log_alert` arguments in an odd order.** It passes the formatted message as the alert type and the number as the message (logic.py:85, 93). The model keeps the fixed text as the type and an empty message.

## Model

| member | source | states |
|---|---|---|
| Tables.Empty | database.py:10-57 | a new database has four empty tables and is well formed |
| Database.Store.constructor | database.py:10-57 | a new store is well formed and holds the empty tables |
| Tables.AddStockSpec | database.py:61-69 | adding stores the upper-cased ticker with the given term and thresholds; any earlier row of that key is replaced, exactly one row has the key, the other keys and every log are unchanged |
| Tables.AddStockDefaults | database.py:61-67 | added without thresholds, a stock gets sentiment threshold 0.2 and anomaly threshold 3.0 |
| Database.Store.AddStock | database.py:61-69 | the store's new tables are those of `Tables.AddStock` on the old ones, and stay well formed |
| Tables.SetThresholdsRows | database.py:71-80 | the update changes only the two thresholds of rows whose ticker equals the argument exactly, and leaves every other row as it was |
| Tables.SetThresholdsRegistry | database.py:71-80 | seen as a map, the update re-tunes only the matching key |
| Tables.SetThresholdsNoMatch | database.py:71-80 | updating a ticker that is not registered changes nothing |
| Tables.UpdateThresholdsSpec | database.py:71-80 | the update keeps the registry well formed; it changes only the two thresholds of the exact key, tickers and terms stay, it is a no-op when no row matches, and the logs are untouched |
| Database.Store.UpdateStockThresholds | database.py:71-80 | the store's new tables are those of `Tables.UpdateThresholds` on the old ones |
| Database.Store.GetTrackedStocks | database.py:82-86 | returns every registry row in row order, with no ticker twice |
| Tables.WithoutMembers | database.py:88-92 | deleting a ticker keeps exactly the rows of other tickers |
| Tables.WithoutRegistry | database.py:88-92 | deleting a ticker removes exactly that key from the registry map |
| Tables.RemoveStockSpec | database.py:88-92 | removal takes only that key out of the registry; market, sentiment and alert rows of the ticker stay |
| Database.Store.RemoveStock | database.py:88-92 | the store's new tables are those of `Tables.RemoveStock` on the old ones |
| Log.AppendFresh | database.py:31-37 | an insert appends one row whose id is above every existing id, and moves no earlier row |
| Tables.LogSpec | database.py:95-117 | each log call appends exactly one row to its own table, with an id above every existing one, and leaves every other row of every table unchanged |
| Database.Store.LogMarketData | database.py:95-101 | the store's new tables are those of `Tables.LogMarketData` on the old ones |
| Database.Store.LogSentiment | database.py:103-109 | the store's new tables are those of `Tables.LogSentiment` on the old ones |
| Database.Store.LogAlert | database.py:111-117 | the store's new tables are those of `Tables.LogAlert` on the old ones |
| Log.NewestRows | database.py:119-123 | the newest `n` rows are the last `n` of the table, last inserted first, and all of them when the table is shorter |
| Log.NewestOrder | database.py:119-123 | the newest rows come in decreasing id order, and every row left out has a smaller id than every row returned |
| Tables.FetchRecentAlertsSpec | database.py:119-123 | recent alerts of every ticker: at most `limit`, ids strictly decreasing, the i-th newest alert at position i |
| Database.Store.FetchRecentAlerts | database.py:119-123 | returns the newest `limit` alerts of every ticker, newest first |
| Log.OfTickerMembers | database.py:125-129 | the rows of one ticker are exactly the table's rows with that ticker |
| Log.NewestOfSpec | database.py:125-129 | the newest `n` rows of one ticker: at most `n`, all of that ticker and from the table, ids decreasing, and every row of the ticker left out is older than every row returned |
| Tables.FetchChartDataSpec | database.py:125-129 | chart data has at most `limit` rows, all from the market table and of that ticker, newest first, and omits only older rows |
| Database.Store.FetchChartData | database.py:125-129 | returns at most `limit` market rows of the ticker, newest id first |
| Log.AppendVisible | database.py:95-101 | a row just logged for a ticker is the first row the next newest-first read of that ticker returns |
| Log.AppendOther | database.py:95-101 | a row logged for another ticker does not change the rows read for this one |
| Tables.RecentVolumesAfterLog | backend.py:314-318 | right after a market row is logged, the newest volume read back for the ticker is that row's volume |
| Tables.RecentVolumesOtherTicker | backend.py:280-284 | a market row of another ticker does not change the volumes read for this one |
| Stats.MeanOrZero | backend.py:232 | the mean of the scores, or 0.0 when there are none |
| Stats.VarianceZeroIffAllEqual | backend.py:287-289 | the population variance is never negative, and it is zero exactly when all volumes are equal |
| Stats.ExceedsIff | backend.py:291-296 | the square-root-free test agrees with `z > t` for every `sigma` and `z` the score stands for |
| Anomaly.Detect | backend.py:274-296 | fewer than 5 volumes gives no signal and score zero; a flat window gives no signal and score zero; otherwise the score is the current volume's deviation over the variance, and the flag is that score exceeding the threshold |
| Anomaly.DetectIsZTest | backend.py:284-296 | for any numpy-style `sigma` and `z` on at least 5 volumes: a varying window has `sigma > 0`, and then the flag is set exactly when `z > threshold`; a flat window gives no signal |
| Anomaly.AtThresholdNotAnomalous | backend.py:294-296 | a z-score exactly at the threshold does not flag |
| Anomaly.WindowSpec | backend.py:278-284 | the window holds at most 20 volumes, each from a stored market row of that ticker |
| Anomaly.WindowOtherTicker | backend.py:280-284 | rows of other tickers never change a ticker's window |
| Anomaly.DetectAnomalies | backend.py:274-296 | reads the ticker's window from the store and returns the detector's verdict on it |
| Anomaly.ExampleSpike | backend.py:291-296 | six volumes alternating 90 and 110 with a current volume of 140 flag at threshold 3 and not at 4 |
| Anomaly.ExampleFlat | backend.py:287-289 | five equal volumes never flag, whatever the current volume and threshold |
| News.EncodeSpaces | backend.py:194 | the encoded search term has no space and is unchanged when it had none; a single space becomes `%20` and any other single character stays |
| News.EncodeSpacesAppend | backend.py:194 | encoding works character by character: encoding `a + b` is encoding `a` followed by encoding `b` |
| News.RssSources | backend.py:195-201 | five feed URLs, each the Google News search prefix, the encoded term, a site filter and the locale suffix |
| News.Feeds | backend.py:207-209 | one fetched feed per RSS source, in source order |
| News.CandidatesBound | backend.py:207-210 | at most 3 entries are taken from each feed, and each candidate is among the first 3 of some feed |
| News.KeptDistinct | backend.py:211-214 | no link is processed twice across all feeds |
| News.KeptLinks | backend.py:211-214 | every link that appears in the feeds is processed once |
| News.KeptMembers | backend.py:211-214 | each processed entry came from the feeds |
| News.SourceNamePriority | backend.py:218-224 | the source name follows the fixed priority moneycontrol, livemint, economictimes, yahoo, and otherwise Google News |
| News.LogAllSpec | backend.py:226 | one sentiment row per processed entry, in order, with that entry's source, title and score; the other tables are untouched |
| News.IngestArticles | backend.py:207-228 | at most 15 articles, no link twice, and every candidate link is among them |
| News.IngestLogs | backend.py:226-233 | one sentiment row per article and nothing else written; the average is `Stats.MeanOrZero` of the returned articles' scores: their mean, or 0.0 with no articles |
| News.KeptLogs | backend.py:226 | for any list of processed entries, the rows written are one per article, appended after the existing ones, with the other tables untouched |
| News.KeptAverage | backend.py:227-232 | the scores averaged are exactly the scores carried by the returned articles, in order |
| News.FeedArticles | backend.py:207-228 | for any feeds, at most 3 articles per feed, no link twice, and every link read is among the articles |
| News.KeptCovers | backend.py:211-228 | every entry read has its link among the articles returned |
| News.ArticleLinks | backend.py:228 | every link of a processed entry is the link of some returned article |
| News.FetchNewsSentiment | backend.py:192-233 | the method's store, average and article list are those of `News.Ingest` on the old store |
| News.ReadFeed | backend.py:210-228 | one feed's entries extend the running set of seen links, the articles, the scores and the store as `News.Ingest` specifies |
| News.ReadEntry | backend.py:211-228 | an entry whose link was seen changes nothing; otherwise its link is recorded, one row is logged and its article and score are appended |
| Forums.CleanTerm | backend.py:128 | the cleaned term has no dot, occurs in the search term, and is the part before the first dot with its surrounding whitespace removed (`Text.StrippedAt`) |
| Forums.TitleMatchesIgnoresCase | backend.py:142 | the title match ignores the case of both the term and the title |
| Forums.EmptyTermMatchesAll | backend.py:142 | an empty cleaned term matches every title |
| Forums.ThreadOf | backend.py:140-155 | a kept topic becomes a ValuePickr Forum thread with the topic's title and a URL under the forum's topic prefix |
| Forums.ThreadsMembers | backend.py:139-155 | the threads are exactly the topics whose title contains the term, each turned into a thread |
| Forums.FetchValuePickrThreads | backend.py:124-158 | the result is the first 10 threads of the matching topics, and none on a failed request |
| Forums.ValuePickrSpec | backend.py:124-158 | at most 10 threads, none on a failed request, and each one a ValuePickr thread whose title contains the term |
| Forums.PostOf | backend.py:179-187 | a kept submission keeps its title and URL and is labelled with its subreddit |
| Forums.RedditPostsMembers | backend.py:171-187 | the posts are exactly the results whose title contains the term and whose subreddit is relevant |
| Forums.ListedRelevant | backend.py:168-176 | every subreddit on the fixed list counts as relevant |
| Forums.FetchRedditPosts | backend.py:160-190 | no client gives `None`; otherwise the filtered first `limit` search results |
| Forums.AllPosts | app.py:363-365 | the forum column lists the Reddit posts first, then the ValuePickr threads |
| Signals.ClassifySpec | backend.py:249-271 | a spike (z > 3) gives one of the three volume summaries, chosen by sentiment beyond +-0.2; otherwise only sentiment beyond +-0.4 is reported, and the rest is neutral |
| Signals.ClassifyMonotone | backend.py:249-271 | raising the sentiment never turns a positive summary into another one, and never turns anything else negative |
| Signals.ClassifyScoreAgrees | backend.py:256 | the square-root-free summary rule agrees with the numeric rule for every z the score stands for |
| Signals.GetPeersSpec | backend.py:235-247 | a listed ticker has its two listed peers, and any other ticker (the index included) has the index alone; only the index is its own peer |
| Signals.PeersMutual | backend.py:235-241 | TCS and Infosys are each other's peers, and so are Reliance and Adani Enterprises |
| Pipeline.EmptyRegistry | backend.py:300-303 | with no stocks the cycle reports exactly "No stocks tracked." and writes nothing |
| Pipeline.MarketStepSpec | backend.py:314-321 | with a missing or zero price nothing is written; otherwise exactly one market row is written first, so the window starts with the current volume, and an ANOMALY alert is added exactly when the detector flags |
| Pipeline.SentimentStepSpec | backend.py:323-329 | a SENTIMENT alert is added exactly when the absolute average is above the stock's threshold |
| Pipeline.ShiftLabel | backend.py:327-328 | the sentiment alert says Positive exactly when the average is above zero, and Negative otherwise |
| Pipeline.StockStepSpec | backend.py:305-329 | one stock's step keeps the registry, only appends rows, writes a market row exactly for a truthy price, and appends the ANOMALY alert and then the SENTIMENT alert, each exactly when its rule fires |
| Pipeline.StepsSpec | backend.py:305-329 | for any news step that only appends sentiment rows, the market and sentiment steps around it keep the registry, append a market row exactly for a truthy price and append exactly the expected alerts |
| Pipeline.ProcessStock | backend.py:305-329 | processing a stock changes the store as `Pipeline.StockStep` specifies and returns that stock's quote |
| Pipeline.RunStops | backend.py:331 | once a stock without a price is reached, the rest of the registry is not processed |
| Pipeline.RunAppendOnly | backend.py:305-331 | a cycle never changes the registry and only appends to the three logs |
| Pipeline.RunSummarize | backend.py:331 | the summary lines and the failure of a cycle depend only on the quotes |
| Pipeline.SummarizeSpec | backend.py:331-333 | no failure exactly when every stock had a quote, and then one line per stock in registry order; otherwise the failure names the first stock without a quote, after one line per earlier stock |
| Pipeline.CycleSpec | backend.py:298-333 | the cycle only appends rows; "No stocks tracked." exactly for an empty registry; a summary exactly when every stock had a quote, with one line per stock |
| Pipeline.RunPipeline | backend.py:298-333 | the method's report and new store are those of `Pipeline.Cycle` on the old store |
| Dashboard.BucketSpec | app.py:23-28 | the captions cut at one minute, one hour and one day, and each count is the number of whole units elapsed |
| Dashboard.BucketMonotone | app.py:23-28 | a longer elapsed time never gives a finer caption |
| Dashboard.EarnedSpec | app.py:50-59 | a tag is earned exactly when it is in the order and its test passes, and earned tags keep the order |
| Dashboard.SmartTagsSpec | app.py:46-61 | an empty title has no tags; otherwise a tag is present exactly when the lower-cased title contains one of its keywords; tags appear at most once each, in the order Earnings, Growth, Mgmt, Legal, Market |
| Dashboard.Badges | app.py:50-59 | each tag is shown as its label and color, in the same order |
| Dashboard.AppendBadges | app.py:48-61 | the five successive appends give the badges of exactly the tags that pass, in the fixed order |
| Dashboard.GetSmartTags | app.py:42-61 | the returned badges are those of `Dashboard.SmartTags` on the title |
| Dashboard.PipelineCards | app.py:148-156 | a volume spike alert shows as an anomaly card; a sentiment shift alert shows as a positive card exactly when its average was above zero, and otherwise as a negative card |
| Dashboard.ShownSpec | app.py:369-373 | without whisper mode every post is listed; with it, exactly the posts with at most 10 likes and a sentiment of at least 0.5 either way; a ValuePickr thread passes on its sentiment alone |
| Dashboard.DashboardZ | app.py:198-204 | with 5 or fewer volumes, or a flat window, the dashboard z is zero |
| Dashboard.DashboardZDenotes | app.py:198-204 | on more than 5 volumes: a varying window has `sigma > 0`, and then the score stands for the newest volume's z; a flat window gives zero |
| Dashboard.BriefAgrees | app.py:192-206 | the brief is the summary rule on the mean of the 20 newest sentiment scores and the dashboard z, which is zero unless more than 5 volumes vary |
| Dashboard.DashboardMatchesDetect | app.py:195-204 | right after the pipeline logs a volume, the dashboard scores that same volume, and with more than 5 rows its score is the detector's |
| Dashboard.FilterSpec | app.py:125-128 | the filter keeps exactly the rows that pass, in their order |
| Dashboard.LimitSpec | app.py:147 | `head(3)` keeps a prefix of at most 3 rows, and drops rows only when 3 are shown |
| Dashboard.ShownAlerts | app.py:122-147 | at most 3 alerts are shown, all from the store and passing the filter, newest first, and a passing alert is left out only when 3 are shown |
| Dashboard.BannerSpec | app.py:120-147 | the banner is empty with no stocks; otherwise at most 3 of the 20 newest alerts, each of a tracked ticker and from the last 24 hours, newest first, and a qualifying alert is left out only when 3 are shown |
| Dashboard.StockAlertsSpec | app.py:209-214 | a stock's tab shows at most 3 of the 10 newest alerts, all of that ticker, newest first |
| Legacy.LegacySpikeIsDetect | logic.py:75-84 | the old spike rule is the pipeline's detector at threshold 3, restricted to more than 10 stored volumes |
| Legacy.FewSamplesDiffer | logic.py:75 | on six volumes the pipeline's detector flags a spike that the old rule ignores |
| Legacy.LegacySpikeIsZTest | logic.py:75-84 | for any numpy-style `sigma` and `z` on more than 10 volumes, the old rule flags exactly when `sigma > 0` and `z > 3` |
| Legacy.ScoredText | logic.py:52 | the scored text is the first 500 characters of the title, a space and the body, or all of it when shorter |
| Legacy.SocialOf | logic.py:52-57 | a post is saved under "Reddit (r/<sub>)" with its title and creation time, and its sentiment is the score of `Legacy.ScoredText` |
| Legacy.SubPosts | logic.py:51-57 | the first min(5, number of hits) search hits of a subreddit, in order, each turned into a post by `Legacy.SocialOf` |
| Legacy.PostAt | logic.py:51-57 | the j-th post of a subreddit is the j-th of its first 5 hits, with that hit's title, time and the score of its first 500 characters |
| Legacy.PostsSpec | logic.py:46-58 | at most 5 posts per subreddit, each saved under the name of one of the scanned subreddits |
| Legacy.SaveSpec | logic.py:57 | one sentiment row per post, in order, with the post's source, title, time and score; the other tables are untouched |
| Legacy.RedditScanSpec | logic.py:34-36 | without credentials nothing is read; with them at most 15 posts |
| Legacy.ScanSub | logic.py:51-58 | one subreddit's posts are saved in turn and their sentiments appended, as `Legacy.Save` specifies |
| Legacy.GetRedditData | logic.py:32-62 | the store gains one sentiment row per post read, and the result lists those posts' sentiments in order |
| Legacy.PriceStepSpec | logic.py:69-86 | the price is saved before the history is read, so the history starts with the current volume; a market row is written exactly when a bar came back, and a spike alert exactly when the rule fires |
| Legacy.SocialStepSpec | logic.py:88-94 | one sentiment row per post; a social alert exactly when there were posts and their mean is beyond +-0.4 |
| Legacy.SocialAfter | logic.py:88-94 | after the price step, the social step adds one sentiment row per post, keeps the registry and the market table, and appends the spike alerts then the social alert |
| Legacy.AnalyzeSpec | logic.py:64-96 | the registry stays; every table only grows; a market row exactly for a fetched bar; one sentiment row per post; the spike alert then the social alert, each exactly when its rule fires |
| Legacy.AnalyzeTicker | logic.py:64-96 | always returns "Done", and changes the store as `Legacy.Analyze` specifies |
| Text.Lower | app.py:47 | lower-casing maps each character, keeps the length and leaves no upper-case letter |
| Text.Upper | database.py:67 | upper-casing maps each character, keeps the length and leaves no lower-case letter |
| Text.Strip | backend.py:128 | the result occurs in the string right after its leading whitespace, only whitespace follows it, and it neither starts nor ends with whitespace |
| Text.StripStripped | backend.py:128 | `Text.Strip` is a stripped cut of its input (`Text.StrippedAt`) and occurs in it |
| Text.StripUnique | backend.py:128 | any cut of a string with only whitespace around it and none at its ends is `Text.Strip` of that string |
| Text.BeforeFirst | backend.py:128 | the part before the first dot is a prefix without a dot, and is followed by a dot unless it is the whole string |
| Text.Join | backend.py:333 | joining no parts gives the empty string and joining one part gives that part |
| Text.JoinSnoc | backend.py:333 | joining one more part adds the separator and that part at the end |

## Left out

- **Network access.** yfinance, feedparser, requests and praw are not modelled. Their results are parameters, and a failure is `None` or empty.
- **VADER sentiment.** It is an uninterpreted function.
- **Floating point.** numpy `mean`/`std` rounding is not modelled. The model computes over exact reals and integers, and characterises the square root as above.
- **Presentation.** Not modelled:
  - the `:.2f` numbers in alert messages and summary lines (the model keeps each message's fixed text, and a summary line's price as a number);
  - the ₹ formatting;
  - `fmt_num` and `fmt_pct`;
  - emoji and icons;
  - Streamlit and plotly rendering;
  - SMA chart overlays;
  - `time.sleep` and `st.rerun`.
- **SQL mechanics.** Not modelled:
  - connections;
  - the `ALTER TABLE` migration of `init_db`;
  - the f-string queries. Quoting is not modelled: a ticker containing a quote character would produce a broken query, but the model treats it as an ordinary ticker.
- **Exceptions.** An exception part-way through a feed, a forum search or a subreddit scan is not modelled. The source swallows it and keeps the rows already written. The model instead treats each fetched input as complete.
- **Case mapping.** `Text.Lower` and `Text.Upper` map ASCII letters only. Python's `lower()` and `upper()` also map other Unicode letters.
- **`clean_html` (backend.py:32-36).** It is not modelled. No modelled operation calls it.
- **`fetch_historical_data`, `fetch_fundamentals` and `fetch_analyst_data`.** They are not modelled: they are pure network reads.
- **`get_recent_social` and the timestamp strings of `logic.py`.** They are not modelled. `logic.py` imports `get_recent_social` but never calls it.
- Anomaly.DetectIsZTest: on a flat window it states only `sigma * sigma == 0`, not `sigma == 0`. The solver cannot derive the zero root from a zero square here. Every other case is stated in full.
- Dashboard.DashboardZDenotes: the rule's conditions are stated as "the window varies" rather than `std > 0`. As in `Anomaly.DetectIsZTest`, a flat window is shown to give a zero score without deriving `sigma == 0` from it.
- Dashboard.BriefAgrees: the brief uses `z` when the window varies and 0.0 otherwise. The source tests `std > 0` instead. The two conditions coincide mathematically, but the step from a flat window to `sigma == 0` is not proved, for the same reason.
- **Dashboard.CardClass.** No separate lemma restates its rule. `Dashboard.PipelineCards` proves the consequence for the two kinds of alert the pipeline writes.
- **Signals.Text.** That the six summary texts are pairwise distinct is not proved.
