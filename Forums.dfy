/**
 * The forum scrapers' filters (`fetch_valuepickr_threads`,
 * `fetch_reddit_posts`): the search term loses its exchange suffix, a
 * result is kept only when its title contains that term ignoring case,
 * and Reddit results also need a relevant subreddit.
 *
 * The searches are inputs: `search(term)` is what the forum returns for a
 * query (for ValuePickr, `None` when the reply has no "topics" or the
 * request fails), and `score(title)` is the sentiment analyser's score.
 */
module Forums {
  import opened Wrappers
  import opened Text
  import opened Log

  /**
   * `search_term.split('.')[0].strip()`: "RELIANCE.NS" becomes "RELIANCE".
   * The result is the text before the first dot with only whitespace cut
   * from its ends (by `Text.StripUnique`, exactly `strip()` of that text).
   */
  function CleanTerm(term: string): (r: string)
    ensures '.' !in r
    ensures Contains(term, r)
    ensures exists k :: StrippedAt(BeforeFirst(term, '.'), r, k)
  {
    var head := BeforeFirst(term, '.');
    var r := Strip(head);
    StripStripped(head);
    PrefixContains(term, head, r);
    r
  }

  /** Whatever is in a prefix of `s` is in `s`. */
  lemma PrefixContains(s: string, head: string, sub: string)
    requires StartsWith(s, head) && Contains(head, sub)
    ensures Contains(s, sub)
  {
    ContainsIff(head, sub);
    var i :| OccursAt(head, sub, i);
    assert s[i..i + |sub|] == head[i..i + |sub|];
    ContainsAt(s, sub, i);
  }

  /** `clean_term.lower() in title.lower()` */
  predicate TitleMatches(cleanTerm: string, title: string) {
    Contains(Lower(title), Lower(cleanTerm))
  }

  lemma LowerUpper(s: string)
    ensures Lower(Upper(s)) == Lower(s)
  {
  }

  /** The title test ignores the case of both the term and the title. */
  lemma TitleMatchesIgnoresCase(cleanTerm: string, title: string)
    ensures TitleMatches(Upper(cleanTerm), title) == TitleMatches(cleanTerm, title)
    ensures TitleMatches(cleanTerm, Upper(title)) == TitleMatches(cleanTerm, title)
    ensures TitleMatches(cleanTerm, Lower(title)) == TitleMatches(cleanTerm, title)
  {
    LowerUpper(cleanTerm);
    LowerUpper(title);
    assert Lower(Lower(title)) == Lower(title);
  }

  /** An empty clean term (a search term such as ".NS") lets every title through. */
  lemma EmptyTermMatchesAll(title: string)
    ensures TitleMatches("", title)
  {
    assert OccursAt(Lower(title), Lower(""), 0);
    ContainsAt(Lower(title), Lower(""), 0);
  }

  // ---- ValuePickr ----

  /** One entry of the reply's "topics": each field may be missing. */
  datatype Topic = Topic(title: Option<string>, slug: Option<string>, id: Option<string>)

  /** One discussion dictionary. */
  datatype Thread = Thread(source: string, title: string, url: string, sentiment: real, snippet: string)

  /** `discussions[:10]` */
  const ThreadLimit: int := 10
  const ThreadPrefix: string := "https://forum.valuepickr.com/t/"

  function OrElse(o: Option<string>, d: string): string {
    if o.Some? then o.value else d
  }

  /** `topic.get('title', 'No Title')` */
  function TopicTitle(t: Topic): string {
    OrElse(t.title, "No Title")
  }

  /** The discussion built from a topic that passed the filter. */
  function ThreadOf(t: Topic, score: string -> real): (r: Thread)
    ensures r.source == "ValuePickr Forum" && r.title == TopicTitle(t)
    ensures r.url == ThreadPrefix + OrElse(t.slug, "") + "/" + OrElse(t.id, "")
    ensures StartsWith(r.url, ThreadPrefix)
  {
    var url := ThreadPrefix + OrElse(t.slug, "") + "/" + OrElse(t.id, "");
    assert url[..|ThreadPrefix|] == ThreadPrefix;
    Thread("ValuePickr Forum", TopicTitle(t), url, score(TopicTitle(t)), "Active thread on ValuePickr...")
  }

  /** The discussions the loop collects, in reply order, before truncation. */
  function Threads(cleanTerm: string, topics: seq<Topic>, score: string -> real): seq<Thread>
    decreases |topics|
  {
    if |topics| == 0 then []
    else
      var rest := Threads(cleanTerm, topics[..|topics| - 1], score);
      var t := topics[|topics| - 1];
      if TitleMatches(cleanTerm, TopicTitle(t)) then rest + [ThreadOf(t, score)] else rest
  }

  lemma ThreadsStep(cleanTerm: string, topics: seq<Topic>, i: nat, score: string -> real)
    requires i < |topics|
    ensures Threads(cleanTerm, topics[..i + 1], score) ==
      if TitleMatches(cleanTerm, TopicTitle(topics[i])) then Threads(cleanTerm, topics[..i], score) + [ThreadOf(topics[i], score)]
      else Threads(cleanTerm, topics[..i], score)
  {
    assert topics[..i + 1][..i] == topics[..i];
  }

  /** `fetch_valuepickr_threads(search_term)` */
  method FetchValuePickrThreads(searchTerm: string, search: string -> Option<seq<Topic>>, score: string -> real)
    returns (r: seq<Thread>)
    ensures var c := CleanTerm(searchTerm);
      r == Limit(Threads(c, if search(c).Some? then search(c).value else [], score), ThreadLimit)
  {
    var cleanTerm := CleanTerm(searchTerm);
    var discussions: seq<Thread> := [];
    var topics: seq<Topic> := [];
    var reply := search(cleanTerm);
    if reply.Some? {
      topics := reply.value;
      var i := 0;
      while i < |topics|
        invariant 0 <= i <= |topics|
        invariant discussions == Threads(cleanTerm, topics[..i], score)
      {
        var topic := topics[i];
        ThreadsStep(cleanTerm, topics, i, score);
        var title := TopicTitle(topic);
        if TitleMatches(cleanTerm, title) {
          discussions := discussions + [ThreadOf(topic, score)];
        }
        i := i + 1;
      }
      assert topics[..i] == topics;
    }
    r := Limit(discussions, ThreadLimit);
  }

  /**
   * The collected discussions are exactly the matching topics, in order:
   * every one comes from a topic whose title matches, and every matching
   * topic yields one.
   */
  lemma {:induction false} ThreadsMembers(cleanTerm: string, topics: seq<Topic>, score: string -> real)
    ensures |Threads(cleanTerm, topics, score)| <= |topics|
    ensures forall x :: x in Threads(cleanTerm, topics, score) ==>
      exists k :: 0 <= k < |topics| && TitleMatches(cleanTerm, TopicTitle(topics[k])) && x == ThreadOf(topics[k], score)
    ensures forall k :: 0 <= k < |topics| && TitleMatches(cleanTerm, TopicTitle(topics[k])) ==>
      ThreadOf(topics[k], score) in Threads(cleanTerm, topics, score)
    decreases |topics|
  {
    if |topics| > 0 {
      var p := topics[..|topics| - 1];
      ThreadsMembers(cleanTerm, p, score);
      forall x | x in Threads(cleanTerm, topics, score)
        ensures exists k :: 0 <= k < |topics| && TitleMatches(cleanTerm, TopicTitle(topics[k])) && x == ThreadOf(topics[k], score)
      {
        if x in Threads(cleanTerm, p, score) {
          var k :| 0 <= k < |p| && TitleMatches(cleanTerm, TopicTitle(p[k])) && x == ThreadOf(p[k], score);
          assert topics[k] == p[k];
        }
      }
      forall k | 0 <= k < |topics| && TitleMatches(cleanTerm, TopicTitle(topics[k]))
        ensures ThreadOf(topics[k], score) in Threads(cleanTerm, topics, score)
      {
        if k < |p| {
          assert topics[k] == p[k];
        }
      }
    }
  }

  /**
   * `fetch_valuepickr_threads` returns at most 10 discussions, each from a
   * reply topic whose title contains the clean term ignoring case, labelled
   * "ValuePickr Forum" with a thread URL; on a reply without topics it
   * returns none.
   */
  lemma ValuePickrSpec(searchTerm: string, topics: Option<seq<Topic>>, score: string -> real)
    ensures var c := CleanTerm(searchTerm);
      var r := Limit(Threads(c, if topics.Some? then topics.value else [], score), ThreadLimit);
      |r| <= ThreadLimit &&
      (topics.None? ==> r == []) &&
      forall x :: x in r ==>
        x.source == "ValuePickr Forum" && StartsWith(x.url, ThreadPrefix) && TitleMatches(c, x.title)
  {
    var c := CleanTerm(searchTerm);
    var ts := if topics.Some? then topics.value else [];
    var all := Threads(c, ts, score);
    ThreadsMembers(c, ts, score);
    var r := Limit(all, ThreadLimit);
    forall x | x in r
      ensures x in all
    {
      var i :| 0 <= i < |r| && r[i] == x;
      assert all[i] == x;
    }
  }

  // ---- Reddit ----

  /** One search result: its title, subreddit name, url, score and comment count. */
  datatype Submission = Submission(title: string, subreddit: string, url: string, score: int, comments: int)

  /** One post dictionary. */
  datatype RedditPost = RedditPost(source: string, title: string, url: string, sentiment: real, score: int, comments: int)

  const Subreddits: seq<string> := ["IndianStreetBets", "DalalStreetTalks", "IndianStockMarket", "IndiaInvestments", "stocks"]

  /** `limit=15` */
  const DefaultRedditLimit: nat := 15

  /** The subreddit test: listed, or its lower-cased name mentions "stock" or "invest". */
  predicate Relevant(name: string) {
    name in Subreddits || Contains(Lower(name), "stock") || Contains(Lower(name), "invest")
  }

  function PostOf(s: Submission, score: string -> real): (r: RedditPost)
    ensures r.source == "r/" + s.subreddit && r.title == s.title && r.url == s.url
  {
    RedditPost("r/" + s.subreddit, s.title, s.url, score(s.title), s.score, s.comments)
  }

  predicate Wanted(cleanTerm: string, s: Submission) {
    TitleMatches(cleanTerm, s.title) && Relevant(s.subreddit)
  }

  /** The posts the loop collects, in result order. */
  function RedditPosts(cleanTerm: string, results: seq<Submission>, score: string -> real): seq<RedditPost>
    decreases |results|
  {
    if |results| == 0 then []
    else
      var rest := RedditPosts(cleanTerm, results[..|results| - 1], score);
      var s := results[|results| - 1];
      if Wanted(cleanTerm, s) then rest + [PostOf(s, score)] else rest
  }

  lemma RedditPostsStep(cleanTerm: string, results: seq<Submission>, i: nat, score: string -> real)
    requires i < |results|
    ensures RedditPosts(cleanTerm, results[..i + 1], score) ==
      if Wanted(cleanTerm, results[i]) then RedditPosts(cleanTerm, results[..i], score) + [PostOf(results[i], score)]
      else RedditPosts(cleanTerm, results[..i], score)
  {
    assert results[..i + 1][..i] == results[..i];
  }

  /**
   * `fetch_reddit_posts(search_term, limit)`: `None` without a Reddit
   * client; otherwise the wanted posts among the first `limit` results of
   * the search for the clean term.
   */
  method FetchRedditPosts(client: bool, searchTerm: string, limit: nat, search: string -> seq<Submission>,
                          score: string -> real) returns (r: Option<seq<RedditPost>>)
    ensures !client ==> r == None
    ensures client ==> r == Some(RedditPosts(CleanTerm(searchTerm), Limit(search(CleanTerm(searchTerm)), limit), score))
  {
    if !client {
      return None;
    }
    var cleanTerm := CleanTerm(searchTerm);
    var results := Limit(search(cleanTerm), limit);
    var posts: seq<RedditPost> := [];
    var i := 0;
    while i < |results|
      invariant 0 <= i <= |results|
      invariant posts == RedditPosts(cleanTerm, results[..i], score)
    {
      var post := results[i];
      RedditPostsStep(cleanTerm, results, i, score);
      if TitleMatches(cleanTerm, post.title) && Relevant(post.subreddit) {
        posts := posts + [PostOf(post, score)];
      }
      i := i + 1;
    }
    assert results[..i] == results;
    r := Some(posts);
  }

  /**
   * The collected posts are exactly the wanted results, in order: each
   * comes from a result with a matching title and a relevant subreddit,
   * labelled "r/" and the subreddit, and each wanted result yields one.
   */
  lemma {:induction false} RedditPostsMembers(cleanTerm: string, results: seq<Submission>, score: string -> real)
    ensures |RedditPosts(cleanTerm, results, score)| <= |results|
    ensures forall x :: x in RedditPosts(cleanTerm, results, score) ==>
      exists k :: 0 <= k < |results| && Wanted(cleanTerm, results[k]) && x == PostOf(results[k], score)
    ensures forall k :: 0 <= k < |results| && Wanted(cleanTerm, results[k]) ==>
      PostOf(results[k], score) in RedditPosts(cleanTerm, results, score)
    decreases |results|
  {
    if |results| > 0 {
      var p := results[..|results| - 1];
      RedditPostsMembers(cleanTerm, p, score);
      forall x | x in RedditPosts(cleanTerm, results, score)
        ensures exists k :: 0 <= k < |results| && Wanted(cleanTerm, results[k]) && x == PostOf(results[k], score)
      {
        if x in RedditPosts(cleanTerm, p, score) {
          var k :| 0 <= k < |p| && Wanted(cleanTerm, p[k]) && x == PostOf(p[k], score);
          assert results[k] == p[k];
        }
      }
      forall k | 0 <= k < |results| && Wanted(cleanTerm, results[k])
        ensures PostOf(results[k], score) in RedditPosts(cleanTerm, results, score)
      {
        if k < |p| {
          assert results[k] == p[k];
        }
      }
    }
  }

  /** Every listed subreddit is relevant, whatever its name contains. */
  lemma ListedRelevant()
    ensures forall name :: name in Subreddits ==> Relevant(name)
  {
  }

  // ---- The dashboard's combined list ----

  /** One entry of `all_posts`. */
  datatype Post = FromReddit(post: RedditPost) | FromValuePickr(thread: Thread)

  /** `post['sentiment']` */
  function PostSentiment(p: Post): real {
    match p
    case FromReddit(r) => r.sentiment
    case FromValuePickr(t) => t.sentiment
  }

  /** `post.get('score', 0)`: ValuePickr discussions carry no score. */
  function Likes(p: Post): int {
    match p
    case FromReddit(r) => r.score
    case FromValuePickr(_) => 0
  }

  /** `all_posts`: the Reddit posts (when there are any), then the ValuePickr discussions. */
  function AllPosts(reddit: Option<seq<RedditPost>>, threads: seq<Thread>): (r: seq<Post>)
    ensures |r| == (if reddit.Some? then |reddit.value| else 0) + |threads|
    ensures reddit.Some? ==> forall i :: 0 <= i < |reddit.value| ==> r[i] == FromReddit(reddit.value[i])
    ensures forall i :: 0 <= i < |threads| ==> r[|r| - |threads| + i] == FromValuePickr(threads[i])
  {
    var rs := if reddit.Some? then reddit.value else [];
    seq(|rs|, i requires 0 <= i < |rs| => FromReddit(rs[i])) +
    seq(|threads|, i requires 0 <= i < |threads| => FromValuePickr(threads[i]))
  }
}
