/**
 * The fixed decision rules of the backend: the dashboard's one-line
 * summary from a sentiment and a volume z-score (`generate_ai_summary`),
 * and the peer table (`get_peers`).
 */
module Signals {
  import opened Stats

  /** `z_score > 3.0` is a volume spike. */
  const SpikeZ: real := 3.0
  /** With a spike, sentiment beyond +-0.2 decides the direction. */
  const SpikeSentiment: real := 0.2
  /** Without a spike, only sentiment beyond +-0.4 is a signal. */
  const QuietSentiment: real := 0.4

  /** The six summaries the rule can give. */
  datatype Outlook = BullishBreakout | PanicSelling | VolatileUncertainty
                   | SilentAccumulation | BearishSentiment | Neutral

  /** The branch `generate_ai_summary` takes, given whether the volume spiked. */
  function Branch(sentiment: real, spike: bool): Outlook {
    if spike then
      if sentiment > SpikeSentiment then BullishBreakout
      else if sentiment < -SpikeSentiment then PanicSelling
      else VolatileUncertainty
    else
      if sentiment > QuietSentiment then SilentAccumulation
      else if sentiment < -QuietSentiment then BearishSentiment
      else Neutral
  }

  /** The branch for a z-score given as a number. */
  function Classify(sentiment: real, z: real): Outlook {
    Branch(sentiment, z > SpikeZ)
  }

  /** The text of each summary. */
  function Text(o: Outlook): string {
    match o
    case BullishBreakout => "🚀 **Bullish Breakout:** High volume spike backed by positive news suggests strong buying momentum."
    case PanicSelling => "🩸 **Panic Selling:** Heavy volume with negative sentiment indicates a potential crash or correction."
    case VolatileUncertainty => "⚠️ **Volatile Uncertainty:** Massive volume spike without clear sentiment direction. Tread carefully."
    case SilentAccumulation => "📈 **Silent Accumulation:** Strong positive chatter despite normal volume. Watch for a breakout."
    case BearishSentiment => "📉 **Bearish Sentiment:** Negative rumors circulating. Price may drift lower."
    case Neutral => "Market is neutral. No major signals detected."
  }

  /** `generate_ai_summary(sentiment_score, z_score)` */
  function GenerateAiSummary(sentiment: real, z: real): string {
    Text(Classify(sentiment, z))
  }

  /**
   * The outcome of the rule: a spike gives one of the three volume
   * summaries, chosen by sentiment beyond +-0.2; otherwise only sentiment
   * beyond +-0.4 is reported, and anything between is neutral.
   */
  lemma ClassifySpec(sentiment: real, z: real)
    ensures var o := Classify(sentiment, z);
      (o in {BullishBreakout, PanicSelling, VolatileUncertainty} <==> z > SpikeZ) &&
      (o == BullishBreakout <==> z > SpikeZ && sentiment > 0.2) &&
      (o == PanicSelling <==> z > SpikeZ && sentiment < -0.2) &&
      (o == VolatileUncertainty <==> z > SpikeZ && -0.2 <= sentiment <= 0.2) &&
      (o == SilentAccumulation <==> z <= SpikeZ && sentiment > 0.4) &&
      (o == BearishSentiment <==> z <= SpikeZ && sentiment < -0.4) &&
      (o == Neutral <==> z <= SpikeZ && -0.4 <= sentiment <= 0.4)
  {
  }

  /** Raising the sentiment never turns a positive summary negative, at the same z. */
  lemma ClassifyMonotone(s1: real, s2: real, z: real)
    requires s1 <= s2
    ensures Classify(s1, z) in {BullishBreakout, SilentAccumulation} ==> Classify(s2, z) == Classify(s1, z)
    ensures Classify(s2, z) in {PanicSelling, BearishSentiment} ==> Classify(s1, z) == Classify(s2, z)
  {
  }

  /**
   * The rule on a z-score kept without its square root (see `ZScore`):
   * the spike test is `Exceeds(3.0)`.
   */
  function ClassifyScore(sentiment: real, score: ZScore): Outlook {
    Branch(sentiment, score.Exceeds(SpikeZ))
  }

  /** On every z the score stands for, the square-root-free rule agrees with the numeric one. */
  lemma ClassifyScoreAgrees(sentiment: real, score: ZScore, z: real, sigma: real)
    requires score.Denotes(z, sigma)
    ensures ClassifyScore(sentiment, score) == Classify(sentiment, z)
    ensures Text(ClassifyScore(sentiment, score)) == GenerateAiSummary(sentiment, z)
  {
    ExceedsIff(score, z, sigma, SpikeZ);
  }

  // ---- Peers ----

  /** `PEER_MAP` */
  const PeerMap: map<string, seq<string>> := map[
    "RELIANCE.NS" := ["TATASTEEL.NS", "ADANIENT.NS"],
    "TCS.NS" := ["INFY.NS", "WIPRO.NS"],
    "HDFCBANK.NS" := ["ICICIBANK.NS", "SBIN.NS"],
    "INFY.NS" := ["TCS.NS", "HCLTECH.NS"],
    "TATAMOTORS.NS" := ["MARUTI.NS", "ASHOKLEY.NS"],
    "ADANIENT.NS" := ["RELIANCE.NS", "TATASTEEL.NS"]
  ]

  /** The Nifty 50 index, the peer of every unlisted ticker. */
  const DefaultPeers: seq<string> := ["^NSEI"]

  /** `get_peers(ticker)` */
  function GetPeers(ticker: string): seq<string> {
    if ticker in PeerMap then PeerMap[ticker] else DefaultPeers
  }

  /**
   * Every ticker has at least one peer, and only the index itself is its
   * own peer; a listed ticker has its two listed peers, any other ticker
   * the index alone.
   */
  lemma GetPeersSpec(ticker: string)
    ensures |GetPeers(ticker)| >= 1
    ensures ticker in GetPeers(ticker) <==> ticker == "^NSEI"
    ensures ticker in PeerMap ==> |GetPeers(ticker)| == 2 && "^NSEI" !in GetPeers(ticker)
    ensures ticker !in PeerMap ==> GetPeers(ticker) == ["^NSEI"]
  {
    if ticker in PeerMap {
      assert ticker in {"RELIANCE.NS", "TCS.NS", "HDFCBANK.NS", "INFY.NS", "TATAMOTORS.NS", "ADANIENT.NS"};
    }
  }

  /** Listed pairs that are each other's peers. */
  lemma PeersMutual()
    ensures "TCS.NS" in GetPeers("INFY.NS") && "INFY.NS" in GetPeers("TCS.NS")
    ensures "RELIANCE.NS" in GetPeers("ADANIENT.NS") && "ADANIENT.NS" in GetPeers("RELIANCE.NS")
  {
  }
}
