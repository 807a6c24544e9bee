/** The decision rules of the Streamlit dashboard `CryptoPre13/CryptoPre13.py`:
    the EMA-cross trend per timeframe, and the shaping of news posts with
    their vote sentiment. Fetches are oracle parameters. */
module Dashboard {
  import opened Wrappers
  import opened Text

  // ---------------------------------------------------------------
  // Multi-timeframe trend
  // ---------------------------------------------------------------

  /** The two EMA columns `multi_tf_heatmap` adds to a fetched frame. */
  datatype EmaRow = EmaRow(ema9: real, ema21: real)

  /** `get_trend`: "BUY" when the last ema9 is above the last ema21,
      "SELL" otherwise (a tie included); an empty frame raises, which is
      `None` here. */
  function GetTrend(rows: seq<EmaRow>): (t: Option<string>)
    ensures t.None? <==> rows == []
    ensures t == Some("BUY") <==> rows != [] && rows[|rows| - 1].ema9 > rows[|rows| - 1].ema21
    ensures t == Some("SELL") <==> rows != [] && rows[|rows| - 1].ema9 <= rows[|rows| - 1].ema21
  {
    if rows == [] then None
    else
      var last := rows[|rows| - 1];
      Some(if last.ema9 > last.ema21 then "BUY" else "SELL")
  }

  /** The cell for one timeframe: the trend, or "ERR" when the fetch or
      the trend raised. */
  function TrendCell(fetched: Option<seq<EmaRow>>): (cell: string)
    ensures cell == "ERR" <==> fetched.None? || GetTrend(fetched.value).None?
    ensures cell != "ERR" ==> Some(cell) == GetTrend(fetched.value)
  {
    match fetched
    case None => "ERR"
    case Some(rows) =>
      match GetTrend(rows)
      case None => "ERR"
      case Some(t) => t
  }

  /** The timeframes asked for when the caller names none. */
  const DefaultIntervals: seq<string> := ["1m", "5m", "15m", "1h", "4h", "1d"]

  /** `multi_tf_heatmap`: one (timeframe, trend) row per requested
      interval, in order; `fetch(symbol, tf)` is the frame
      `get_binance_klines` would return with its EMA columns, or `None`
      when that raised. */
  method MultiTfHeatmap(symbol: string, fetch: (string, string) -> Option<seq<EmaRow>>,
                        intervals: seq<string> := DefaultIntervals)
    returns (results: seq<(string, string)>)
    ensures |results| == |intervals|
    ensures forall i :: 0 <= i < |intervals| ==> results[i] == (intervals[i], TrendCell(fetch(symbol, intervals[i])))
  {
    results := [];
    for k := 0 to |intervals|
      invariant |results| == k
      invariant forall i :: 0 <= i < k ==> results[i] == (intervals[i], TrendCell(fetch(symbol, intervals[i])))
    {
      var tf := intervals[k];
      var trend: string;
      match fetch(symbol, tf) {
        case None =>
          trend := "ERR";
        case Some(df) =>
          var t := GetTrend(df);
          if t.None? {
            trend := "ERR";
          } else {
            trend := t.value;
          }
      }
      results := results + [(tf, trend)];
    }
  }

  /** A failing interval touches its own cell only: two fetches that agree
      on an interval give it the same cell, and a failed fetch is "ERR". */
  lemma FailureIsLocal(symbol: string, tf: string, fetch: (string, string) -> Option<seq<EmaRow>>, other: (string, string) -> Option<seq<EmaRow>>)
    requires fetch(symbol, tf) == other(symbol, tf)
    ensures TrendCell(fetch(symbol, tf)) == TrendCell(other(symbol, tf))
    ensures fetch(symbol, tf).None? ==> TrendCell(fetch(symbol, tf)) == "ERR"
  {
  }

  // ---------------------------------------------------------------
  // News
  // ---------------------------------------------------------------

  /** The vote rule. */
  datatype Sentiment = Bullish | Bearish | Neutral

  /** More positive than negative votes is bullish, the reverse bearish,
      a tie neutral. */
  function SentimentOf(bull: int, bear: int): (s: Sentiment)
    ensures s == Bullish <==> bull > bear
    ensures s == Bearish <==> bear > bull
    ensures s == Neutral <==> bull == bear
  {
    if bull > bear then Bullish else if bear > bull then Bearish else Neutral
  }

  /** One post as the feed returns it; a missing field is `None`. */
  datatype Post = Post(
    title: Option<string>,
    sourceTitle: Option<string>,
    url: Option<string>,
    publishedAt: Option<string>,
    positive: Option<int>,
    negative: Option<int>)

  datatype NewsItem = NewsItem(title: string, source: string, url: string, published: string, sentiment: Sentiment)

  function GetOr<T>(o: Option<T>, default: T): T
  {
    if o.Some? then o.value else default
  }

  /** Python's `s[:n]` for `n >= 0`. */
  function Head<T>(s: seq<T>, n: nat): (r: seq<T>)
    ensures |r| == if n < |s| then n else |s|
    ensures r == s[..|r|]
  {
    if n < |s| then s[..n] else s
  }

  /** Python's `s[:limit]` for any integer: a negative limit counts from
      the end. */
  function SliceTo<T>(s: seq<T>, limit: int): (r: seq<T>)
    ensures limit >= 0 ==> r == Head(s, limit)
    ensures limit < 0 ==> |r| == (if |s| + limit > 0 then |s| + limit else 0)
    ensures r == s[..|r|]
  {
    if limit >= 0 then Head(s, limit)
    else if |s| + limit > 0 then s[..|s| + limit] else []
  }

  /** The record `get_crypto_news` builds for one post. */
  function Shape(p: Post): (n: NewsItem)
    ensures |n.published| <= 10
    ensures n.sentiment == SentimentOf(GetOr(p.positive, 0), GetOr(p.negative, 0))
    ensures n.published == Head(GetOr(p.publishedAt, ""), 10)
  {
    NewsItem(
      GetOr(p.title, "No title"),
      GetOr(p.sourceTitle, "Unknown"),
      GetOr(p.url, ""),
      Head(GetOr(p.publishedAt, ""), 10),
      SentimentOf(GetOr(p.positive, 0), GetOr(p.negative, 0)))
  }

  /** A post without votes is neutral. */
  lemma NoVotesNeutral(p: Post)
    requires p.positive.None? && p.negative.None?
    ensures Shape(p).sentiment == Neutral
  {
  }

  /** The coin code in the query: every "USDT" removed. */
  function CoinCode(symbol: string): (r: string)
    ensures |r| == |symbol| - 4 * Occurrences(symbol, "USDT")
    ensures Occurrences(symbol, "USDT") == 0 ==> r == symbol
  {
    ReplaceAllLength(symbol, "USDT", "");
    var r := ReplaceAll(symbol, "USDT", "");
    if Occurrences(symbol, "USDT") == 0 then (ReplaceAllAbsent(symbol, "USDT", ""); r) else r
  }

  lemma UsdtUnbordered()
    ensures Unbordered("USDT")
  {
    assert "USDT"[1..] == "SDT" && "USDT"[..3] == "USD";
    assert "USDT"[2..] == "DT" && "USDT"[..2] == "US";
    assert "USDT"[3..] == "T" && "USDT"[..1] == "U";
  }

  /** A trailing "USDT" quote is stripped, and removing every occurrence
      shortens the symbol by four characters per occurrence. */
  lemma CoinCodeStripsQuote(base: string)
    ensures CoinCode(base + "USDT") == CoinCode(base)
  {
    UsdtUnbordered();
    ReplaceAllAppend(base, "USDT", "");
  }

  /** How many headlines the dashboard asks for. */
  const DefaultNewsLimit: int := 7

  const NewsBase: string := "https://cryptopanic.com/api/v1/posts/?auth_token=&kind=news"

  /** The query for a symbol. */
  function NewsUrl(symbol: string): string
  {
    NewsBase + "&currencies=" + CoinCode(symbol) + "&filter=hot"
  }

  /** `get_crypto_news`: `fetch(url)` is the feed's `results` list (empty
      when the key is absent) or `None` when the request raised. */
  method GetCryptoNews(symbol: string, fetch: string -> Option<seq<Post>>, limit: int := DefaultNewsLimit) returns (news: seq<NewsItem>)
    ensures fetch(NewsUrl(symbol)).None? ==> news == []
    ensures fetch(NewsUrl(symbol)).Some? ==>
      var posts := fetch(NewsUrl(symbol)).value;
      && |news| == |SliceTo(posts, limit)|
      && (forall i :: 0 <= i < |news| ==> news[i] == Shape(posts[i]))
    ensures limit >= 0 ==> |news| <= limit
  {
    var coin := ReplaceAll(symbol, "USDT", "");
    var url := NewsBase + "&currencies=" + coin + "&filter=hot";
    var response := fetch(url);
    if response.None? {
      return [];
    }
    var posts := response.value;
    var window := SliceTo(posts, limit);
    news := [];
    for k := 0 to |window|
      invariant |news| == k
      invariant forall i :: 0 <= i < k ==> news[i] == Shape(window[i])
    {
      var p := window[k];
      var title := GetOr(p.title, "No title");
      var src := GetOr(p.sourceTitle, "Unknown");
      var link := GetOr(p.url, "");
      var published := Head(GetOr(p.publishedAt, ""), 10);
      var bull := GetOr(p.positive, 0);
      var bear := GetOr(p.negative, 0);
      var sentiment: Sentiment;
      if bull > bear {
        sentiment := Bullish;
      } else if bear > bull {
        sentiment := Bearish;
      } else {
        sentiment := Neutral;
      }
      news := news + [NewsItem(title, src, link, published, sentiment)];
    }
  }
}
