/** `collect_articles` of intl_main.py and main.py: walk the configured
    regions, their feeds and the first entries of each feed, skip links
    already processed, fetch the rest, and keep the articles the script's
    acceptance rule admits.  The feed reader and the article extractor are
    inputs: each feed is given with what parsing it produced, and `fetch`
    tells what downloading and parsing an article URL produced. */
module Collector {
  import opened PyText
  import opened Records

  /** `feed.entries[:10]` */
  const MaxEntriesPerFeed: nat := 10
  /** `article.text[:3000]` */
  const MaxArticleChars: nat := 3000
  /** The word threshold of both scripts (`< 100` rejects in
      intl_main.py, `> 100` accepts in main.py). */
  const WordThreshold: nat := 100
  /** intl_main.py rejects a text whose stripped length is below this. */
  const MinStrippedChars: nat := 200

  /** A feed entry.  Reading `entry.link` of an entry without a link raises
      inside the per-feed `try`, which ends the walk over that feed. */
  datatype FeedEntry = Entry(link: string, title: string) | LinklessEntry(title: string)

  /** What reading one feed gave: an exception, or its entries in order. */
  datatype Feed = FeedError | Feed(entries: seq<FeedEntry>)

  /** One named feed of a region, `feed_name: feed_url` in `FEEDS`. */
  datatype Source = Source(name: string, feed: Feed)

  /** One region of `FEEDS` with its feeds in configuration order. */
  datatype Region = Region(name: string, sources: seq<Source>)

  /** What `Article(url).download(); .parse()` gave: an exception, or the
      extracted text. */
  datatype Fetch = FetchError | Fetched(text: string)

  /** What happens to a fetched article: kept as a record (and its URL
      marked processed), dropped but marked, or dropped and left unmarked
      so that a later run fetches it again. */
  datatype Verdict = Accept | RejectAndMark | RejectAndRetry

  /** The acceptance rule of each script for a successfully fetched text. */
  function Judge(d: Digest, text: string): (v: Verdict)
    ensures d == IntlDigest ==> v != RejectAndRetry
    ensures d == IntlDigest ==>
      (v == Accept <==> WordCount(text) >= WordThreshold && |Strip(text)| >= MinStrippedChars)
    ensures d == NewsDigest ==> v != RejectAndMark
    ensures d == NewsDigest ==> (v == Accept <==> WordCount(text) > WordThreshold)
  {
    match d
    case IntlDigest =>
      if WordCount(text) < WordThreshold then RejectAndMark
      else if |Strip(text)| < MinStrippedChars then RejectAndMark
      else Accept
    case NewsDigest =>
      if WordCount(text) > WordThreshold then Accept else RejectAndRetry
  }

  /** The state of a collection pass: the processed-URL set, the records
      collected so far, and every URL whose article was fetched, in order. */
  datatype Progress = Progress(processed: set<string>, articles: seq<Article>, fetched: seq<string>)

  function Start(loaded: set<string>): Progress {
    Progress(loaded, [], [])
  }

  /** The record kept for an accepted article. */
  function Record(region: string, source: string, title: string, url: string, text: string): (a: Article)
    ensures a.region == region && a.source == source && a.title == title && a.url == url && a.summary == None
    ensures a.text <= text
    ensures |a.text| == if |text| <= MaxArticleChars then |text| else MaxArticleChars
  {
    Article(region, source, title, url, Take(text, MaxArticleChars), None)
  }

  /** Handling one entry with a link. */
  function Visit(d: Digest, fetch: string -> Fetch, region: string, source: string,
                 st: Progress, link: string, title: string): (r: Progress)
    ensures link in st.processed ==> r == st
    ensures link !in st.processed ==> r.fetched == st.fetched + [link]
    ensures link !in st.processed && fetch(link).FetchError? ==> r == st.(fetched := st.fetched + [link])
    ensures r.articles != st.articles <==>
      link !in st.processed && fetch(link).Fetched? && Judge(d, fetch(link).text) == Accept
    ensures r.articles != st.articles ==>
      r.articles == st.articles + [Record(region, source, title, link, fetch(link).text)]
    ensures r.processed == if r.articles != st.articles
                                || (link !in st.processed && fetch(link).Fetched? && d == IntlDigest)
                           then st.processed + {link} else st.processed
  {
    if link in st.processed then
      st
    else
      var st' := st.(fetched := st.fetched + [link]);
      match fetch(link)
      case FetchError => st'
      case Fetched(text) =>
        match Judge(d, text)
        case Accept =>
          st'.(processed := st.processed + {link},
               articles := st.articles + [Record(region, source, title, link, text)])
        case RejectAndMark => st'.(processed := st.processed + {link})
        case RejectAndRetry => st'
  }

  /** The entries of a feed that are looked at: at most the first ten, and
      none from the first entry without a link on. */
  function Examined(entries: seq<FeedEntry>, limit: nat := MaxEntriesPerFeed): (r: seq<FeedEntry>)
    ensures |r| <= limit && r <= entries
    ensures forall k | 0 <= k < |r| :: r[k].Entry?
    ensures |r| < |entries| && |r| < limit ==> entries[|r|].LinklessEntry?
  {
    if limit == 0 || entries == [] || entries[0].LinklessEntry? then
      []
    else
      [entries[0]] + Examined(entries[1..], limit - 1)
  }

  /** The walk over a feed that stopped at `i` (at the cap, at the end of
      the feed, or at an entry without a link) examined `entries[..i]`. */
  lemma {:induction false} ExaminedPrefix(entries: seq<FeedEntry>, i: nat, limit: nat := MaxEntriesPerFeed)
    requires i <= |entries| && i <= limit
    requires forall k | 0 <= k < i :: entries[k].Entry?
    requires i == |entries| || i == limit || entries[i].LinklessEntry?
    ensures Examined(entries, limit) == entries[..i]
  {
    if i > 0 {
      var rest := entries[1..];
      assert entries[0].Entry?;
      assert Examined(entries, limit) == [entries[0]] + Examined(rest, limit - 1);
      forall k | 0 <= k < i - 1 ensures rest[k].Entry? {
        assert rest[k] == entries[k + 1];
      }
      assert i - 1 < |rest| ==> rest[i - 1] == entries[i];
      ExaminedPrefix(rest, i - 1, limit - 1);
      assert entries[..i] == [entries[0]] + rest[..i - 1];
    } else {
      assert Examined(entries, limit) == [];
    }
  }

  /** One more entry with a link is one more visit. */
  lemma RunEntriesStep(d: Digest, fetch: string -> Fetch, region: string, source: string,
                       st: Progress, entries: seq<FeedEntry>, i: nat)
    requires i < |entries| && entries[i].Entry?
    ensures RunEntries(d, fetch, region, source, st, entries[..i + 1])
         == Visit(d, fetch, region, source, RunEntries(d, fetch, region, source, st, entries[..i]),
                  entries[i].link, entries[i].title)
  {
    assert entries[..i + 1][..i] == entries[..i];
  }

  /** Handling the given entries in order. */
  function RunEntries(d: Digest, fetch: string -> Fetch, region: string, source: string,
                      st: Progress, es: seq<FeedEntry>): Progress
  {
    if es == [] then
      st
    else
      var before := RunEntries(d, fetch, region, source, st, es[..|es| - 1]);
      match es[|es| - 1]
      case Entry(link, title) => Visit(d, fetch, region, source, before, link, title)
      case LinklessEntry(_) => before
  }

  /** Handling one feed: a feed that could not be read adds nothing. */
  function RunSource(d: Digest, fetch: string -> Fetch, region: string, st: Progress, src: Source): Progress {
    match src.feed
    case FeedError => st
    case Feed(entries) => RunEntries(d, fetch, region, src.name, st, Examined(entries))
  }

  /** Handling the given feeds of one region in order. */
  function RunSources(d: Digest, fetch: string -> Fetch, region: string, st: Progress, srcs: seq<Source>): Progress {
    if srcs == [] then
      st
    else
      RunSource(d, fetch, region, RunSources(d, fetch, region, st, srcs[..|srcs| - 1]), srcs[|srcs| - 1])
  }

  /** Handling the given regions in order. */
  function RunRegions(d: Digest, fetch: string -> Fetch, st: Progress, regions: seq<Region>): Progress {
    if regions == [] then
      st
    else
      var last := regions[|regions| - 1];
      RunSources(d, fetch, last.name, RunRegions(d, fetch, st, regions[..|regions| - 1]), last.sources)
  }

  /** A whole collection pass from the loaded processed-URL set. */
  function Collect(d: Digest, fetch: string -> Fetch, loaded: set<string>, regions: seq<Region>): Progress {
    RunRegions(d, fetch, Start(loaded), regions)
  }

  // ---------------------------------------------------------------------
  // The invariant of a collection pass.

  /** A record is the truncated text of an article its script accepted. */
  ghost predicate FromAcceptedFetch(d: Digest, fetch: string -> Fetch, a: Article) {
    && fetch(a.url).Fetched?
    && Judge(d, fetch(a.url).text) == Accept
    && a.text == Take(fetch(a.url).text, MaxArticleChars)
    && a.summary == None
  }

  /** The URLs a pass adds to the processed set: in intl_main.py every URL
      whose article was fetched, in main.py only the URLs of records. */
  ghost function Marked(d: Digest, fetch: string -> Fetch, st: Progress): set<string> {
    if d == IntlDigest then SuccessfulFetches(fetch, st.fetched) else Urls(st.articles)
  }

  ghost predicate DistinctUrls(articles: seq<Article>) {
    forall i, j | 0 <= i < j < |articles| :: articles[i].url != articles[j].url
  }

  ghost predicate Sound(d: Digest, fetch: string -> Fetch, loaded: set<string>, st: Progress) {
    && loaded <= st.processed
    && st.processed == loaded + Marked(d, fetch, st)
    && (forall k | 0 <= k < |st.fetched| :: st.fetched[k] !in loaded)
    && (forall k | 0 <= k < |st.articles| ::
          && st.articles[k].url in st.processed
          && st.articles[k].url !in loaded
          && FromAcceptedFetch(d, fetch, st.articles[k]))
    && DistinctUrls(st.articles)
  }

  lemma VisitSound(d: Digest, fetch: string -> Fetch, region: string, source: string,
                   loaded: set<string>, st: Progress, link: string, title: string)
    requires Sound(d, fetch, loaded, st)
    ensures Sound(d, fetch, loaded, Visit(d, fetch, region, source, st, link, title))
  {
    var r := Visit(d, fetch, region, source, st, link, title);
    if link !in st.processed {
      MarkedAfterVisit(d, fetch, region, source, st, link, title);
      if r.articles != st.articles {
        assert r.articles[|st.articles|] == Record(region, source, title, link, fetch(link).text);
        assert r.articles[..|st.articles|] == st.articles;
      }
      SoundStep(d, fetch, loaded, st, r, link);
    }
  }

  /** A step that looked at one new link keeps the invariant, given how it
      changed the three parts of the state. */
  lemma SoundStep(d: Digest, fetch: string -> Fetch, loaded: set<string>, st: Progress, r: Progress, link: string)
    requires Sound(d, fetch, loaded, st)
    requires link !in st.processed
    requires r.fetched == st.fetched + [link]
    requires r.processed == st.processed || r.processed == st.processed + {link}
    requires Marked(d, fetch, r) == if r.processed == st.processed then Marked(d, fetch, st)
                                     else Marked(d, fetch, st) + {link}
    requires r.articles != st.articles ==>
      && |r.articles| == |st.articles| + 1
      && r.articles[..|st.articles|] == st.articles
      && r.articles[|st.articles|].url == link
      && FromAcceptedFetch(d, fetch, r.articles[|st.articles|])
      && r.processed == st.processed + {link}
    ensures Sound(d, fetch, loaded, r)
  {
    assert forall k | 0 <= k < |r.fetched| :: r.fetched[k] !in loaded by {
      assert forall k | 0 <= k < |st.fetched| :: r.fetched[k] == st.fetched[k];
    }
    RecordsStep(d, fetch, loaded, st.processed, st.articles, r.processed, r.articles, link);
  }

  /** The record part of the invariant survives a step that appends at most
      the record of the new link and marks it. */
  lemma RecordsStep(d: Digest, fetch: string -> Fetch, loaded: set<string>,
                    processed: set<string>, articles: seq<Article>,
                    processed': set<string>, articles': seq<Article>, link: string)
    requires loaded <= processed <= processed' && link !in processed
    requires forall k | 0 <= k < |articles| ::
      && articles[k].url in processed
      && articles[k].url !in loaded
      && FromAcceptedFetch(d, fetch, articles[k])
    requires DistinctUrls(articles)
    requires articles' != articles ==>
      && |articles'| == |articles| + 1
      && articles'[..|articles|] == articles
      && articles'[|articles|].url == link
      && FromAcceptedFetch(d, fetch, articles'[|articles|])
      && link in processed'
    ensures forall k | 0 <= k < |articles'| ::
      && articles'[k].url in processed'
      && articles'[k].url !in loaded
      && FromAcceptedFetch(d, fetch, articles'[k])
    ensures DistinctUrls(articles')
  {
    if articles' != articles {
      var n := |articles|;
      forall k | 0 <= k < n ensures articles'[k] == articles[k] {
        assert articles'[..n][k] == articles'[k];
      }
      assert articles' == articles + [articles'[n]] by {
        assert articles' == articles'[..n] + [articles'[n]];
      }
      DistinctAppend(articles, articles'[n]);
    }
  }

  lemma DistinctAppend(xs: seq<Article>, a: Article)
    requires DistinctUrls(xs)
    requires forall k | 0 <= k < |xs| :: xs[k].url != a.url
    ensures DistinctUrls(xs + [a])
  {
    var ys := xs + [a];
    forall i, j | 0 <= i < j < |ys| ensures ys[i].url != ys[j].url {
      assert ys[i] == xs[i];
      if j < |xs| { assert ys[j] == xs[j]; }
    }
  }

  /** How a visit of a new link changes the marked set. */
  lemma MarkedAfterVisit(d: Digest, fetch: string -> Fetch, region: string, source: string,
                         st: Progress, link: string, title: string)
    requires link !in st.processed
    ensures Marked(d, fetch, Visit(d, fetch, region, source, st, link, title))
         == if Visit(d, fetch, region, source, st, link, title).processed == st.processed
            then Marked(d, fetch, st) else Marked(d, fetch, st) + {link}
  {
    var r := Visit(d, fetch, region, source, st, link, title);
    if d == IntlDigest {
      FetchedUrlsAppend(fetch, st.fetched, link);
    } else if r.articles != st.articles {
      ArticleUrlsAppend(st.articles, r.articles[|st.articles|]);
    }
  }

  ghost function SuccessfulFetches(fetch: string -> Fetch, fetched: seq<string>): set<string> {
    set u | u in fetched && fetch(u).Fetched?
  }

  ghost function Urls(articles: seq<Article>): set<string> {
    set k | 0 <= k < |articles| :: articles[k].url
  }

  lemma FetchedUrlsAppend(fetch: string -> Fetch, fetched: seq<string>, link: string)
    ensures SuccessfulFetches(fetch, fetched + [link])
         == SuccessfulFetches(fetch, fetched) + if fetch(link).Fetched? then {link} else {}
  {
    assert forall u :: u in fetched + [link] <==> u in fetched || u == link;
  }

  lemma ArticleUrlsAppend(xs: seq<Article>, a: Article)
    ensures Urls(xs + [a]) == Urls(xs) + {a.url}
  {
    var ys := xs + [a];
    assert ys[|xs|] == a;
    forall u | u in Urls(xs) ensures u in Urls(ys) {
      var k :| 0 <= k < |xs| && xs[k].url == u;
      assert ys[k] == xs[k];
    }
  }

  lemma {:induction false} RunEntriesSound(d: Digest, fetch: string -> Fetch, region: string, source: string,
                                           loaded: set<string>, st: Progress, es: seq<FeedEntry>)
    requires Sound(d, fetch, loaded, st)
    ensures Sound(d, fetch, loaded, RunEntries(d, fetch, region, source, st, es))
  {
    if es != [] {
      RunEntriesSound(d, fetch, region, source, loaded, st, es[..|es| - 1]);
      var before := RunEntries(d, fetch, region, source, st, es[..|es| - 1]);
      match es[|es| - 1]
      case Entry(link, title) => VisitSound(d, fetch, region, source, loaded, before, link, title);
      case LinklessEntry(_) =>
    }
  }

  lemma {:induction false} RunSourcesSound(d: Digest, fetch: string -> Fetch, region: string,
                                           loaded: set<string>, st: Progress, srcs: seq<Source>)
    requires Sound(d, fetch, loaded, st)
    ensures Sound(d, fetch, loaded, RunSources(d, fetch, region, st, srcs))
  {
    if srcs != [] {
      RunSourcesSound(d, fetch, region, loaded, st, srcs[..|srcs| - 1]);
      var before := RunSources(d, fetch, region, st, srcs[..|srcs| - 1]);
      var src := srcs[|srcs| - 1];
      if src.feed.Feed? {
        RunEntriesSound(d, fetch, region, src.name, loaded, before, Examined(src.feed.entries));
      }
    }
  }

  lemma {:induction false} RunRegionsSound(d: Digest, fetch: string -> Fetch,
                                           loaded: set<string>, st: Progress, regions: seq<Region>)
    requires Sound(d, fetch, loaded, st)
    ensures Sound(d, fetch, loaded, RunRegions(d, fetch, st, regions))
  {
    if regions != [] {
      RunRegionsSound(d, fetch, loaded, st, regions[..|regions| - 1]);
      var last := regions[|regions| - 1];
      RunSourcesSound(d, fetch, last.name, loaded, RunRegions(d, fetch, st, regions[..|regions| - 1]), last.sources);
    }
  }

  /** What a collection pass guarantees about the saved set and the records. */
  lemma CollectSound(d: Digest, fetch: string -> Fetch, loaded: set<string>, regions: seq<Region>)
    ensures Sound(d, fetch, loaded, Collect(d, fetch, loaded, regions))
  {
    RunRegionsSound(d, fetch, loaded, Start(loaded), regions);
  }

  // ---------------------------------------------------------------------
  // Composition, growth and ordering.

  lemma {:induction false} RunEntriesAppend(d: Digest, fetch: string -> Fetch, region: string, source: string,
                                            st: Progress, a: seq<FeedEntry>, b: seq<FeedEntry>)
    ensures RunEntries(d, fetch, region, source, st, a + b)
         == RunEntries(d, fetch, region, source, RunEntries(d, fetch, region, source, st, a), b)
  {
    if b != [] {
      assert (a + b)[..|a + b| - 1] == a + b[..|b| - 1];
      RunEntriesAppend(d, fetch, region, source, st, a, b[..|b| - 1]);
    } else {
      assert a + b == a;
    }
  }

  lemma {:induction false} RunSourcesAppend(d: Digest, fetch: string -> Fetch, region: string,
                                            st: Progress, a: seq<Source>, b: seq<Source>)
    ensures RunSources(d, fetch, region, st, a + b)
         == RunSources(d, fetch, region, RunSources(d, fetch, region, st, a), b)
  {
    if b != [] {
      assert (a + b)[..|a + b| - 1] == a + b[..|b| - 1];
      RunSourcesAppend(d, fetch, region, st, a, b[..|b| - 1]);
    } else {
      assert a + b == a;
    }
  }

  lemma {:induction false} RunRegionsAppend(d: Digest, fetch: string -> Fetch,
                                            st: Progress, a: seq<Region>, b: seq<Region>)
    ensures RunRegions(d, fetch, st, a + b) == RunRegions(d, fetch, RunRegions(d, fetch, st, a), b)
  {
    if b != [] {
      assert (a + b)[..|a + b| - 1] == a + b[..|b| - 1];
      RunRegionsAppend(d, fetch, st, a, b[..|b| - 1]);
    } else {
      assert a + b == a;
    }
  }

  /** A feed whose reading raised is as if it were not configured: the
      feeds before and after it are handled as usual. */
  lemma FailedFeedIsSkipped(d: Digest, fetch: string -> Fetch, region: string, st: Progress,
                            before: seq<Source>, name: string, after: seq<Source>)
    ensures RunSources(d, fetch, region, st, before + [Source(name, FeedError)] + after)
         == RunSources(d, fetch, region, st, before + after)
  {
    RunSourcesAppend(d, fetch, region, st, before + [Source(name, FeedError)], after);
    RunSourcesAppend(d, fetch, region, st, before, after);
    assert (before + [Source(name, FeedError)])[..|before|] == before;
  }

  /** `later` extends `earlier`: records, fetches and the processed set only
      grow, and every new record is labelled with `region` and one of
      `sources`. */
  ghost predicate Extends(earlier: Progress, later: Progress, region: string, sources: set<string>) {
    && earlier.articles <= later.articles
    && earlier.fetched <= later.fetched
    && earlier.processed <= later.processed
    && forall k | |earlier.articles| <= k < |later.articles| ::
         later.articles[k].region == region && later.articles[k].source in sources
  }

  lemma ExtendsTrans(a: Progress, b: Progress, c: Progress, region: string, s1: set<string>, s2: set<string>)
    requires Extends(a, b, region, s1) && Extends(b, c, region, s2)
    ensures Extends(a, c, region, s1 + s2)
  {
    forall k | |a.articles| <= k < |c.articles|
      ensures c.articles[k].region == region && c.articles[k].source in s1 + s2
    {
      if k < |b.articles| { assert c.articles[k] == b.articles[k]; }
    }
  }

  /** The links of the entries that have one. */
  ghost function Links(es: seq<FeedEntry>): set<string> {
    set k | 0 <= k < |es| && es[k].Entry? :: es[k].link
  }

  /** One visit appends at most a record of this feed and at most a fetch
      of its link. */
  lemma VisitGrows(d: Digest, fetch: string -> Fetch, region: string, source: string,
                   st: Progress, link: string, title: string)
    ensures var r := Visit(d, fetch, region, source, st, link, title);
            && Extends(st, r, region, {source})
            && |r.fetched| <= |st.fetched| + 1
            && forall k | |st.fetched| <= k < |r.fetched| :: r.fetched[k] == link
  {
    var r := Visit(d, fetch, region, source, st, link, title);
    if link !in st.processed {
      assert r.fetched == st.fetched + [link];
      assert r.processed >= st.processed;
      if r.articles != st.articles {
        var a := Record(region, source, title, link, fetch(link).text);
        assert r.articles == st.articles + [a];
        forall k | |st.articles| <= k < |r.articles|
          ensures r.articles[k].region == region && r.articles[k].source in {source}
        {
          assert r.articles[k] == a;
        }
      }
    }
  }

  /** Handling entries appends records of this feed only, and fetches at
      most one article per entry, each the link of one of the entries. */
  lemma {:induction false} RunEntriesGrows(d: Digest, fetch: string -> Fetch, region: string, source: string,
                                           st: Progress, es: seq<FeedEntry>)
    ensures Extends(st, RunEntries(d, fetch, region, source, st, es), region, {source})
    ensures |RunEntries(d, fetch, region, source, st, es).fetched| <= |st.fetched| + |es|
    ensures forall k | |st.fetched| <= k < |RunEntries(d, fetch, region, source, st, es).fetched| ::
              RunEntries(d, fetch, region, source, st, es).fetched[k] in Links(es)
  {
    if es != [] {
      var init := es[..|es| - 1];
      RunEntriesGrows(d, fetch, region, source, st, init);
      var mid := RunEntries(d, fetch, region, source, st, init);
      var r := RunEntries(d, fetch, region, source, st, es);
      assert Links(init) <= Links(es) by {
        forall u | u in Links(init) ensures u in Links(es) {
          var k :| 0 <= k < |init| && init[k].Entry? && init[k].link == u;
          assert es[k] == init[k];
        }
      }
      match es[|es| - 1]
      case Entry(link, title) =>
        assert link in Links(es);
        VisitGrows(d, fetch, region, source, mid, link, title);
        forall k | |st.fetched| <= k < |r.fetched| ensures r.fetched[k] in Links(es) {
          if k < |mid.fetched| { assert r.fetched[k] == mid.fetched[k]; }
        }
        ExtendsTrans(st, mid, r, region, {source}, {source});
        assert {source} + {source} == {source};
      case LinklessEntry(_) =>
    }
  }

  /** One feed adds at most ten fetches, each the link of one of its first
      ten entries; a feed whose reading raised fetches nothing. */
  lemma FeedFetchBound(d: Digest, fetch: string -> Fetch, region: string, st: Progress, src: Source)
    ensures var r := RunSource(d, fetch, region, st, src);
            && Extends(st, r, region, {src.name})
            && |r.fetched| <= |st.fetched| + MaxEntriesPerFeed
            && (src.feed.FeedError? ==> r == st)
            && (src.feed.Feed? ==> forall k | |st.fetched| <= k < |r.fetched| ::
                                     r.fetched[k] in Links(Examined(src.feed.entries)))
  {
    if src.feed.Feed? {
      RunEntriesGrows(d, fetch, region, src.name, st, Examined(src.feed.entries));
    }
  }

  ghost function SourceNames(srcs: seq<Source>): set<string> {
    set k | 0 <= k < |srcs| :: srcs[k].name
  }

  lemma {:induction false} RunSourcesGrows(d: Digest, fetch: string -> Fetch, region: string,
                                           st: Progress, srcs: seq<Source>)
    ensures Extends(st, RunSources(d, fetch, region, st, srcs), region, SourceNames(srcs))
  {
    if srcs != [] {
      var init, src := srcs[..|srcs| - 1], srcs[|srcs| - 1];
      RunSourcesGrows(d, fetch, region, st, init);
      var mid := RunSources(d, fetch, region, st, init);
      FeedFetchBound(d, fetch, region, mid, src);
      ExtendsTrans(st, mid, RunSource(d, fetch, region, mid, src), region, SourceNames(init), {src.name});
      assert SourceNames(init) + {src.name} == SourceNames(srcs) by {
        forall u | u in SourceNames(init) ensures u in SourceNames(srcs) {
          var k :| 0 <= k < |init| && init[k].name == u;
          assert srcs[k] == init[k];
        }
        assert srcs[|srcs| - 1].name == src.name;
      }
    }
  }

  /** The position of the first occurrence of `x` in `xs`, or `|xs|`. */
  function Pos(xs: seq<string>, x: string): (p: nat)
    ensures p <= |xs|
    ensures p < |xs| <==> x in xs
    ensures p < |xs| ==> xs[p] == x
  {
    if xs == [] then 0 else if xs[0] == x then 0 else 1 + Pos(xs[1..], x)
  }

  lemma {:induction false} PosAppend(xs: seq<string>, y: string, x: string)
    ensures x in xs ==> Pos(xs + [y], x) == Pos(xs, x)
    ensures x !in xs && x == y ==> Pos(xs + [y], x) == |xs|
  {
    if xs != [] {
      assert (xs + [y])[1..] == xs[1..] + [y];
      PosAppend(xs[1..], y, x);
    } else {
      assert [] + [y] == [y];
    }
  }

  /** One field of each element, in order. */
  function Project<T, U>(xs: seq<T>, field: T -> U): (ys: seq<U>)
    ensures |ys| == |xs|
    ensures forall k | 0 <= k < |xs| :: ys[k] == field(xs[k])
  {
    seq(|xs|, k requires 0 <= k < |xs| => field(xs[k]))
  }

  function RegionNames(regions: seq<Region>): seq<string> {
    Project(regions, (r: Region) => r.name)
  }

  ghost predicate DistinctNames(names: seq<string>) {
    forall i, j | 0 <= i < j < |names| :: names[i] != names[j]
  }

  /** The labels `labels` appear in the order of their first position in `names`. */
  ghost predicate InOrderOf(names: seq<string>, labels: seq<string>) {
    && (forall k | 0 <= k < |labels| :: labels[k] in names)
    && (forall i, j | 0 <= i < j < |labels| :: Pos(names, labels[i]) <= Pos(names, labels[j]))
  }

  function RegionLabels(articles: seq<Article>): seq<string> {
    Project(articles, (a: Article) => a.region)
  }

  lemma InOrderAppend(names: seq<string>, y: string, labels: seq<string>, extra: seq<string>)
    requires InOrderOf(names, labels) && y !in names
    requires forall k | 0 <= k < |extra| :: extra[k] == y
    ensures InOrderOf(names + [y], labels + extra)
  {
    var ns, ls := names + [y], labels + extra;
    forall x | x in names ensures Pos(ns, x) == Pos(names, x) < |names| { PosAppend(names, y, x); }
    PosAppend(names, y, y);
    forall i, j | 0 <= i < j < |ls| ensures Pos(ns, ls[i]) <= Pos(ns, ls[j]) {
      if j < |labels| {
        assert ls[i] == labels[i] && ls[j] == labels[j];
      } else if i < |labels| {
        assert ls[i] == labels[i] && ls[j] == y;
      } else {
        assert ls[i] == y && ls[j] == y;
      }
    }
    forall k | 0 <= k < |ls| ensures ls[k] in ns {
      if k < |labels| { assert ls[k] == labels[k]; } else { assert ls[k] == y; }
    }
  }

  lemma {:induction false} RunRegionsInOrder(d: Digest, fetch: string -> Fetch, st: Progress, regions: seq<Region>)
    requires st.articles == []
    requires DistinctNames(RegionNames(regions))
    ensures InOrderOf(RegionNames(regions), RegionLabels(RunRegions(d, fetch, st, regions).articles))
  {
    if regions != [] {
      var init, last := regions[..|regions| - 1], regions[|regions| - 1];
      var names := RegionNames(init);
      assert RegionNames(regions) == names + [last.name];
      assert DistinctNames(names);
      assert last.name !in names by {
        forall k | 0 <= k < |names| ensures names[k] != last.name {
          assert names[k] == RegionNames(regions)[k];
        }
      }
      RunRegionsInOrder(d, fetch, st, init);
      var mid := RunRegions(d, fetch, st, init);
      var r := RunSources(d, fetch, last.name, mid, last.sources);
      RunSourcesGrows(d, fetch, last.name, mid, last.sources);
      var n := |mid.articles|;
      var extra := RegionLabels(r.articles)[n..];
      assert RegionLabels(r.articles) == RegionLabels(mid.articles) + extra;
      InOrderAppend(names, last.name, RegionLabels(mid.articles), extra);
    }
  }

  /** Records come out in the configuration order of their regions. */
  lemma RecordsInRegionOrder(d: Digest, fetch: string -> Fetch, loaded: set<string>, regions: seq<Region>)
    requires DistinctNames(RegionNames(regions))
    ensures InOrderOf(RegionNames(regions), RegionLabels(Collect(d, fetch, loaded, regions).articles))
  {
    RunRegionsInOrder(d, fetch, Start(loaded), regions);
  }

  /** Within a region: records come out in the configuration order of
      their feeds, and within a feed in the order of their entries. */

  function FeedNames(srcs: seq<Source>): seq<string> {
    Project(srcs, (src: Source) => src.name)
  }

  function SourceLabels(articles: seq<Article>): seq<string> {
    Project(articles, (a: Article) => a.source)
  }

  /** The links of entries in order; an entry without one has none to
      give, and the empty string stands in its place. */
  function LinkSeq(es: seq<FeedEntry>): (links: seq<string>)
    ensures |links| == |es|
    ensures forall k | 0 <= k < |es| :: es[k].Entry? ==> links[k] == es[k].link
  {
    seq(|es|, k requires 0 <= k < |es| => if es[k].Entry? then es[k].link else [])
  }

  function UrlLabels(articles: seq<Article>): seq<string> {
    Project(articles, (a: Article) => a.url)
  }

  /** Labels in order of a list stay in order when the list grows. */
  lemma InOrderGrow(names: seq<string>, y: string, labels: seq<string>)
    requires InOrderOf(names, labels)
    ensures InOrderOf(names + [y], labels)
  {
    forall x | x in names ensures Pos(names + [y], x) == Pos(names, x) { PosAppend(names, y, x); }
    forall k | 0 <= k < |labels| ensures labels[k] in names + [y] { assert labels[k] in names; }
  }

  /** One more feed, named apart from the earlier ones, keeps its region's
      new records in feed order. */
  lemma SourcesStep(names: seq<string>, y: string, st: Progress, mid: Progress, r: Progress)
    requires st.articles <= mid.articles <= r.articles && y !in names
    requires InOrderOf(names, SourceLabels(mid.articles[|st.articles|..]))
    requires forall k | |mid.articles| <= k < |r.articles| :: r.articles[k].source == y
    ensures InOrderOf(names + [y], SourceLabels(r.articles[|st.articles|..]))
  {
    var before, extra := SourceLabels(mid.articles[|st.articles|..]), SourceLabels(r.articles[|mid.articles|..]);
    forall k | 0 <= k < |extra| ensures extra[k] == y {
      assert r.articles[|mid.articles|..][k] == r.articles[|mid.articles| + k];
    }
    assert r.articles[|st.articles|..] == mid.articles[|st.articles|..] + r.articles[|mid.articles|..];
    assert SourceLabels(r.articles[|st.articles|..]) == before + extra;
    InOrderAppend(names, y, before, extra);
  }

  /** With distinct feed names, a region's new records are in the order of
      its feeds. */
  lemma {:induction false} RunSourcesInOrder(d: Digest, fetch: string -> Fetch, region: string,
                                             st: Progress, srcs: seq<Source>)
    requires DistinctNames(FeedNames(srcs))
    ensures var r := RunSources(d, fetch, region, st, srcs);
            && st.articles <= r.articles
            && InOrderOf(FeedNames(srcs), SourceLabels(r.articles[|st.articles|..]))
  {
    if srcs == [] {
      assert SourceLabels(st.articles[|st.articles|..]) == [];
    } else {
      var init, last := srcs[..|srcs| - 1], srcs[|srcs| - 1];
      var names := FeedNames(init);
      assert FeedNames(srcs) == names + [last.name];
      assert DistinctNames(names);
      assert last.name !in names by {
        forall k | 0 <= k < |names| ensures names[k] != last.name {
          assert names[k] == FeedNames(srcs)[k];
        }
      }
      RunSourcesInOrder(d, fetch, region, st, init);
      var mid := RunSources(d, fetch, region, st, init);
      var r := RunSource(d, fetch, region, mid, last);
      FeedFetchBound(d, fetch, region, mid, last);
      assert r == RunSources(d, fetch, region, st, srcs);
      SourcesStep(names, last.name, st, mid, r);
    }
  }

  /** After a walk over entries, every link of them whose article the
      script accepts is marked: in particular a link visited again is
      skipped whenever its first visit kept a record. */
  lemma {:induction false} AcceptedLinksMarked(d: Digest, fetch: string -> Fetch, region: string, source: string,
                                               st: Progress, es: seq<FeedEntry>)
    ensures forall k | 0 <= k < |es| && es[k].Entry? && fetch(es[k].link).Fetched?
                       && Judge(d, fetch(es[k].link).text) == Accept ::
              es[k].link in RunEntries(d, fetch, region, source, st, es).processed
  {
    if es != [] {
      var init := es[..|es| - 1];
      AcceptedLinksMarked(d, fetch, region, source, st, init);
      var mid := RunEntries(d, fetch, region, source, st, init);
      var r := RunEntries(d, fetch, region, source, st, es);
      assert mid.processed <= r.processed;
      forall k | 0 <= k < |init| ensures es[k] == init[k] { }
    }
  }

  /** One more entry keeps a feed's new records in link order: it adds no
      record, or one for a link none of the earlier entries has. */
  lemma EntriesStep(links: seq<string>, y: string, st: Progress, mid: Progress, r: Progress)
    requires st.articles <= mid.articles
    requires InOrderOf(links, UrlLabels(mid.articles[|st.articles|..]))
    requires r.articles == mid.articles || (|r.articles| == |mid.articles| + 1 && mid.articles <= r.articles
                                            && r.articles[|mid.articles|].url == y && y !in links)
    ensures st.articles <= r.articles
    ensures InOrderOf(links + [y], UrlLabels(r.articles[|st.articles|..]))
  {
    var before := UrlLabels(mid.articles[|st.articles|..]);
    if r.articles == mid.articles {
      InOrderGrow(links, y, before);
    } else {
      assert r.articles == mid.articles + [r.articles[|mid.articles|]];
      assert r.articles[|st.articles|..] == mid.articles[|st.articles|..] + [r.articles[|mid.articles|]];
      assert UrlLabels(r.articles[|st.articles|..]) == before + [y];
      InOrderAppend(links, y, before, [y]);
    }
  }

  /** Entries that all have a link give new records in the order of
      their links. */
  lemma {:induction false} RunEntriesInOrder(d: Digest, fetch: string -> Fetch, region: string, source: string,
                                             st: Progress, es: seq<FeedEntry>)
    requires forall k | 0 <= k < |es| :: es[k].Entry?
    ensures var r := RunEntries(d, fetch, region, source, st, es);
            && st.articles <= r.articles
            && InOrderOf(LinkSeq(es), UrlLabels(r.articles[|st.articles|..]))
  {
    if es == [] {
      assert UrlLabels(st.articles[|st.articles|..]) == [];
    } else {
      var init, link, title := es[..|es| - 1], es[|es| - 1].link, es[|es| - 1].title;
      var links := LinkSeq(init);
      assert LinkSeq(es) == links + [link];
      RunEntriesInOrder(d, fetch, region, source, st, init);
      var mid := RunEntries(d, fetch, region, source, st, init);
      var r := Visit(d, fetch, region, source, mid, link, title);
      assert r == RunEntries(d, fetch, region, source, st, es);
      if r.articles != mid.articles {
        AcceptedLinksMarked(d, fetch, region, source, st, init);
        assert link !in links by {
          forall k | 0 <= k < |links| ensures links[k] != link {
            assert init[k].Entry? && links[k] == init[k].link;
          }
        }
      }
      EntriesStep(links, link, st, mid, r);
    }
  }

  /** The new records of one feed are in the order of its examined
      entries' links. */
  lemma FeedRecordsInEntryOrder(d: Digest, fetch: string -> Fetch, region: string, st: Progress, src: Source)
    requires src.feed.Feed?
    ensures var r := RunSource(d, fetch, region, st, src);
            && st.articles <= r.articles
            && InOrderOf(LinkSeq(Examined(src.feed.entries)), UrlLabels(r.articles[|st.articles|..]))
  {
    RunEntriesInOrder(d, fetch, region, src.name, st, Examined(src.feed.entries));
  }

  // ---------------------------------------------------------------------
  // Consequences for the saved set across runs.

  /** What one pass saves, and what the next pass (with any feeds and any
      article outcomes) will therefore fetch again and what it will not. */
  lemma NextRun(d: Digest, fetch: string -> Fetch, loaded: set<string>, regions: seq<Region>,
                fetch': string -> Fetch, regions': seq<Region>)
    ensures var first := Collect(d, fetch, loaded, regions);
            var second := Collect(d, fetch', first.processed, regions');
            // nothing the first pass saved is fetched again, in particular no record's URL
            && (forall k | 0 <= k < |second.fetched| ::
                  second.fetched[k] !in first.processed && second.fetched[k] !in Urls(first.articles))
            // an article whose fetch raised stays eligible for a later pass
            && (forall k | 0 <= k < |first.fetched| ::
                  fetch(first.fetched[k]).FetchError? ==> first.fetched[k] !in first.processed)
            // intl_main.py: every article fetched without error is never fetched again
            && (d == IntlDigest ==> forall k | 0 <= k < |first.fetched| ::
                  fetch(first.fetched[k]).Fetched? ==> first.fetched[k] in first.processed)
            // main.py: an article fetched but not accepted stays eligible
            && (d == NewsDigest ==> forall k | 0 <= k < |first.fetched| ::
                  fetch(first.fetched[k]).Fetched? && Judge(d, fetch(first.fetched[k]).text) != Accept
                  ==> first.fetched[k] !in first.processed)
  {
    var first := Collect(d, fetch, loaded, regions);
    CollectSound(d, fetch, loaded, regions);
    CollectSound(d, fetch', first.processed, regions');
    assert Urls(first.articles) <= first.processed;
    forall k | 0 <= k < |first.fetched| && first.fetched[k] in Urls(first.articles)
      ensures fetch(first.fetched[k]).Fetched? && Judge(d, fetch(first.fetched[k]).text) == Accept
    {
      var j :| 0 <= j < |first.articles| && first.articles[j].url == first.fetched[k];
      assert FromAcceptedFetch(d, fetch, first.articles[j]);
    }
  }

  /** Handling a configuration of one region with one feed is handling
      that feed's examined entries. */
  lemma SingleFeed(d: Digest, fetch: string -> Fetch, loaded: set<string>, region: string, src: Source)
    ensures Collect(d, fetch, loaded, [Region(region, [src])]) == RunSource(d, fetch, region, Start(loaded), src)
  {
    var regions := [Region(region, [src])];
    assert regions[..0] == [] && regions[0].sources[..0] == [];
    assert RunRegions(d, fetch, Start(loaded), regions[..0]) == Start(loaded);
    assert RunSources(d, fetch, region, Start(loaded), [src][..0]) == Start(loaded);
    calc {
      Collect(d, fetch, loaded, regions);
      RunRegions(d, fetch, Start(loaded), regions);
      RunSources(d, fetch, region, RunRegions(d, fetch, Start(loaded), regions[..0]), [src]);
      RunSources(d, fetch, region, Start(loaded), [src]);
      RunSource(d, fetch, region, RunSources(d, fetch, region, Start(loaded), [src][..0]), src);
    }
  }

  /** A feed of one entry is a visit of that entry. */
  lemma SingleEntry(d: Digest, fetch: string -> Fetch, region: string, st: Progress,
                    source: string, link: string, title: string)
    ensures RunSource(d, fetch, region, st, Source(source, Feed([Entry(link, title)])))
         == Visit(d, fetch, region, source, st, link, title)
  {
    var entries := [Entry(link, title)];
    ExaminedPrefix(entries, 1);
    assert entries[..1] == entries && entries[..0] == [];
    assert RunEntries(d, fetch, region, source, st, entries[..0]) == st;
    assert RunEntries(d, fetch, region, source, st, entries)
        == Visit(d, fetch, region, source, RunEntries(d, fetch, region, source, st, entries[..0]), link, title);
  }

  lemma AcceptedByBoth(d: Digest, body: string)
    requires WordCount(body) > WordThreshold && |Strip(body)| >= MinStrippedChars
    ensures Judge(d, body) == Accept
  {
  }

  /** A first pass with nothing loaded over one region with one feed whose
      one entry links to a long enough article keeps exactly that record,
      saves its URL and fetches it once. */
  lemma OneNewArticle(d: Digest, fetch: string -> Fetch, body: string)
    requires fetch("https://x/1") == Fetched(body)
    requires WordCount(body) > WordThreshold && |Strip(body)| >= MinStrippedChars
    ensures var regions := [Region("World", [Source("Feed", Feed([Entry("https://x/1", "Title")]))])];
            Collect(d, fetch, {}, regions)
              == Progress({"https://x/1"}, [Record("World", "Feed", "Title", "https://x/1", body)], ["https://x/1"])
  {
    SingleFeed(d, fetch, {}, "World", Source("Feed", Feed([Entry("https://x/1", "Title")])));
    SingleEntry(d, fetch, "World", Start({}), "Feed", "https://x/1", "Title");
    AcceptedByBoth(d, body);
  }

  /** The same entry on a later pass, with its URL loaded from the saved
      set, fetches nothing and gives no record. */
  lemma SeenArticleNotFetched(d: Digest, fetch: string -> Fetch)
    ensures var regions := [Region("World", [Source("Feed", Feed([Entry("https://x/1", "Title")]))])];
            Collect(d, fetch, {"https://x/1"}, regions) == Start({"https://x/1"})
  {
    SingleFeed(d, fetch, {"https://x/1"}, "World", Source("Feed", Feed([Entry("https://x/1", "Title")])));
    SingleEntry(d, fetch, "World", Start({"https://x/1"}), "Feed", "https://x/1", "Title");
  }

  // ---------------------------------------------------------------------
  // The loop of `collect_articles`.

  /** The body of the entry loop of `collect_articles`: skip a processed
      URL; otherwise fetch, judge, and keep and mark as the script does. */
  method VisitEntry(d: Digest, fetch: string -> Fetch, region: string, source: string,
                    processed: set<string>, articles: seq<Article>, fetched: seq<string>,
                    url: string, title: string)
    returns (processed': set<string>, articles': seq<Article>, fetched': seq<string>)
    ensures Progress(processed', articles', fetched')
         == Visit(d, fetch, region, source, Progress(processed, articles, fetched), url, title)
  {
    processed', articles', fetched' := processed, articles, fetched;
    if url !in processed {
      fetched' := fetched + [url];
      match fetch(url) {
        case FetchError =>
          // the exception is logged; the URL stays unmarked
        case Fetched(text) =>
          if d == IntlDigest {
            if WordCount(text) < WordThreshold {
              processed' := processed + {url};
            } else if |Strip(text)| < MinStrippedChars {
              processed' := processed + {url};
            } else {
              articles' := articles + [Article(region, source, title, url, Take(text, MaxArticleChars), None)];
              processed' := processed + {url};
            }
          } else if WordCount(text) > WordThreshold {
            articles' := articles + [Article(region, source, title, url, Take(text, MaxArticleChars), None)];
            processed' := processed + {url};
          }
      }
    }
  }

  /** The walk over one feed of `collect_articles`: a feed that could not
      be read is skipped; otherwise its entries are read. */
  method ReadFeed(d: Digest, fetch: string -> Fetch, region: string, source: Source,
                  processed: set<string>, articles: seq<Article>, fetched: seq<string>)
    returns (processed': set<string>, articles': seq<Article>, fetched': seq<string>)
    ensures Progress(processed', articles', fetched')
         == RunSource(d, fetch, region, Progress(processed, articles, fetched), source)
  {
    match source.feed {
      case FeedError =>
        // the exception is logged and the next feed is read
        processed', articles', fetched' := processed, articles, fetched;
      case Feed(entries) =>
        processed', articles', fetched' :=
          ReadEntries(d, fetch, region, source.name, entries, processed, articles, fetched);
    }
  }

  /** The entry loop of `collect_articles`: the first entries of a feed are
      visited in order until the cap or the first entry without a link. */
  method ReadEntries(d: Digest, fetch: string -> Fetch, region: string, source: string, entries: seq<FeedEntry>,
                     processed: set<string>, articles: seq<Article>, fetched: seq<string>)
    returns (processed': set<string>, articles': seq<Article>, fetched': seq<string>)
    ensures Progress(processed', articles', fetched')
         == RunEntries(d, fetch, region, source, Progress(processed, articles, fetched), Examined(entries))
  {
    processed', articles', fetched' := processed, articles, fetched;
    ghost var atSource := Progress(processed, articles, fetched);
    var i := 0;
    while i < |entries| && i < MaxEntriesPerFeed
      invariant i <= |entries| && i <= MaxEntriesPerFeed
      invariant forall k | 0 <= k < i :: entries[k].Entry?
      invariant Progress(processed', articles', fetched')
             == RunEntries(d, fetch, region, source, atSource, entries[..i])
    {
      if entries[i].LinklessEntry? {
        break;
      }
      var url, title := entries[i].link, entries[i].title;
      RunEntriesStep(d, fetch, region, source, atSource, entries, i);
      processed', articles', fetched' :=
        VisitEntry(d, fetch, region, source, processed', articles', fetched', url, title);
      assert forall k | 0 <= k < i + 1 :: entries[k].Entry?;
      i := i + 1;
    }
    ExaminedPrefix(entries, i);
  }

  /** `collect_articles`: given the loaded processed-URL set, returns the new
      records, the set to save, and the URLs whose articles it fetched. */
  method CollectArticles(d: Digest, fetch: string -> Fetch, loaded: set<string>, regions: seq<Region>)
    returns (articles: seq<Article>, saved: set<string>, fetched: seq<string>)
    ensures Progress(saved, articles, fetched) == Collect(d, fetch, loaded, regions)
    ensures loaded <= saved
    ensures saved == loaded + if d == IntlDigest then SuccessfulFetches(fetch, fetched) else Urls(articles)
    ensures forall k | 0 <= k < |fetched| :: fetched[k] !in loaded
    ensures forall k | 0 <= k < |articles| ::
              articles[k].url in saved && articles[k].url !in loaded
              && FromAcceptedFetch(d, fetch, articles[k]) && |articles[k].text| <= MaxArticleChars
    ensures DistinctUrls(articles)
  {
    var processed := loaded;
    articles, fetched := [], [];
    for ri := 0 to |regions|
      invariant Progress(processed, articles, fetched) == RunRegions(d, fetch, Start(loaded), regions[..ri])
    {
      var region := regions[ri];
      ghost var atRegion := Progress(processed, articles, fetched);
      for fi := 0 to |region.sources|
        invariant Progress(processed, articles, fetched)
               == RunSources(d, fetch, region.name, atRegion, region.sources[..fi])
      {
        processed, articles, fetched :=
          ReadFeed(d, fetch, region.name, region.sources[fi], processed, articles, fetched);
        assert region.sources[..fi + 1][..fi] == region.sources[..fi];
      }
      assert region.sources[..|region.sources|] == region.sources;
      assert regions[..ri + 1][..ri] == regions[..ri];
    }
    assert regions[..|regions|] == regions;
    saved := processed;
    CollectSound(d, fetch, loaded, regions);
  }
}
