/** `main` of both scripts: collect, stop when nothing is new, summarize
    every record, group the records by region and, in intl_main.py only,
    ask for and parse the quiz.  Building and sending the e-mail is not
    part of this model. */
module Pipeline {
  import opened PyText
  import opened Records
  import opened Collector
  import opened Summarizer
  import opened Grouping
  import opened Quiz

  /** The records after the summarizing loop of `main`. */
  ghost function Summarized(articles: seq<Article>, summarize: string -> Completion): (r: seq<Article>)
    ensures |r| == |articles|
    ensures forall k | 0 <= k < |articles| :: r[k].region == articles[k].region
  {
    seq(|articles|, k requires 0 <= k < |articles| =>
      articles[k].(summary := SummarizeArticle(summarize(articles[k].text))))
  }

  /** Labels in the order of their first position in some list are
      contiguous: one label never reappears after another one. */
  lemma InOrderContiguous(names: seq<string>, articles: seq<Article>)
    requires InOrderOf(names, RegionLabels(articles))
    ensures Contiguous(articles)
  {
    var labels := RegionLabels(articles);
    forall i, j, k | 0 <= i < j < k < |articles| && articles[i].region == articles[k].region
      ensures articles[j].region == articles[i].region
    {
      assert Pos(names, labels[i]) <= Pos(names, labels[j]) <= Pos(names, labels[k]);
      assert labels[j] in names && labels[i] in names;
    }
  }

  /** The records of a pass over regions with distinct names are
      contiguous by region. */
  lemma RecordsContiguous(d: Digest, fetch: string -> Fetch, loaded: set<string>, regions: seq<Region>)
    requires DistinctNames(RegionNames(regions))
    ensures Contiguous(Collect(d, fetch, loaded, regions).articles)
  {
    RecordsInRegionOrder(d, fetch, loaded, regions);
    InOrderContiguous(RegionNames(regions), Collect(d, fetch, loaded, regions).articles);
  }

  /** Records with the same regions, one for one, are contiguous together. */
  lemma ContiguousSameRegions(xs: seq<Article>, ys: seq<Article>)
    requires Contiguous(xs) && |xs| == |ys|
    requires forall k | 0 <= k < |xs| :: ys[k].region == xs[k].region
    ensures Contiguous(ys)
  {
    forall i, j, k | 0 <= i < j < k < |ys| && ys[i].region == ys[k].region
      ensures ys[j].region == ys[i].region
    {
      assert xs[i].region == xs[k].region;
    }
  }

  /** `main`: returns the processed set saved by the pass, the records
      grouped by region (none when the pass found nothing new, where
      `main` returns early) and the parsed quiz (intl_main.py only).
      `summarize` answers the per-article summary prompts and `quiz` the
      quiz prompt: both go to the same local model, with their own token
      limits and stop strings, and nothing ties their answers together. */
  method RunDigest(d: Digest, fetch: string -> Fetch, summarize: string -> Completion,
                   quiz: string -> Completion, loaded: set<string>, regions: seq<Region>)
    returns (saved: set<string>, groups: seq<Group>, questions: seq<Question>)
    ensures saved == Collect(d, fetch, loaded, regions).processed
    ensures var records := Collect(d, fetch, loaded, regions).articles;
            && (records == [] ==> groups == [] && questions == [])
            && (records != [] ==> IsGrouping(groups, Summarized(records, summarize)))
            && (d == NewsDigest ==> questions == [])
            && (d == IntlDigest && records != [] ==>
                  var reply := quiz(Take(DigestText(Flatten(groups)), MaxDigestChars));
                  && (reply.CompletionError? ==> questions == [])
                  && (reply.Completed? ==> questions == Reference(QuizLines(reply.text))))
    // With distinct region names the groups hold the records in the order
    // they were collected, and so does the quiz prompt.
    ensures var records := Collect(d, fetch, loaded, regions).articles;
            records != [] && DistinctNames(RegionNames(regions)) ==>
              && Flatten(groups) == Summarized(records, summarize)
              && Take(DigestText(Flatten(groups)), MaxDigestChars)
                 == Take(DigestText(Summarized(records, summarize)), MaxDigestChars)
  {
    var articles, fetched;
    articles, saved, fetched := CollectArticles(d, fetch, loaded, regions);
    groups, questions := [], [];
    if articles == [] {
      return;
    }
    var summarized := SummarizeAll(articles, summarize);
    assert summarized == Summarized(articles, summarize);
    groups := GroupByRegion(summarized);
    if d == IntlDigest {
      questions := GenerateQuiz(groups, quiz);
    }
    if DistinctNames(RegionNames(regions)) {
      RecordsContiguous(d, fetch, loaded, regions);
      ContiguousSameRegions(articles, summarized);
      FlattenContiguous(groups, summarized);
    }
  }
}
