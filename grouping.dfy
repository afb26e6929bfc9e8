/** The grouping step of `main` in both scripts: `articles_by_region`, a
    dictionary from region to the list of its records.  A Python dictionary
    keeps its keys in insertion order, so it is modelled as a sequence of
    groups with distinct regions. */
module Grouping {
  import opened Records

  datatype Group = Group(region: string, articles: seq<Article>)

  /** The regions of `articles` in the order each first appears; no region
      twice. */
  function FirstAppearance(articles: seq<Article>): (regions: seq<string>)
    ensures forall i, j | 0 <= i < j < |regions| :: regions[i] != regions[j]
  {
    if articles == [] then
      []
    else
      var before := FirstAppearance(articles[..|articles| - 1]);
      var region := articles[|articles| - 1].region;
      if region in before then before else before + [region]
  }

  /** Every record's region is among the regions. */
  lemma {:induction false} FirstAppearanceHas(articles: seq<Article>, k: nat)
    requires k < |articles|
    ensures articles[k].region in FirstAppearance(articles)
    decreases |articles|
  {
    var init := articles[..|articles| - 1];
    if k < |init| {
      assert init[k] == articles[k];
      FirstAppearanceHas(init, k);
    }
  }

  /** Every region is the region of some record. */
  lemma {:induction false} FirstAppearanceFrom(articles: seq<Article>, x: string) returns (k: nat)
    requires x in FirstAppearance(articles)
    ensures k < |articles| && articles[k].region == x
    decreases |articles|
  {
    var init := articles[..|articles| - 1];
    if x == articles[|articles| - 1].region {
      k := |articles| - 1;
    } else {
      k := FirstAppearanceFrom(init, x);
      assert init[k] == articles[k];
    }
  }

  /** The records of `region`, in their order in `articles`. */
  function InRegion(articles: seq<Article>, region: string): (members: seq<Article>)
    ensures |members| <= |articles|
  {
    if articles == [] then
      []
    else
      var last := articles[|articles| - 1];
      InRegion(articles[..|articles| - 1], region) + if last.region == region then [last] else []
  }

  /** The records of a region are exactly the records with that region. */
  lemma {:induction false} InRegionMembers(articles: seq<Article>, region: string, a: Article)
    ensures a in InRegion(articles, region) <==> a in articles && a.region == region
    decreases |articles|
  {
    if articles != [] {
      var init, last := articles[..|articles| - 1], articles[|articles| - 1];
      assert articles == init + [last];
      InRegionMembers(init, region, a);
    }
  }

  /** A region no record has has no records. */
  lemma {:induction false} InRegionNone(articles: seq<Article>, region: string)
    requires forall k | 0 <= k < |articles| :: articles[k].region != region
    ensures InRegion(articles, region) == []
    decreases |articles|
  {
    if articles != [] {
      var init := articles[..|articles| - 1];
      assert forall k | 0 <= k < |init| :: init[k] == articles[k];
      InRegionNone(init, region);
    }
  }

  /** `groups` is what grouping `articles` gives: one group per region in
      first-appearance order, each holding that region's records in order. */
  ghost predicate IsGrouping(groups: seq<Group>, articles: seq<Article>) {
    && |groups| == |FirstAppearance(articles)|
    && forall k | 0 <= k < |groups| ::
         groups[k].region == FirstAppearance(articles)[k]
         && groups[k].articles == InRegion(articles, groups[k].region)
  }

  /** The `in` test on the dictionary: the position of the group of
      `region`, or `|groups|` when there is none. */
  function Lookup(groups: seq<Group>, region: string): (k: nat)
    ensures k <= |groups|
    ensures k < |groups| ==> groups[k].region == region
    ensures k == |groups| ==> forall j | 0 <= j < |groups| :: groups[j].region != region
  {
    if groups == [] then 0
    else if groups[0].region == region then 0
    else 1 + Lookup(groups[1..], region)
  }

  /** The loop of `main` that fills `articles_by_region`. */
  method GroupByRegion(articles: seq<Article>) returns (groups: seq<Group>)
    ensures IsGrouping(groups, articles)
  {
    groups := [];
    for i := 0 to |articles|
      invariant IsGrouping(groups, articles[..i])
    {
      var article := articles[i];
      assert articles[..i + 1] == articles[..i] + [article];
      var k := Lookup(groups, article.region);
      if k == |groups| {
        GroupStepNew(groups, articles[..i], article);
        groups := groups + [Group(article.region, [article])];
      } else {
        GroupStepExisting(groups, articles[..i], article, k);
        groups := groups[k := groups[k].(articles := groups[k].articles + [article])];
      }
    }
    assert articles[..|articles|] == articles;
  }

  lemma FirstAppearanceSnoc(xs: seq<Article>, a: Article)
    ensures FirstAppearance(xs + [a]) ==
      if a.region in FirstAppearance(xs) then FirstAppearance(xs) else FirstAppearance(xs) + [a.region]
  {
    assert (xs + [a])[..|xs|] == xs;
  }

  lemma InRegionSnoc(xs: seq<Article>, a: Article, r: string)
    ensures InRegion(xs + [a], r) == InRegion(xs, r) + if a.region == r then [a] else []
  {
    assert (xs + [a])[..|xs|] == xs;
  }

  /** A record of a region not yet seen opens a new group at the end. */
  lemma GroupStepNew(groups: seq<Group>, xs: seq<Article>, a: Article)
    requires IsGrouping(groups, xs)
    requires forall j | 0 <= j < |groups| :: groups[j].region != a.region
    ensures IsGrouping(groups + [Group(a.region, [a])], xs + [a])
  {
    var ys := xs + [a];
    var before := FirstAppearance(xs);
    FirstAppearanceSnoc(xs, a);
    assert a.region !in before by {
      forall j | 0 <= j < |before| ensures before[j] != a.region {
        assert groups[j].region == before[j];
      }
    }
    assert InRegion(xs, a.region) == [] by {
      forall i | 0 <= i < |xs| ensures xs[i].region != a.region {
        FirstAppearanceHas(xs, i);
      }
      InRegionNone(xs, a.region);
    }
    var g := groups + [Group(a.region, [a])];
    forall j | 0 <= j < |g|
      ensures g[j].region == FirstAppearance(ys)[j] && g[j].articles == InRegion(ys, g[j].region)
    {
      InRegionSnoc(xs, a, g[j].region);
    }
  }

  /** A record of a region already seen joins the end of that region's group. */
  lemma GroupStepExisting(groups: seq<Group>, xs: seq<Article>, a: Article, k: nat)
    requires IsGrouping(groups, xs)
    requires k < |groups| && groups[k].region == a.region
    ensures IsGrouping(groups[k := groups[k].(articles := groups[k].articles + [a])], xs + [a])
  {
    var ys := xs + [a];
    var before := FirstAppearance(xs);
    FirstAppearanceSnoc(xs, a);
    assert before[k] == a.region;
    var g := groups[k := groups[k].(articles := groups[k].articles + [a])];
    forall j | 0 <= j < |g|
      ensures g[j].region == FirstAppearance(ys)[j] && g[j].articles == InRegion(ys, g[j].region)
    {
      InRegionSnoc(xs, a, g[j].region);
      if j != k { assert before[j] != before[k]; }
    }
  }

  /** The lists of the groups one after the other. */
  function Flatten(groups: seq<Group>): seq<Article> {
    if groups == [] then [] else Flatten(groups[..|groups| - 1]) + groups[|groups| - 1].articles
  }

  /** No record of a region lies between two records of another region. */
  ghost predicate Contiguous(articles: seq<Article>) {
    forall i, j, k | 0 <= i < j < k < |articles| ::
      articles[i].region == articles[k].region ==> articles[j].region == articles[i].region
  }

  /** Grouping loses no record and invents none: every record is in the
      group of its region and in no other. */
  lemma GroupMembership(groups: seq<Group>, articles: seq<Article>, a: Article)
    requires IsGrouping(groups, articles)
    ensures a in articles ==> exists k :: 0 <= k < |groups| && a in groups[k].articles
    ensures forall k | 0 <= k < |groups| :: a in groups[k].articles <==> a in articles && a.region == groups[k].region
  {
    forall k | 0 <= k < |groups| ensures a in groups[k].articles <==> a in articles && a.region == groups[k].region {
      InRegionMembers(articles, groups[k].region, a);
    }
    if a in articles {
      var j :| 0 <= j < |articles| && articles[j] == a;
      var regions := FirstAppearance(articles);
      FirstAppearanceHas(articles, j);
      var k :| 0 <= k < |regions| && regions[k] == a.region;
      assert a in groups[k].articles;
    }
  }

  /** There is one grouping of a list of records. */
  lemma GroupingUnique(g1: seq<Group>, g2: seq<Group>, articles: seq<Article>)
    requires IsGrouping(g1, articles) && IsGrouping(g2, articles)
    ensures g1 == g2
  {
    assert forall k | 0 <= k < |g1| :: g1[k] == g2[k];
  }

  /** The grouping of `articles`. */
  ghost function Grouped(articles: seq<Article>): seq<Group> {
    var regions := FirstAppearance(articles);
    seq(|regions|, k requires 0 <= k < |regions| => Group(regions[k], InRegion(articles, regions[k])))
  }

  lemma GroupedIsGrouping(articles: seq<Article>)
    ensures IsGrouping(Grouped(articles), articles)
  {
  }

  lemma GroupedNew(xs: seq<Article>, a: Article)
    requires Lookup(Grouped(xs), a.region) == |Grouped(xs)|
    ensures Grouped(xs + [a]) == Grouped(xs) + [Group(a.region, [a])]
  {
    GroupedIsGrouping(xs);
    GroupedIsGrouping(xs + [a]);
    GroupStepNew(Grouped(xs), xs, a);
    GroupingUnique(Grouped(xs + [a]), Grouped(xs) + [Group(a.region, [a])], xs + [a]);
  }

  lemma GroupedExisting(xs: seq<Article>, a: Article, k: nat)
    requires k == Lookup(Grouped(xs), a.region) < |Grouped(xs)|
    ensures Grouped(xs + [a]) == Grouped(xs)[k := Grouped(xs)[k].(articles := Grouped(xs)[k].articles + [a])]
  {
    var gs := Grouped(xs);
    GroupedIsGrouping(xs);
    GroupedIsGrouping(xs + [a]);
    GroupStepExisting(gs, xs, a, k);
    GroupingUnique(Grouped(xs + [a]), gs[k := gs[k].(articles := gs[k].articles + [a])], xs + [a]);
  }

  lemma FlattenSnoc(groups: seq<Group>, g: Group)
    ensures Flatten(groups + [g]) == Flatten(groups) + g.articles
  {
    assert (groups + [g])[..|groups|] == groups;
  }

  lemma FlattenExtendLast(groups: seq<Group>, a: Article)
    requires groups != []
    ensures var k := |groups| - 1;
            Flatten(groups[k := groups[k].(articles := groups[k].articles + [a])]) == Flatten(groups) + [a]
  {
    var k := |groups| - 1;
    var g := groups[k := groups[k].(articles := groups[k].articles + [a])];
    assert g[..k] == groups[..k];
  }

  /** Each record's region is new or is the region of the record before
      it; the form of contiguity the proofs below walk along. */
  ghost predicate Runs(articles: seq<Article>)
    decreases |articles|
  {
    articles == [] ||
    var init, last := articles[..|articles| - 1], articles[|articles| - 1];
    && Runs(init)
    && (init != [] && last.region in FirstAppearance(init) ==> init[|init| - 1].region == last.region)
  }

  lemma ContiguousInit(init: seq<Article>, last: Article)
    requires Contiguous(init + [last])
    ensures Contiguous(init)
  {
    var xs := init + [last];
    forall i, m, n | 0 <= i < m < n < |init| && init[i].region == init[n].region
      ensures init[m].region == init[i].region
    {
      assert xs[i] == init[i] && xs[m] == init[m] && xs[n] == init[n];
    }
  }

  lemma {:induction false} ContiguousRuns(articles: seq<Article>)
    requires Contiguous(articles)
    ensures Runs(articles)
    decreases |articles|
  {
    if articles != [] {
      var init, last := articles[..|articles| - 1], articles[|articles| - 1];
      assert articles == init + [last];
      ContiguousInit(init, last);
      ContiguousRuns(init);
      if init != [] && last.region in FirstAppearance(init) {
        var j := FirstAppearanceFrom(init, last.region);
        if j < |init| - 1 {
          assert articles[j].region == articles[|articles| - 1].region;
          assert articles[|init| - 1].region == articles[j].region;
        }
      }
    }
  }

  /** When each region's records are contiguous, as records collected
      region by region are, concatenating the groups' lists gives back the
      records in their original order. */
  lemma FlattenContiguous(groups: seq<Group>, articles: seq<Article>)
    requires IsGrouping(groups, articles)
    requires Contiguous(articles)
    ensures Flatten(groups) == articles
  {
    ContiguousRuns(articles);
    FlattenRuns(articles);
    GroupedIsGrouping(articles);
    GroupingUnique(groups, Grouped(articles), articles);
  }

  lemma {:induction false} FlattenRuns(articles: seq<Article>)
    requires Runs(articles)
    ensures Flatten(Grouped(articles)) == articles
    decreases |articles|
  {
    if articles != [] {
      var init, last := articles[..|articles| - 1], articles[|articles| - 1];
      assert articles == init + [last];
      var gs := Grouped(init);
      FlattenRuns(init);
      var k := Lookup(gs, last.region);
      if k == |gs| {
        GroupedNew(init, last);
        FlattenSnoc(gs, Group(last.region, [last]));
      } else {
        assert k == |gs| - 1 by {
          GroupedIsGrouping(init);
          var regions := FirstAppearance(init);
          assert regions[k] == last.region;
          LastRegionIsLast(init);
          assert regions[|regions| - 1] == last.region;
        }
        GroupedExisting(init, last, k);
        FlattenExtendLast(gs, last);
      }
    }
  }

  /** With records in runs, the last region to appear is that of the last
      record. */
  lemma {:induction false} LastRegionIsLast(articles: seq<Article>)
    requires articles != [] && Runs(articles)
    ensures var regions := FirstAppearance(articles);
            regions != [] && regions[|regions| - 1] == articles[|articles| - 1].region
    decreases |articles|
  {
    var init, last := articles[..|articles| - 1], articles[|articles| - 1];
    assert articles == init + [last];
    FirstAppearanceSnoc(init, last);
    if init != [] && last.region in FirstAppearance(init) {
      LastRegionIsLast(init);
    }
  }
}
