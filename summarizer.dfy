/** `summarize_article` of both scripts, and the step of `main` that gives
    every collected record its summary.  The prompt template and the model
    call are outside the model: the completion is an input. */
module Summarizer {
  import opened PyText
  import opened Records

  const WhoMarker: string := "WHO:"
  const WhatMarker: string := "WHAT:"

  /** The validated summary: the stripped completion when it holds both
      section markers; nothing when it lacks one or the call failed. */
  function SummarizeArticle(c: Completion): (r: Option<string>)
    ensures c.CompletionError? ==> r == None
    ensures c.Completed? ==>
      (r.Some? <==> Contains(Strip(c.text), WhoMarker) && Contains(Strip(c.text), WhatMarker))
    ensures r.Some? ==> c.Completed? && r.value == Strip(c.text)
  {
    match c
    case CompletionError => None
    case Completed(text) =>
      var summary := Strip(text);
      if Contains(summary, WhoMarker) && Contains(summary, WhatMarker) then Some(summary) else None
  }

  lemma OccurrenceInSlice(s: string, a: nat, b: nat, i: nat, m: string)
    requires a <= i && i + |m| <= b <= |s|
    requires StartsWith(s[i..], m)
    ensures StartsWith(s[a..b][i - a..], m)
  {
    assert s[a..b][i - a..][..|m|] == s[i..][..|m|];
  }

  lemma OccurrenceOfSlice(s: string, a: nat, b: nat, j: nat, m: string)
    requires a <= b <= |s| && j <= b - a
    requires StartsWith(s[a..b][j..], m)
    ensures StartsWith(s[a + j..], m)
  {
    assert s[a + j..][..|m|] == s[a..b][j..][..|m|];
  }

  /** A whitespace-free occurrence lies inside the non-blank middle. */
  lemma OccurrenceInMiddle(s: string, a: nat, n: nat, i: nat, m: string)
    requires a + n <= |s| && AllSpace(s[..a]) && AllSpace(s[a + n..])
    requires m != [] && NoSpace(m)
    requires i <= |s| && StartsWith(s[i..], m)
    ensures a <= i && i + |m| <= a + n
  {
    assert !IsSpace(s[i]) by { assert s[i] == m[0]; }
    assert !IsSpace(s[i + |m| - 1]) by { assert s[i + |m| - 1] == m[|m| - 1]; }
    forall k | 0 <= k < a ensures IsSpace(s[k]) { assert s[..a][k] == s[k]; }
    forall k | a + n <= k < |s| ensures IsSpace(s[k]) { assert s[a + n..][k - (a + n)] == s[k]; }
  }

  lemma ContainsStripped(s: string, m: string)
    requires m != [] && NoSpace(m) && Contains(s, m)
    ensures Contains(Strip(s), m)
  {
    var a := Leading(s);
    var n := |Strip(s)|;
    var i :| 0 <= i <= |s| && StartsWith(s[i..], m);
    OccurrenceInMiddle(s, a, n, i, m);
    OccurrenceInSlice(s, a, a + n, i, m);
    assert StartsWith(Strip(s)[i - a..], m);
  }

  lemma ContainsUnstripped(s: string, m: string)
    requires Contains(Strip(s), m)
    ensures Contains(s, m)
  {
    var a := Leading(s);
    var r := Strip(s);
    var j :| 0 <= j <= |r| && StartsWith(r[j..], m);
    OccurrenceOfSlice(s, a, a + |r|, j, m);
  }

  /** An occurrence of a non-empty, whitespace-free string survives
      stripping, and stripping adds none. */
  lemma ContainsAfterStrip(s: string, m: string)
    requires m != [] && NoSpace(m)
    ensures Contains(Strip(s), m) <==> Contains(s, m)
  {
    if Contains(s, m) { ContainsStripped(s, m); }
    if Contains(Strip(s), m) { ContainsUnstripped(s, m); }
  }

  lemma MarkersHaveNoSpace()
    ensures WhoMarker != [] && NoSpace(WhoMarker)
    ensures WhatMarker != [] && NoSpace(WhatMarker)
  {
    assert forall k | 0 <= k < |WhoMarker| :: WhoMarker[k] in "WHO:";
    assert forall k | 0 <= k < |WhatMarker| :: WhatMarker[k] in "WHAT:";
  }

  /** A completion is kept exactly when its raw text holds both markers,
      whatever whitespace surrounds it. */
  lemma KeptIffMarkers(text: string)
    ensures SummarizeArticle(Completed(text)).Some? <==>
            Contains(text, WhoMarker) && Contains(text, WhatMarker)
  {
    MarkersHaveNoSpace();
    ContainsAfterStrip(text, WhoMarker);
    ContainsAfterStrip(text, WhatMarker);
  }

  /** A kept summary is non-empty, has nothing left to strip, and passes
      validation again unchanged. */
  lemma SummaryStable(c: Completion)
    requires SummarizeArticle(c).Some?
    ensures var s := SummarizeArticle(c).value;
            && s != []
            && Strip(s) == s
            && SummarizeArticle(Completed(s)) == Some(s)
  {
    var s := SummarizeArticle(c).value;
    StripIdempotent(c.text);
    var i :| 0 <= i <= |s| && StartsWith(s[i..], WhoMarker);
  }

  /** The summarizing step of `main`: every record gets the validated
      summary of the completion for its text; nothing else changes. */
  method SummarizeAll(articles: seq<Article>, complete: string -> Completion) returns (summarized: seq<Article>)
    ensures |summarized| == |articles|
    ensures forall k | 0 <= k < |articles| ::
              summarized[k] == articles[k].(summary := SummarizeArticle(complete(articles[k].text)))
  {
    summarized := articles;
    for i := 0 to |articles|
      invariant |summarized| == |articles|
      invariant forall k | 0 <= k < i ::
                  summarized[k] == articles[k].(summary := SummarizeArticle(complete(articles[k].text)))
      invariant forall k | i <= k < |articles| :: summarized[k] == articles[k]
    {
      var article := summarized[i];
      summarized := summarized[i := article.(summary := SummarizeArticle(complete(article.text)))];
    }
  }
}
