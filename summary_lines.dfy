/** The summary-line splitter of `create_html_email` in both scripts: every
    line of a summary that is not blank and holds a colon is shown as a
    label and a content, split at its first colon and each stripped.  The
    HTML around them is not modelled. */
module SummaryLines {
  import opened PyText
  import opened Records

  /** A label (`heading`, since `label` is a Dafny keyword) and its
      content. */
  datatype SummaryLine = SummaryLine(heading: string, content: string)

  /** The label of a split line has no colon. */
  lemma NoColonInStripped(s: string)
    requires ':' !in s
    ensures ':' !in Strip(s)
  {
    var n := Leading(s);
    var r := Strip(s);
    forall i | 0 <= i < |r| ensures r[i] != ':' {
      assert r[i] == s[n + i];
    }
  }

  /** One line of a summary: kept exactly when it is not blank and holds a
      colon; the label has no colon, and label and content have nothing
      left to strip. */
  function LabelOf(line: string): (r: Option<SummaryLine>)
    ensures r.Some? <==> !AllSpace(line) && ':' in line
    ensures r.Some? ==> ':' !in r.value.heading
    ensures r.Some? ==> Stripped(r.value.heading) && Stripped(r.value.content)
  {
    StripEmpty(line);
    if Strip(line) != [] && ':' in line then
      var parts := SplitFirst(line, ':');
      NoColonInStripped(parts.0);
      Some(SummaryLine(Strip(parts.0), Strip(parts.1)))
    else
      None
  }

  /** A line is split at its first colon: the label is the stripped text
      before it and the content the stripped text after it, later colons
      included. */
  lemma SplitsAtFirstColon(before: string, after: string)
    requires ':' !in before
    ensures LabelOf(before + [':'] + after) == Some(SummaryLine(Strip(before), Strip(after)))
  {
    var line := before + [':'] + after;
    SplitFirstOf(before, after, ':');
    assert line[|before|] == ':' && !IsSpace(':');
    assert !AllSpace(line);
  }

  /** The values present among `options`, in order. */
  function Kept<T>(options: seq<Option<T>>): seq<T> {
    if options == [] then
      []
    else
      (if options[0].Some? then [options[0].value] else []) + Kept(options[1..])
  }

  lemma {:induction false} KeptAppend<T>(xs: seq<Option<T>>, ys: seq<Option<T>>)
    ensures Kept(xs + ys) == Kept(xs) + Kept(ys)
    decreases |xs|
  {
    if xs == [] {
      assert xs + ys == ys;
    } else {
      var head := if xs[0].Some? then [xs[0].value] else [];
      assert Kept(xs + ys) == head + Kept(xs[1..] + ys) by {
        assert (xs + ys)[0] == xs[0];
        assert (xs + ys)[1..] == xs[1..] + ys;
      }
      KeptAppend(xs[1..], ys);
      AppendAssoc(head, Kept(xs[1..]), Kept(ys));
    }
  }

  lemma {:induction false} KeptAll<T>(options: seq<Option<T>>, values: seq<T>)
    requires |options| == |values|
    requires forall k | 0 <= k < |values| :: options[k] == Some(values[k])
    ensures Kept(options) == values
    decreases |values|
  {
    if values != [] {
      KeptAll(options[1..], values[1..]);
      assert values == [values[0]] + values[1..];
    }
  }

  /** What the splitter makes of each line. */
  function Labels(lines: seq<string>): (labels: seq<Option<SummaryLine>>)
    ensures |labels| == |lines|
  {
    seq(|lines|, k requires 0 <= k < |lines| => LabelOf(lines[k]))
  }

  /** `for line in summary.split('\n')`: the kept lines, in order. */
  function SummaryLinesOf(summary: string): seq<SummaryLine> {
    Kept(Labels(SplitOn(summary, '\n')))
  }

  /** The lines of two pieces of text are read each on its own. */
  lemma LabelsAppend(xs: seq<string>, ys: seq<string>)
    ensures Kept(Labels(xs + ys)) == Kept(Labels(xs)) + Kept(Labels(ys))
  {
    assert Labels(xs + ys) == Labels(xs) + Labels(ys) by {
      forall k | 0 <= k < |xs + ys|
        ensures Labels(xs + ys)[k] == (Labels(xs) + Labels(ys))[k]
      {
        if k < |xs| {
          assert (xs + ys)[k] == xs[k];
        } else {
          assert (xs + ys)[k] == ys[k - |xs|];
        }
      }
    }
    KeptAppend(Labels(xs), Labels(ys));
  }

  /** A line the splitter can read back: no line break anywhere, no colon
      in the label, nothing to strip from either part. */
  predicate Showable(line: SummaryLine) {
    '\n' !in line.heading && '\n' !in line.content && ':' !in line.heading
    && Stripped(line.heading) && Stripped(line.content)
  }

  /** How the e-mail shows a line: `label: content`. */
  function Shown(line: SummaryLine): string {
    line.heading + ": " + line.content
  }

  /** The splitter reads a shown line back as the same label and content. */
  lemma ReadsShownLine(line: SummaryLine)
    requires Showable(line)
    ensures '\n' !in Shown(line)
    ensures LabelOf(Shown(line)) == Some(line)
  {
    var s := Shown(line);
    var h := line.heading;
    var rest := [' '] + line.content;
    assert s == h + [':'] + rest;
    SplitFirstOf(h, rest, ':');
    StripSpaceBefore(line.content);
    StripNothing(h);
    assert !AllSpace(s) by {
      assert s[|h|] == ':';
    }
    assert '\n' !in rest && '\n' !in h + [':'];
  }

  /** A summary written as `label: content` lines. */
  function Written(lines: seq<SummaryLine>): string {
    if lines == [] then "" else Join(seq(|lines|, k requires 0 <= k < |lines| => Shown(lines[k])), '\n')
  }

  /** Splitting a written summary gives back exactly its lines. */
  lemma RoundTrip(lines: seq<SummaryLine>)
    requires forall k | 0 <= k < |lines| :: Showable(lines[k])
    ensures SummaryLinesOf(Written(lines)) == lines
  {
    if lines == [] {
      SplitPlain("", '\n');
      StripEmpty("");
      assert Labels([""]) == [LabelOf("")];
    } else {
      var shown := seq(|lines|, k requires 0 <= k < |lines| => Shown(lines[k]));
      forall k | 0 <= k < |lines| ensures '\n' !in shown[k] && Labels(shown)[k] == Some(lines[k]) {
        ReadsShownLine(lines[k]);
      }
      SplitJoin(shown, '\n');
      KeptAll(Labels(shown), lines);
    }
  }
}
