/** `generate_quiz` of intl_main.py: the digest of summaries the quiz prompt
    carries, and the line-oriented reading of the model's reply into
    questions.  The prompt template and the model call are outside the
    model: the reply is an input. */
module Quiz {
  import opened PyText
  import opened Records
  import opened Grouping

  /** The prompt carries at most this many characters of summaries. */
  const MaxDigestChars: nat := 4000
  const AnswerPrefix: string := "Correct Answer:"
  const ArticleLabel: string := "\nArticle: "
  const NewLine: string := "\n"

  /** One quiz question: its line, its option lines and the answer letter
      (empty when the reply gave none). */
  datatype Question = Question(question: string, options: seq<string>, answer: string)

  // ---------------------------------------------------------------------
  // The summaries digest.

  /** What one record adds to the digest: its title and summary when it has
      a non-empty summary, nothing otherwise. */
  function DigestEntry(a: Article): string {
    if a.summary.Some? && a.summary.value != [] then
      ArticleLabel + a.title + NewLine + a.summary.value + NewLine
    else
      ""
  }

  /** The entries of `articles`, one after the other. */
  function DigestText(articles: seq<Article>): string {
    if articles == [] then "" else DigestText(articles[..|articles| - 1]) + DigestEntry(articles[|articles| - 1])
  }


  lemma DigestSnoc(xs: seq<Article>, a: Article)
    ensures DigestText(xs + [a]) == DigestText(xs) + DigestEntry(a)
  {
    assert (xs + [a])[..|xs|] == xs;
  }

  /** The digest of several runs of records is the digests of the runs
      one after the other. */
  lemma {:induction false} DigestAppend(xs: seq<Article>, ys: seq<Article>)
    ensures DigestText(xs + ys) == DigestText(xs) + DigestText(ys)
    decreases |ys|
  {
    if ys == [] {
      assert xs + ys == xs;
    } else {
      var init, last := ys[..|ys| - 1], ys[|ys| - 1];
      assert ys == init + [last];
      assert xs + ys == (xs + init) + [last];
      DigestAppend(xs, init);
      DigestSnoc(xs + init, last);
      DigestSnoc(init, last);
      AppendAssoc(DigestText(xs), DigestText(init), DigestEntry(last));
    }
  }

  /** Records without a summary leave the digest as it is. */
  lemma {:induction false} UnsummarizedIgnored(xs: seq<Article>, ys: seq<Article>)
    requires forall k | 0 <= k < |ys| :: ys[k].summary == None
    ensures DigestText(xs + ys) == DigestText(xs)
    decreases |ys|
  {
    if ys == [] {
      assert xs + ys == xs;
    } else {
      var init, last := ys[..|ys| - 1], ys[|ys| - 1];
      assert ys == init + [last];
      assert xs + ys == (xs + init) + [last];
      UnsummarizedIgnored(xs, init);
      DigestSnoc(xs + init, last);
      assert DigestEntry(last) == "";
    }
  }

  lemma DigestStep(seen: seq<Article>, articles: seq<Article>, i: nat)
    requires i < |articles|
    ensures DigestText(seen + articles[..i + 1]) == DigestText(seen + articles[..i]) + DigestEntry(articles[i])
  {
    assert articles[..i + 1] == articles[..i] + [articles[i]];
    AppendAssoc(seen, articles[..i], [articles[i]]);
    DigestSnoc(seen + articles[..i], articles[i]);
  }

  /** The loop of `generate_quiz` that builds `articles_summary`, region by
      region, then cut to its first 4000 characters. */
  method AssembleQuizDigest(groups: seq<Group>) returns (digest: string)
    ensures digest == Take(DigestText(Flatten(groups)), MaxDigestChars)
    ensures |digest| <= MaxDigestChars
  {
    digest := "";
    for gi := 0 to |groups|
      invariant digest == DigestText(Flatten(groups[..gi]))
    {
      var articles := groups[gi].articles;
      ghost var seen := Flatten(groups[..gi]);
      assert groups[..gi + 1][..gi] == groups[..gi];
      assert Flatten(groups[..gi + 1]) == seen + articles;
      assert seen + articles[..0] == seen;
      for ai := 0 to |articles|
        invariant digest == DigestText(seen + articles[..ai])
      {
        var article := articles[ai];
        DigestStep(seen, articles, ai);
        if article.summary.Some? && article.summary.value != [] {
          var entry := ArticleLabel + article.title + NewLine + article.summary.value + NewLine;
          digest := digest + entry;
        }
      }
      assert articles[..|articles|] == articles;
    }
    assert groups[..|groups|] == groups;
    digest := Take(digest, MaxDigestChars);
  }

  /** For records grouped region by region, the digest follows the records
      in their collected order. */
  lemma DigestOfContiguous(groups: seq<Group>, articles: seq<Article>)
    requires IsGrouping(groups, articles) && Contiguous(articles)
    ensures Take(DigestText(Flatten(groups)), MaxDigestChars) == Take(DigestText(articles), MaxDigestChars)
  {
    FlattenContiguous(groups, articles);
  }

  // ---------------------------------------------------------------------
  // Reading the reply.

  /** `line.startswith('Q') and '.' in line` */
  predicate IsQuestionLine(line: string) {
    line != [] && line[0] == 'Q' && '.' in line
  }

  /** `line.startswith(('A.', 'B.', 'C.', 'D.'))`, character by character. */
  predicate IsOptionLine(line: string) {
    |line| >= 2 && (line[0] == 'A' || line[0] == 'B' || line[0] == 'C' || line[0] == 'D') && line[1] == '.'
  }

  predicate IsAnswerLine(line: string) {
    StartsWith(line, AnswerPrefix)
  }

  /** An answer line is neither a question line nor an option line, so the
      order of the tests in the loop does not matter for it. */
  lemma AnswerLineIsNoOther(line: string)
    requires IsAnswerLine(line)
    ensures !IsQuestionLine(line) && !IsOptionLine(line)
    ensures ':' in line
  {
    assert line[..|AnswerPrefix|] == AnswerPrefix;
    assert line[0] == 'C' && line[1] == 'o' && line[14] == ':';
  }

  /** `line.split(':')[1].strip()`: the stripped text between the first and
      the second colon. */
  function AnswerOf(line: string): string
    requires IsAnswerLine(line)
  {
    AnswerLineIsNoOther(line);
    SplitFirstAgrees(line, ':');
    Strip(SplitOn(line, ':')[1])
  }

  /** The answer is the text after "Correct Answer:" up to any later
      colon, stripped. */
  lemma AnswerText(t: string, rest: string)
    requires ':' !in t
    ensures IsAnswerLine(AnswerPrefix + t) && AnswerOf(AnswerPrefix + t) == Strip(t)
    ensures IsAnswerLine(AnswerPrefix + t + [':'] + rest) && AnswerOf(AnswerPrefix + t + [':'] + rest) == Strip(t)
  {
    var head := "Correct Answer";
    assert ':' !in head by {
      assert forall k | 0 <= k < |head| :: head[k] in "Correct Answer";
    }
    assert (AnswerPrefix + t)[..|AnswerPrefix|] == AnswerPrefix;
    assert (AnswerPrefix + t + [':'] + rest)[..|AnswerPrefix|] == AnswerPrefix;
    assert AnswerPrefix + t == head + [':'] + t;
    SplitPrefixed(head, t, ':');
    SplitPlain(t, ':');
    assert AnswerPrefix + t + [':'] + rest == head + [':'] + (t + [':'] + rest);
    SplitPrefixed(head, t + [':'] + rest, ':');
    SplitPrefixed(t, rest, ':');
  }

  /** The non-blank lines of `lines`, stripped. */
  function CleanLines(lines: seq<string>): seq<string> {
    if lines == [] then
      []
    else
      var line := Strip(lines[0]);
      (if line == [] then [] else [line]) + CleanLines(lines[1..])
  }

  /** The lines the parser reads from a reply. */
  function QuizLines(reply: string): seq<string> {
    CleanLines(SplitOn(Strip(reply), '\n'))
  }

  /** The lines after a question line that belong to it: up to the next
      question line. */
  function UntilHeader(ls: seq<string>): (body: seq<string>)
    ensures body <= ls
    ensures forall k | 0 <= k < |body| :: !IsQuestionLine(body[k])
    ensures |body| < |ls| ==> IsQuestionLine(ls[|body|])
  {
    if ls == [] || IsQuestionLine(ls[0]) then [] else [ls[0]] + UntilHeader(ls[1..])
  }

  /** The option lines of a question's lines, in order. */
  function Options(body: seq<string>): (options: seq<string>)
    ensures forall k | 0 <= k < |options| :: IsOptionLine(options[k]) && options[k] in body
  {
    if body == [] then [] else (if IsOptionLine(body[0]) then [body[0]] else []) + Options(body[1..])
  }

  /** The answer of the last answer line of a question's lines, or
      `answer` when there is none. */
  function LastAnswerOr(body: seq<string>, answer: string): string {
    if body == [] then
      answer
    else if IsAnswerLine(body[|body| - 1]) then
      AnswerOf(body[|body| - 1])
    else
      LastAnswerOr(body[..|body| - 1], answer)
  }

  /** The answer of the last answer line of a question's lines; empty when
      there is none. */
  function LastAnswer(body: seq<string>): string {
    LastAnswerOr(body, "")
  }

  /** Without an answer line the answer stays as it was. */
  lemma {:induction false} NoAnswerLine(body: seq<string>, answer: string)
    requires forall j | 0 <= j < |body| :: !IsAnswerLine(body[j])
    ensures LastAnswerOr(body, answer) == answer
    decreases |body|
  {
    if body != [] {
      NoAnswerLine(body[..|body| - 1], answer);
    }
  }

  /** The last answer line wins. */
  lemma {:induction false} LastAnswerWins(body: seq<string>, k: nat, answer: string)
    requires k < |body| && IsAnswerLine(body[k])
    requires forall j | k < j < |body| :: !IsAnswerLine(body[j])
    ensures LastAnswerOr(body, answer) == AnswerOf(body[k])
    decreases |body|
  {
    if k < |body| - 1 {
      var init := body[..|body| - 1];
      assert init[k] == body[k];
      LastAnswerWins(init, k, answer);
    }
  }

  /** Reading one more line first: an answer line replaces the answer
      carried so far. */
  lemma {:induction false} LastAnswerCons(line: string, body: seq<string>, answer: string)
    ensures LastAnswerOr([line] + body, answer)
         == LastAnswerOr(body, if IsAnswerLine(line) then AnswerOf(line) else answer)
    decreases |body|
  {
    var xs := [line] + body;
    if body == [] {
      assert xs[..0] == [];
    } else {
      assert xs[..|xs| - 1] == [line] + body[..|body| - 1];
      assert xs[|xs| - 1] == body[|body| - 1];
      LastAnswerCons(line, body[..|body| - 1], answer);
    }
  }

  /** What the reply means: one question per question line, in order, with
      the option lines up to the next question line and the answer of the
      last answer line among them.  Lines before the first question line are
      ignored. */
  function Reference(ls: seq<string>): seq<Question>
    decreases |ls|
  {
    if ls == [] then
      []
    else if IsQuestionLine(ls[0]) then
      var body := UntilHeader(ls[1..]);
      [Question(ls[0], Options(body), LastAnswer(body))] + Reference(ls[1..][|body|..])
    else
      Reference(ls[1..])
  }

  /** The question lines among `ls`, in order. */
  function Headers(ls: seq<string>): (headers: seq<string>)
    ensures forall k | 0 <= k < |headers| :: IsQuestionLine(headers[k])
  {
    if ls == [] then [] else (if IsQuestionLine(ls[0]) then [ls[0]] else []) + Headers(ls[1..])
  }

  /** Lines without a question line add no header. */
  lemma {:induction false} HeadersSkip(body: seq<string>, rest: seq<string>)
    requires forall k | 0 <= k < |body| :: !IsQuestionLine(body[k])
    ensures Headers(body + rest) == Headers(rest)
    decreases |body|
  {
    if body != [] {
      assert (body + rest)[0] == body[0];
      assert (body + rest)[1..] == body[1..] + rest;
      assert Headers(body + rest) == Headers(body[1..] + rest);
      assert forall k | 0 <= k < |body[1..]| :: body[1..][k] == body[k + 1];
      HeadersSkip(body[1..], rest);
    } else {
      assert body + rest == rest;
    }
  }

  /** The texts of questions, in order. */
  function Texts(questions: seq<Question>): (r: seq<string>)
    ensures |r| == |questions|
    ensures forall k | 0 <= k < |questions| :: r[k] == questions[k].question
  {
    if questions == [] then [] else [questions[0].question] + Texts(questions[1..])
  }

  /** There is one question per question line, each with that line as its
      text, in the order of the lines. */
  lemma {:induction false} QuestionsAreHeaders(ls: seq<string>)
    ensures Texts(Reference(ls)) == Headers(ls)
    decreases |ls|
  {
    if ls != [] {
      if IsQuestionLine(ls[0]) {
        var body := UntilHeader(ls[1..]);
        var after := ls[1..][|body|..];
        var q := Question(ls[0], Options(body), LastAnswer(body));
        assert Texts(Reference(ls)) == [ls[0]] + Texts(Reference(after)) by {
          assert Reference(ls) == [q] + Reference(after);
          assert ([q] + Reference(after))[1..] == Reference(after);
        }
        assert Headers(ls) == [ls[0]] + Headers(after) by {
          assert ls[1..] == body + after;
          HeadersSkip(body, after);
        }
        QuestionsAreHeaders(after);
      } else {
        assert Reference(ls) == Reference(ls[1..]);
        assert Headers(ls) == Headers(ls[1..]);
        QuestionsAreHeaders(ls[1..]);
      }
    }
  }

  /** Lines before the first question line are ignored. */
  lemma {:induction false} PreambleIgnored(preamble: seq<string>, ls: seq<string>)
    requires forall k | 0 <= k < |preamble| :: !IsQuestionLine(preamble[k])
    ensures Reference(preamble + ls) == Reference(ls)
    decreases |preamble|
  {
    if preamble != [] {
      assert (preamble + ls)[0] == preamble[0];
      assert (preamble + ls)[1..] == preamble[1..] + ls;
      assert Reference(preamble + ls) == Reference(preamble[1..] + ls);
      assert forall k | 0 <= k < |preamble[1..]| :: preamble[1..][k] == preamble[k + 1];
      PreambleIgnored(preamble[1..], ls);
    } else {
      assert preamble + ls == ls;
    }
  }

  /** Every option of every question is an option line of the reply. */
  lemma {:induction false} OptionsFromReply(ls: seq<string>)
    ensures forall k, j | 0 <= k < |Reference(ls)| && 0 <= j < |Reference(ls)[k].options| ::
              IsOptionLine(Reference(ls)[k].options[j]) && Reference(ls)[k].options[j] in ls
    decreases |ls|
  {
    if ls != [] {
      if IsQuestionLine(ls[0]) {
        var body := UntilHeader(ls[1..]);
        var after := ls[1..][|body|..];
        assert ls[1..] == body + after;
        OptionsFromReply(after);
        var qs := Reference(ls);
        forall k, j | 0 <= k < |qs| && 0 <= j < |qs[k].options|
          ensures IsOptionLine(qs[k].options[j]) && qs[k].options[j] in ls
        {
          if k == 0 {
            assert qs[k].options[j] in body;
          } else {
            assert qs[k] == Reference(after)[k - 1];
            assert qs[k].options[j] in after;
          }
        }
      } else {
        OptionsFromReply(ls[1..]);
      }
    }
  }

  /** Lines without a question line all belong to the question before
      them. */
  lemma {:induction false} UntilHeaderAll(body: seq<string>, after: seq<string>)
    requires forall k | 0 <= k < |body| :: !IsQuestionLine(body[k])
    requires after == [] || IsQuestionLine(after[0])
    ensures UntilHeader(body + after) == body
    decreases |body|
  {
    if body == [] {
      assert body + after == after;
    } else {
      assert (body + after)[0] == body[0];
      assert (body + after)[1..] == body[1..] + after;
      assert forall k | 0 <= k < |body[1..]| :: body[1..][k] == body[k + 1];
      UntilHeaderAll(body[1..], after);
      assert body == [body[0]] + body[1..];
    }
  }

  /** A question line and the lines up to the next one read as one
      question. */
  lemma ReadsBlock(header: string, body: seq<string>, after: seq<string>)
    requires IsQuestionLine(header)
    requires forall k | 0 <= k < |body| :: !IsQuestionLine(body[k])
    requires after == [] || IsQuestionLine(after[0])
    ensures Reference([header] + body + after)
         == [Question(header, Options(body), LastAnswer(body))] + Reference(after)
  {
    var ls := [header] + body + after;
    assert ls[0] == header;
    assert ls[1..] == body + after;
    assert UntilHeader(ls[1..]) == body by {
      UntilHeaderAll(body, after);
    }
    assert ls[1..][|body|..] == after;
    var q := Question(header, Options(body), LastAnswer(body));
    assert Reference(ls) == [q] + Reference(ls[1..][|body|..]);
  }

  lemma OptionsCons(line: string, body: seq<string>)
    ensures Options([line] + body) == OptionOf(line) + Options(body)
  {
    assert ([line] + body)[1..] == body;
  }

  /** Option lines are all kept as options, in order. */
  lemma {:induction false} OptionsAll(options: seq<string>, tail: seq<string>)
    requires forall k | 0 <= k < |options| :: IsOptionLine(options[k])
    ensures Options(options + tail) == options + Options(tail)
    decreases |options|
  {
    if options == [] {
      assert options + tail == tail;
    } else {
      var xs := options + tail;
      assert xs[1..] == options[1..] + tail;
      assert xs[0] == options[0];
      OptionsAll(options[1..], tail);
      assert options == [options[0]] + options[1..];
      AppendAssoc([options[0]], options[1..], Options(tail));
    }
  }

  /** Option lines followed by an answer line give those options. */
  lemma OptionsThenAnswer(options: seq<string>, answer: string)
    requires IsAnswerLine(answer)
    requires forall k | 0 <= k < |options| :: IsOptionLine(options[k])
    ensures Options(options + [answer]) == options
  {
    AnswerLineIsNoOther(answer);
    OptionsAll(options, [answer]);
    OptionsCons(answer, []);
    AppendNil(options);
  }

  /** Option lines followed by an answer line hold no question line. */
  lemma NoHeaderInAnswer(options: seq<string>, answer: string)
    requires IsAnswerLine(answer)
    requires forall k | 0 <= k < |options| :: IsOptionLine(options[k])
    ensures forall k | 0 <= k < |options + [answer]| :: !IsQuestionLine((options + [answer])[k])
  {
    AnswerLineIsNoOther(answer);
    var body := options + [answer];
    forall k | 0 <= k < |body| ensures !IsQuestionLine(body[k]) {
      if k < |options| {
        assert body[k] == options[k];
      } else {
        assert body[k] == answer;
      }
    }
  }

  /** The answer line at the end gives the answer. */
  lemma AnswerAtEnd(options: seq<string>, t: string)
    requires ':' !in t
    ensures LastAnswer(options + [AnswerPrefix + t]) == Strip(t)
  {
    AnswerText(t, "");
    var body := options + [AnswerPrefix + t];
    assert body[|body| - 1] == AnswerPrefix + t;
  }

  /** A reply in the shape the prompt asks for: a question line, its
      option lines and the answer line read as one question. */
  lemma ReadsWellFormedQuestion(header: string, options: seq<string>, t: string)
    requires IsQuestionLine(header) && ':' !in t
    requires forall k | 0 <= k < |options| :: IsOptionLine(options[k])
    ensures Reference([header] + options + [AnswerPrefix + t]) == [Question(header, options, Strip(t))]
  {
    var body := options + [AnswerPrefix + t];
    AnswerText(t, "");
    OptionsThenAnswer(options, AnswerPrefix + t);
    NoHeaderInAnswer(options, AnswerPrefix + t);
    AnswerAtEnd(options, t);
    ReadsBlock(header, body, []);
    AppendNil([header] + body);
    AppendAssoc([header], options, [AnswerPrefix + t]);
    AppendNil([Question(header, options, Strip(t))]);
  }

  // ---------------------------------------------------------------------
  // The parsing loop against `Reference`.

  /** The questions still to come when the loop has produced `done`, holds
      `current` open and has `rest` left to read. */
  function Resume(done: seq<Question>, current: Option<Question>, rest: seq<string>): seq<Question> {
    match current
    case None => done + Reference(rest)
    case Some(q) =>
      var body := UntilHeader(rest);
      done + [Question(q.question, q.options + Options(body), LastAnswerOr(body, q.answer))]
           + Reference(rest[|body|..])
  }

  function Pending(current: Option<Question>): seq<Question> {
    if current.Some? then [current.value] else []
  }

  /** A question line closes the open question and opens a new one. */
  lemma ResumeHeader(done: seq<Question>, current: Option<Question>, line: string, rest: seq<string>)
    requires IsQuestionLine(line)
    ensures Resume(done, current, [line] + rest)
         == Resume(done + Pending(current), Some(Question(line, [], "")), rest)
  {
    var ls := [line] + rest;
    assert ls[1..] == rest;
    var body := UntilHeader(rest);
    var q := Question(line, Options(body), LastAnswer(body));
    assert Reference(ls) == [q] + Reference(rest[|body|..]);
    assert [] + Options(body) == Options(body);
    match current {
      case None =>
      case Some(open) =>
        assert UntilHeader(ls) == [];
        assert ls[0..] == ls;
        assert open.options + [] == open.options;
        AppendAssoc(done + [open], [q], Reference(rest[|body|..]));
    }
  }

  /** The options a line contributes: itself when it is an option line. */
  function OptionOf(line: string): seq<string> {
    if IsOptionLine(line) then [line] else []
  }

  /** Any line but a question line is ignored when no question is open. */
  lemma ResumeSkip(done: seq<Question>, line: string, rest: seq<string>)
    requires !IsQuestionLine(line)
    ensures Resume(done, None, [line] + rest) == Resume(done, None, rest)
  {
    assert ([line] + rest)[1..] == rest;
  }

  /** Any line but a question line adds its option, and its answer, to the
      open question. */
  lemma ResumeInside(done: seq<Question>, q: Question, line: string, rest: seq<string>)
    requires !IsQuestionLine(line)
    ensures Resume(done, Some(q), [line] + rest)
         == Resume(done, Some(Question(q.question, q.options + OptionOf(line),
                                       if IsAnswerLine(line) then AnswerOf(line) else q.answer)), rest)
  {
    var ls := [line] + rest;
    assert ls[1..] == rest;
    var body := UntilHeader(rest);
    assert UntilHeader(ls) == [line] + body;
    assert ls[|[line] + body|..] == rest[|body|..];
    assert Options([line] + body) == OptionOf(line) + Options(body) by {
      assert ([line] + body)[1..] == body;
    }
    AppendAssoc(q.options, OptionOf(line), Options(body));
    LastAnswerCons(line, body, q.answer);
  }

  /** Nothing left to read: the open question is the last one. */
  lemma ResumeEnd(done: seq<Question>, current: Option<Question>)
    ensures Resume(done, current, []) == done + Pending(current)
  {
    match current {
      case None =>
      case Some(q) =>
        assert q.options + [] == q.options;
        var none: seq<string> := [];
        assert none[0..] == none;
    }
  }

  lemma CleanLinesStep(lines: seq<string>, i: nat)
    requires i < |lines|
    ensures CleanLines(lines[i..])
         == (if Strip(lines[i]) == [] then [] else [Strip(lines[i])]) + CleanLines(lines[i + 1..])
  {
    assert lines[i..][1..] == lines[i + 1..];
  }

  /** An option line, else an answer line, fills the open question; any
      other line leaves it as it is. */
  method FillQuestion(q: Question, line: string, ghost done: seq<Question>, ghost rest: seq<string>)
    returns (q': Question)
    requires !IsQuestionLine(line)
    ensures Resume(done, Some(q'), rest) == Resume(done, Some(q), [line] + rest)
  {
    ResumeInside(done, q, line, rest);
    if IsOptionLine(line) {
      assert !IsAnswerLine(line) by {
        if IsAnswerLine(line) { AnswerLineIsNoOther(line); }
      }
      q' := q.(options := q.options + [line]);
    } else if IsAnswerLine(line) {
      assert q.options + OptionOf(line) == q.options;
      q' := q.(answer := AnswerOf(line));
    } else {
      assert q.options + OptionOf(line) == q.options;
      q' := q;
    }
  }

  /** One non-blank line of the parsing loop: a question line closes the open question and opens a new one; any other
      line fills the open question, or is ignored when none is open.
      `rest` are the cleaned lines still to come. */
  method ReadLine(questions: seq<Question>, current: Option<Question>, line: string, ghost rest: seq<string>)
    returns (questions': seq<Question>, current': Option<Question>)
    ensures Resume(questions', current', rest) == Resume(questions, current, [line] + rest)
  {
    questions', current' := questions, current;
    if IsQuestionLine(line) {
      ResumeHeader(questions, current, line, rest);
      if current.Some? {
        questions' := questions + [current.value];
      }
      current' := Some(Question(line, [], ""));
    } else if current.Some? {
      var q := FillQuestion(current.value, line, questions, rest);
      current' := Some(q);
    } else {
      ResumeSkip(questions, line, rest);
    }
  }

  /** The parsing loop of `generate_quiz` over the reply's lines: each
      line read in order; the question still open at the end is the last
      one. */
  method ParseLines(lines: seq<string>) returns (questions: seq<Question>)
    ensures questions == Reference(CleanLines(lines))
  {
    questions := [];
    var current: Option<Question> := None;
    assert lines[0..] == lines;
    for i := 0 to |lines|
      invariant Resume(questions, current, CleanLines(lines[i..])) == Reference(CleanLines(lines))
    {
      var line := Strip(lines[i]);
      CleanLinesStep(lines, i);
      if line == [] {
        assert CleanLines(lines[i..]) == CleanLines(lines[i + 1..]);
        continue;
      }
      questions, current := ReadLine(questions, current, line, CleanLines(lines[i + 1..]));
    }
    assert lines[|lines|..] == [];
    ResumeEnd(questions, current);
    if current.Some? {
      questions := questions + [current.value];
    }
  }

  /** The reply is stripped and split into lines before parsing. */
  method ParseQuiz(reply: string) returns (questions: seq<Question>)
    ensures questions == Reference(QuizLines(reply))
  {
    var quizText := Strip(reply);
    questions := ParseLines(SplitOn(quizText, '\n'));
  }

  /** `generate_quiz`: the digest goes to the model (with the prompt, which
      is not modelled); a failed call gives no questions, a reply is parsed. */
  method GenerateQuiz(groups: seq<Group>, complete: string -> Completion) returns (questions: seq<Question>)
    ensures var reply := complete(Take(DigestText(Flatten(groups)), MaxDigestChars));
            && (reply.CompletionError? ==> questions == [])
            && (reply.Completed? ==> questions == Reference(QuizLines(reply.text)))
  {
    var digest := AssembleQuizDigest(groups);
    match complete(digest) {
      case CompletionError =>
        questions := [];
      case Completed(text) =>
        questions := ParseQuiz(text);
    }
  }
}
