# CE-I-Newsletter digest pipeline in Dafny

The repository holds two daily digest scripts that share one pipeline:
`main.py` (a news digest) and `intl_main.py` (an international digest with
a quiz). Each run

1. collects new articles from RSS feeds, region by region, feed by feed,
   entry by entry, skipping URLs it has already processed. It keeps the
   articles that pass its length rule and saves the processed-URL set;
2. asks a language model for a WHO/WHAT/… summary of every article and
   keeps a summary only when it holds both `WHO:` and `WHAT:`;
3. groups the articles by region, in the order the regions first appear;
4. in `intl_main.py` only, builds a quiz prompt from the titles and
   summaries (cut to 4000 characters) and parses the model's reply into
   questions, options and answers;
5. renders the e-mail, splitting every summary line of the form
   `label: content` at its first colon.

The model replaces the network, the model calls and the file system by
inputs:

- a feed is given with what parsing it produced;
- `fetch: string -> Fetch` says what downloading an article URL produced;
- `summarize: string -> Completion` and `quiz: string -> Completion` say
  what the language model answered to a summary prompt and to the quiz
  prompt;
- the processed-URL set is a value passed in and returned.

`Digest = NewsDigest | IntlDigest` selects which script a collection pass
models. Their collection passes differ only in their acceptance rule and
in what they mark as processed.

Files:

- `records.dfy` (`Records`): the shared records.
- `text.dfy` (`PyText`): the Python string operations the scripts rely on:
  - `str.isspace`, `strip`, `split()`, `split(sep)`, `split(sep, 1)`,
  - `startswith`, `in`, and slicing.
- `collector.dfy` (`Collector`): `collect_articles` of both scripts. It
  holds a reference semantics (`Visit`, `RunEntries`, `RunSources`,
  `RunRegions`, `Collect`), the invariant of a pass (`Sound`) and the
  imperative loop (`CollectArticles`) proved equal to the reference.
- `summarizer.dfy` (`Summarizer`): the `summarize_article` validation and
  the summarizing loop of `main`.
- `grouping.dfy` (`Grouping`): the `articles_by_region` loop of `main`,
  proved against a reference grouping.
- `quiz.dfy` (`Quiz`): quiz-prompt assembly and the quiz-reply parser of
  `generate_quiz`. `Reference` describes a reply block by block; the
  line-by-line loop with its one open-question slot is proved equal to it.
- `summary_lines.dfy` (`SummaryLines`): the summary-line split of
  `create_html_email`, with a round trip against a writer of
  `label: content` lines.
- `pipeline.dfy` (`Pipeline`): `main`, from collection to the parsed quiz.

The two acceptance rules, as the code writes them:

- intl_main.py rejects an article when it has fewer than 100 words
  (`< 100`) or fewer than 200 characters after stripping (`< 200`). Both
  bounds are therefore inclusive: a text of exactly 100 words and exactly
  200 characters is accepted. A rejected URL is marked as processed.
- main.py accepts an article only with more than 100 words (`> 100`). It
  marks no rejected URL as processed, so a short article is fetched again
  on the next run.

## Model

| member | source | states |
|---|---|---|
| Collector.Judge | intl_main.py:156-168 | intl_main.py accepts a fetched text exactly when it has at least 100 words and at least 200 characters after stripping; every other fetched text is rejected and marked, never left for retry; main.py (lines 120-128) accepts a fetched text exactly when it has more than 100 words, and every other fetched text is rejected and left unmarked, for retry |
| Collector.Record | intl_main.py:170-176 | a record carries the region, the feed name, the entry title and the URL, has no summary yet, and keeps the first min(3000, length) characters of the article text |
| Collector.Visit | intl_main.py:146-181 | an already processed link changes nothing and is not fetched; a new link is fetched once; a failed fetch adds no record and marks nothing; a record is added exactly when the fetch succeeded and the script accepts the text, and it is the truncated record; the link is marked exactly when a record is added or, in intl_main.py, whenever the fetch succeeded; under main.py's rule (main.py lines 110-132) a successful fetch that is not accepted leaves the set unchanged |
| Collector.Examined | intl_main.py:145-146 | the entries looked at are a prefix of the feed of at most 10 entries, all with a link, cut short only by the cap or by an entry without a link |
| Collector.ExaminedPrefix | main.py:109-110 | a walk over a feed that stopped at the cap, at the end or at an entry without a link examined exactly the entries before that point |
| Collector.RunEntries | intl_main.py:145-183 | reference semantics of the entry loop: the entries are visited in order, an entry without a link is passed over; `ReadEntries` is proved equal to it over the examined entries |
| Collector.RunSource | intl_main.py:142-186 | reference semantics of one feed: a feed that raised adds nothing, a parsed one is its examined entries handled by `RunEntries`; `ReadFeed` is proved equal to it |
| Collector.RunSources | intl_main.py:141-186 | reference semantics of the feed loop of one region: its feeds handled in configuration order |
| Collector.RunRegions | intl_main.py:138-186 | reference semantics of the region loop: the regions handled in configuration order |
| Collector.Collect | intl_main.py:130-190 | reference semantics of `collect_articles`: a pass over all regions from the loaded set, with no records and no fetches yet; `CollectArticles` is proved equal to it, and the same holds for main.py lines 95-141 |
| Collector.VisitSound | intl_main.py:146-177 | one visit keeps the pass invariant `Sound` (all five parts listed in the CollectSound row) |
| Collector.RunEntriesSound | intl_main.py:145-183 | visiting any list of entries keeps the pass invariant |
| Collector.RunSourcesSound | intl_main.py:141-186 | reading any list of feeds keeps the pass invariant |
| Collector.RunRegionsSound | intl_main.py:138-186 | reading any list of regions keeps the pass invariant |
| Collector.CollectSound | intl_main.py:132-188 | after a whole pass: the saved set contains the loaded set; it is the loaded set plus every successfully fetched URL (intl_main.py) or plus the record URLs (main.py); no fetched URL was loaded; every record's URL is saved and was not loaded; every record is the truncated text of an accepted fetch with no summary; record URLs are pairwise distinct (main.py lines 97-139 for main.py's rule) |
| Collector.RunEntriesAppend | intl_main.py:145-183 | entries are handled in order: handling `a + b` is handling `a`, then `b` |
| Collector.RunSourcesAppend | intl_main.py:141-186 | feeds are handled in order: handling `a + b` is handling `a`, then `b` |
| Collector.RunRegionsAppend | intl_main.py:138-186 | regions are handled in order: handling `a + b` is handling `a`, then `b` |
| Collector.FailedFeedIsSkipped | intl_main.py:185-186 | a feed that could not be read changes nothing: the feeds before and after it are handled as if it were absent |
| Collector.RunEntriesGrows | intl_main.py:145-177 | handling a feed's entries only appends records of that region and feed, only grows the fetched list and the processed set, and fetches at most one link per entry, each one the link of an entry |
| Collector.FeedFetchBound | main.py:105-137 | one feed fetches at most 10 articles, only links of its examined entries, appends only its own records, and changes nothing when it could not be read |
| Collector.RunSourcesGrows | intl_main.py:141-176 | a region's feeds only append records of that region, each from one of its feeds |
| Collector.RunRegionsInOrder | intl_main.py:138-176 | records appear in the order of their regions in the configuration (regions with distinct names) |
| Collector.RecordsInRegionOrder | main.py:102-127 | the records of a pass appear in configuration order of their regions |
| Collector.RunSourcesInOrder | intl_main.py:141-176 | for distinct feed names, the records one region's pass appends come out in the configuration order of its feeds (the same loop at main.py lines 105-127) |
| Collector.AcceptedLinksMarked | intl_main.py:148-176 | after a walk over entries, every entry link whose article was fetched and accepted is in the processed set, so a repeated link adds no second record |
| Collector.RunEntriesInOrder | intl_main.py:145-176 | entries that all have a link give records whose URLs follow the order of those links |
| Collector.FeedRecordsInEntryOrder | intl_main.py:145-176 | the records of one feed have URLs in the order of the links of its examined entries (the first ten, up to a linkless one); the same loop at main.py lines 108-127 |
| Collector.NextRun | main.py:112-128 | on the next pass from the saved set, no URL the first pass saved is fetched again, in particular no record's URL; a failed fetch stays eligible; in intl_main.py every successfully fetched URL is saved; in main.py a fetched but rejected URL stays eligible (intl_main.py lines 148-181 for intl_main.py's rule) |
| Collector.OneNewArticle | intl_main.py:145-177 | with nothing loaded, one feed with one long enough article gives exactly its record, saves its URL and fetches it once, under both rules |
| Collector.SeenArticleNotFetched | intl_main.py:148-149 | the same feed with its URL already loaded fetches nothing and gives no record |
| Collector.VisitEntry | intl_main.py:146-181 | the loop body of `collect_articles` computes exactly `Visit`, in main.py (lines 110-132) under main.py's rule |
| Collector.ReadEntries | intl_main.py:145-183 | the entry loop computes exactly the reference walk over the examined entries |
| Collector.ReadFeed | intl_main.py:141-186 | the per-feed step computes exactly the reference for one feed, skipping a feed that could not be read |
| Collector.CollectArticles | intl_main.py:130-190 | the nested loops return exactly the records, saved set and fetched list of the reference pass, together with the whole pass invariant of CollectSound and the 3000-character bound on record texts (main.py lines 95-141 under main.py's rule) |
| Summarizer.SummarizeArticle | intl_main.py:206-215 | a failed call gives nothing; a completion is kept exactly when its stripped text holds both `WHO:` and `WHAT:`; a kept summary is the stripped text (the same validation at main.py lines 157-167) |
| Summarizer.ContainsAfterStrip | intl_main.py:206-208 | a non-empty, whitespace-free marker occurs in a text exactly when it occurs in the stripped text |
| Summarizer.KeptIffMarkers | main.py:157-163 | a completion is kept exactly when its raw text holds both markers |
| Summarizer.SummaryStable | intl_main.py:206-209 | a kept summary is non-empty, unchanged by stripping, and passes validation again unchanged |
| Summarizer.SummarizeAll | intl_main.py:555-558 | every record gets the validated summary of the completion for its text; nothing else in the records changes (the same loop at main.py lines 370-373) |
| Grouping.FirstAppearance | intl_main.py:564-569 | the region keys have no duplicates |
| Grouping.FirstAppearanceHas | intl_main.py:566-568 | every record's region is a key |
| Grouping.FirstAppearanceFrom | intl_main.py:566-568 | every key is the region of some record |
| Grouping.InRegionMembers | intl_main.py:569 | a region's list holds exactly the records with that region |
| Grouping.InRegionNone | intl_main.py:567-569 | a region with no record has an empty list |
| Grouping.Lookup | intl_main.py:567 | the `in` test on the dictionary: the position of the region's group, or none when no group has that region |
| Grouping.GroupByRegion | intl_main.py:564-569 | the loop yields one group per region in first-appearance order, each holding that region's records in their order (the same loop at main.py lines 380-385) |
| Grouping.GroupStepNew | intl_main.py:567-569 | a record of a new region opens a new last group |
| Grouping.GroupStepExisting | main.py:383-385 | a record of a seen region is appended to that region's group |
| Grouping.GroupMembership | main.py:380-385 | grouping loses no record and invents none: each record is in its region's group and in no other |
| Grouping.GroupingUnique | intl_main.py:564-569 | the grouping of a list of records is unique |
| Grouping.GroupedIsGrouping | intl_main.py:564-569 | the reference grouping satisfies the grouping property |
| Grouping.FlattenContiguous | intl_main.py:564-569 | when each region's records are contiguous, concatenating the groups' lists gives back the records in order |
| Grouping.LastRegionIsLast | intl_main.py:564-569 | with records in runs, the last key is the region of the last record |
| Quiz.DigestEntry | intl_main.py:222-224 | a record with a non-empty summary contributes `\nArticle: <title>\n<summary>\n`, and any other record contributes nothing |
| Quiz.DigestText | intl_main.py:220-224 | reference for the digest loop: the entries of the records concatenated in order; `AssembleQuizDigest` is proved equal to it, cut to 4000 characters |
| Quiz.DigestAppend | intl_main.py:221-224 | the digest of two runs of records is the two digests one after the other |
| Quiz.UnsummarizedIgnored | intl_main.py:223 | records without a summary add nothing to the digest |
| Quiz.AssembleQuizDigest | intl_main.py:220-226 | the loop over the groups builds the titles and summaries of the grouped records in group order, cut to their first 4000 characters |
| Quiz.DigestOfContiguous | intl_main.py:220-226 | for records collected region by region, the prompt digest follows the records in their collected order |
| Quiz.IsQuestionLine | intl_main.py:249 | a question line starts with `Q` and contains a `.` |
| Quiz.IsOptionLine | intl_main.py:253 | an option line starts with one of `A.`, `B.`, `C.` or `D.` |
| Quiz.IsAnswerLine | intl_main.py:256 | an answer line starts with `Correct Answer:` |
| Quiz.AnswerOf | intl_main.py:258 | the answer of an answer line is its second `:`-separated part, stripped; `AnswerText` proves it is the text between the first and second colons |
| Quiz.CleanLines | intl_main.py:245-247 | the lines the loop looks at: every line stripped, blank lines dropped, order kept |
| Quiz.QuizLines | intl_main.py:239-247 | the reply stripped, split on newlines and cleaned by `CleanLines` |
| Quiz.AnswerLineIsNoOther | intl_main.py:249-256 | a `Correct Answer:` line is neither a question line nor an option line, and it holds a colon |
| Quiz.AnswerText | intl_main.py:258 | the answer is the stripped text between the first and the second colon, whatever follows the second colon |
| Quiz.UntilHeader | intl_main.py:249-258 | a question's lines are the lines up to the next question line |
| Quiz.Options | intl_main.py:253-255 | a question's options are option lines from its own lines |
| Quiz.Reference | intl_main.py:244-261 | reference reading of a reply, block by block: one question per question line with the option lines up to the next question line and the last answer among them, lines before the first question ignored; `ParseLines` is proved equal to it |
| Quiz.Headers | intl_main.py:249 | the header list holds only question lines |
| Quiz.NoAnswerLine | intl_main.py:252-258 | without a `Correct Answer:` line the answer stays empty |
| Quiz.LastAnswerWins | intl_main.py:256-258 | the last `Correct Answer:` line of a block gives the answer; later ones overwrite earlier ones |
| Quiz.QuestionsAreHeaders | intl_main.py:244-261 | there is one question per question line (as many questions as question lines), each with that line as its text, in input order |
| Quiz.PreambleIgnored | intl_main.py:249-258 | option and answer lines before the first question line are ignored |
| Quiz.OptionsFromReply | intl_main.py:253-255 | every option of every question is an option line of the reply, verbatim |
| Quiz.ReadsBlock | intl_main.py:249-261 | a question line and the lines up to the next one read as one question: all its option lines in order, with no count check, and the last answer |
| Quiz.OptionsAll | intl_main.py:253-255 | option lines are all kept as options, in order |
| Quiz.ReadsWellFormedQuestion | intl_main.py:249-258 | a question line, any option lines and a `Correct Answer: t` line read as exactly one question with those options and answer `t` stripped |
| Quiz.ResumeHeader | intl_main.py:249-252 | a question line closes the open question, if any, and opens a new one with no options and an empty answer |
| Quiz.ResumeSkip | intl_main.py:253-258 | with no question open, option and answer lines are ignored |
| Quiz.ResumeInside | intl_main.py:253-258 | with a question open, an option line is appended to its options and an answer line replaces its answer |
| Quiz.ResumeEnd | intl_main.py:260-261 | at the end of the reply the open question is the last one |
| Quiz.FillQuestion | intl_main.py:253-258 | filling the open question with a non-question line keeps the loop's invariant |
| Quiz.ReadLine | intl_main.py:249-258 | one non-blank line of the loop keeps the loop's invariant |
| Quiz.ParseLines | intl_main.py:244-261 | the parsing loop over the lines, each stripped and blank ones skipped, returns exactly the block reading |
| Quiz.ParseQuiz | intl_main.py:239-263 | the reply is stripped, split on line breaks and parsed into exactly the block reading |
| Quiz.GenerateQuiz | intl_main.py:217-267 | the model is asked with the 4000-character digest of the grouped records; a failed call gives no questions; a reply gives exactly its block reading |
| SummaryLines.LabelOf | intl_main.py:463-466 | a summary line is kept exactly when it is not blank and holds a colon; its label has no colon, and label and content have nothing left to strip (the same split at main.py lines 312-315) |
| SummaryLines.Labels | intl_main.py:464-466 | one reading by `LabelOf` per line of the summary, as many readings as lines |
| SummaryLines.SummaryLinesOf | intl_main.py:463-466 | the summary split on newlines, each line read by `LabelOf`, the kept ones in order; `RoundTrip` proves it inverts writing showable lines |
| SummaryLines.SplitsAtFirstColon | intl_main.py:465-466 | a line is split at its first colon: the label is the stripped text before it, the content the stripped text after it, later colons included |
| SummaryLines.LabelsAppend | main.py:312-315 | the lines of two pieces of text are read each on its own |
| SummaryLines.ReadsShownLine | intl_main.py:464-466 | a line shown as `label: content` reads back as the same label and content |
| SummaryLines.RoundTrip | intl_main.py:463-466 | splitting a summary written as `label: content` lines gives back exactly those lines |
| PyText.IsSpace | intl_main.py:206 | the characters for which Python's `str.isspace()` holds: the ASCII controls 9-13 and 28-31, space, U+0085, U+00A0, U+1680, U+2000-U+200A, U+2028, U+2029, U+202F, U+205F and U+3000 |
| PyText.StartsWith | intl_main.py:249-256 | `s.startswith(p)`: `p` is no longer than `s` and is its prefix |
| PyText.Take | intl_main.py:175 | slicing `[:n]` gives the first min(n, length) characters as a prefix |
| PyText.Contains | intl_main.py:208 | `in` holds exactly when the marker occurs at some position |
| PyText.Strip | intl_main.py:206 | `strip` gives the text between the leading and the trailing whitespace, with no whitespace at either end |
| PyText.StripIdempotent | intl_main.py:239-245 | stripping twice is stripping once |
| PyText.StripEmpty | intl_main.py:245-247 | a line is blank exactly when it is all whitespace |
| PyText.StripNothing | intl_main.py:465-466 | a string with no whitespace at either end strips to itself |
| PyText.Words | intl_main.py:156 | `split()` gives non-empty, whitespace-free words |
| PyText.WordsAreScanned | intl_main.py:156 | `split()` gives exactly the words a character-by-character scanner reads: each maximal run of non-whitespace characters, in order, none lost and none invented; `len(text.split())` counts them |
| PyText.ScannedFrom | intl_main.py:156 | scanning from inside a word sees the rest of that word and then the words of the remaining text |
| PyText.WordCount | intl_main.py:156 | `len(text.split())`: the number of words, which `WordsAreScanned` proves is the number of maximal runs of non-whitespace characters |
| PyText.WordsJoinWords | main.py:120 | words joined by single spaces split back into the same words |
| PyText.SplitOn | intl_main.py:244 | `split('\n')` never gives an empty list, no part holds a line break, and joining the parts gives the text back |
| PyText.SplitJoin | intl_main.py:244 | any parts without a line break are what splitting their join gives back |
| PyText.SplitFirst | intl_main.py:465 | `split(':', 1)` gives the text before the first colon and everything after it |
| PyText.SplitFirstAgrees | intl_main.py:258 | `split(':')` and `split(':', 1)` split at the same first colon |
| Pipeline.Summarized | intl_main.py:555-558 | the records after the summarizing loop: as many records, in the same order and the same regions, each with the validated summary of its own text |
| Pipeline.RecordsContiguous | intl_main.py:138-176 | for distinct region names, the records of a pass are contiguous by region |
| Pipeline.RunDigest | intl_main.py:547-572 | `main` returns early with nothing when no record is new; otherwise it groups the summarized records by region and parses the reply of the quiz prompt (or gives none on a failed call); summary and quiz prompts are answered by separate inputs; for distinct region names, the groups and the quiz digest follow the records in collected order; main.py's `main` (lines 361-385) collects, stops when nothing is new, summarizes, groups, and asks for no quiz |

## Left out

- `feedparser.parse` and `newspaper.Article` are external libraries that
  use the network. A feed is given with its outcome (`Feed`), and article
  downloads are the input `fetch`. `fetch` is a function, so the same URL
  gives the same outcome every time it is fetched within a pass.
- `summarize` is a function as well, so two records with the same text
  get the same summary. The scripts make a separate sampled call per
  article (temperature 0.3), so their summaries need not agree. No proved
  property relies on the two agreeing.
- The Llama model is non-deterministic foreign inference. This covers
  loading it, the sampling parameters, the stop sequences and the prompt
  templates. Completions are the inputs `summarize` (summary prompts) and
  `quiz` (the quiz prompt).
- Summarizer.SummarizeArticle: the model is called with the article text
  itself, not with `SUMMARY_PROMPT.format(...)`. The template is a fixed
  text outside the model.
- Quiz.GenerateQuiz: the model is called with the digest itself, not with
  `QUIZ_PROMPT.format(...)`, for the same reason.
- `load_processed_urls` and `save_processed_urls` read and write a JSON
  file. The loaded set is a parameter, and the set to save is a result.
- `print` logging, the `skipped_count` counter, `sleep(0.2)` throttling
  and `datetime.now()` are output and timing. They hold no state the
  pipeline reads.
- `create_html_email` beyond the summary-line split is HTML and CSS
  templating, so it is left out. So are `send_email` in both scripts
  (SMTP delivery) and rsstester.py.
- SummaryLines.SummaryLinesOf: the splitter runs only when
  `article.get('summary')` is truthy. The model applies it to a summary
  string. The empty string gives no lines, as the guard would.
- Collector.Visit: a feed entry with a link is assumed to have a title.
  Reading a missing `entry.title` raises inside the per-article `try` of
  both scripts, which makes it behave like a failed fetch. The model does
  not capture that case.
- Collector.CollectArticles: the in-place updates are modelled on values.
  These are `processed_urls.add` and `new_articles.append`. The processed
  set and the record list are loop variables rather than shared mutable
  objects. No other code holds them during a pass.
- Quiz.ParseLines: the `current_q` dictionary, which the loop updates in
  place, is modelled as a value `Option<Question>`. `if current_q:` tests
  whether a question is open, because the dictionary is empty only before
  the first question line.
- Grouping.GroupByRegion: the dictionary of lists is modelled as a
  sequence of groups in insertion order, which is the order Python
  dictionaries keep. The appends into its lists are modelled by replacing
  a group.
- The ordering lemmas assume the regions of the `FEEDS` configuration have
  distinct names, and Collector.RunSourcesInOrder that the feeds of a region
  do. Python dictionary keys always do. This covers
  Collector.RunRegionsInOrder, Collector.RecordsInRegionOrder,
  Collector.RunSourcesInOrder and Pipeline.RecordsContiguous.
- The quiz example with four options and answer `B` is covered only by
  Quiz.ReadsWellFormedQuestion, which proves the shape for every header,
  option list and answer text. A proof over the literal reply string is
  not part of this model.
- Python's string functions are modelled on `seq<char>`. `strip()` and
  `split()` use the characters for which `str.isspace()` holds. Case
  folding and encodings play no part in the scripts' logic.
