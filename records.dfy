/** The values that flow through both digest scripts (intl_main.py and
    main.py): article records, the outcome of a text-completion call, and
    which of the two scripts a pipeline run models. */
module Records {

  datatype Option<T> = None | Some(value: T)

  /** The two scripts share one pipeline and differ in their acceptance
      rule: `NewsDigest` is main.py, `IntlDigest` is intl_main.py. */
  datatype Digest = NewsDigest | IntlDigest

  /** One collected article, the dictionary built by `collect_articles`.
      `summary` is absent until the summarizing step of `main` sets it. */
  datatype Article = Article(
    region: string,
    source: string,
    title: string,
    url: string,
    text: string,
    summary: Option<string>)

  /** What the language model returned: the text of its first choice, or a
      failure (an exception from the call or from reading the response). */
  datatype Completion = CompletionError | Completed(text: string)
}
