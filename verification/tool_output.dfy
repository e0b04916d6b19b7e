/** What the tools of the servers hand back, and Python's truth test on an
    optional string argument. */
module ToolOutput {
  import opened Wrappers

  /** A tool's answer: one of its fixed texts (an error or an empty result),
      or the content of a markdown report. */
  datatype Output<R> = Text(text: string) | Report(report: R)

  /** An optional string argument that Python treats as true: given and non-empty. */
  predicate Truthy(s: Option<string>) {
    s.Some? && s.value != []
  }
}
