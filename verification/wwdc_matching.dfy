/** Matching a query against one video: transcript lines (with a one-line window
    on each side) and code examples (first matching line of each example). The
    query passed in is already lower-cased by the caller. */
module WwdcMatching {
  import opened Wrappers
  import opened PyStr
  import opened PySeq
  import opened WwdcTypes

  datatype MatchKind = TranscriptKind | CodeKind

  /** One hit: `{"type": ..., "context": ..., "timestamp": ...}`. */
  datatype Match = Match(kind: MatchKind, context: string, timestamp: Option<string>)

  /** `any(q in t.lower() for t in ts)`. */
  predicate AnyContains(ts: seq<string>, q: string)
    decreases |ts|
  {
    ts != [] && (Contains(Lower(ts[0]), q) || AnyContains(ts[1..], q))
  }

  lemma {:induction false} AnyContainsIff(ts: seq<string>, q: string)
    ensures AnyContains(ts, q) <==> exists i :: 0 <= i < |ts| && Contains(Lower(ts[i]), q)
    decreases |ts|
  {
    if ts != [] {
      AnyContainsIff(ts[1..], q);
      if exists i :: 0 <= i < |ts| && Contains(Lower(ts[i]), q) {
        var i :| 0 <= i < |ts| && Contains(Lower(ts[i]), q);
        if i > 0 {
          assert ts[1..][i - 1] == ts[i];
        }
      }
      if AnyContains(ts[1..], q) {
        var j :| 0 <= j < |ts[1..]| && Contains(Lower(ts[1..][j]), q);
        assert ts[j + 1] == ts[1..][j];
      }
    }
  }

  // ---------------------------------------------------------------------------
  // Transcripts

  predicate LineMatches(line: string, q: string) {
    Contains(Lower(line), q)
  }

  /** The line test as a value: the transcript and code searches are stated
      for any line test and applied to this one. */
  function LineMatchesQuery(q: string): string -> bool {
    (line: string) => LineMatches(line, q)
  }

  /** `[ln.strip() for ln in lines if ln.strip()]`. */
  function NonBlankStripped(ls: seq<string>): (r: seq<string>)
    ensures |r| <= |ls|
    ensures forall k :: 0 <= k < |r| ==> r[k] != []
    decreases |ls|
  {
    if ls == [] then []
    else (if Strip(ls[0]) != [] then [Strip(ls[0])] else []) + NonBlankStripped(ls[1..])
  }

  /** The context of line `i`: the previous, the matching and the next line,
      stripped, blank ones dropped, joined by " ... "; the first line has no
      previous line and the last no next one. */
  function Context(lines: seq<string>, i: nat): string
    requires i < |lines|
  {
    var prev := if i > 0 then lines[i - 1] else "";
    var next := if i < |lines| - 1 then lines[i + 1] else "";
    Join(" ... ", NonBlankStripped([prev, lines[i], next]))
  }

  /** The indices, in order, of the lines among the first `n` that pass `p`. */
  function MatchingLines(lines: seq<string>, p: string -> bool, n: nat): (idx: seq<nat>)
    requires n <= |lines|
    ensures forall k :: 0 <= k < |idx| ==> idx[k] < n
    decreases n
  {
    if n == 0 then []
    else MatchingLines(lines, p, n - 1) + (if p(lines[n - 1]) then [n - 1] else [])
  }

  /** The matching lines are listed once each, in increasing order, and they are
      exactly the lines that pass the test. */
  lemma {:induction false} MatchingLinesExact(lines: seq<string>, p: string -> bool, n: nat)
    requires n <= |lines|
    ensures forall a, b :: 0 <= a < b < |MatchingLines(lines, p, n)| ==>
              MatchingLines(lines, p, n)[a] < MatchingLines(lines, p, n)[b]
    ensures forall i :: 0 <= i < n ==> (i in MatchingLines(lines, p, n) <==> p(lines[i]))
    decreases n
  {
    if n > 0 {
      MatchingLinesExact(lines, p, n - 1);
    }
  }

  /** The contexts of the given line indices, in the same order. */
  function ContextsAt(lines: seq<string>, idx: seq<nat>): (r: seq<string>)
    requires forall k :: 0 <= k < |idx| ==> idx[k] < |lines|
    ensures |r| == |idx|
    decreases |idx|
  {
    if idx == [] then []
    else ContextsAt(lines, idx[..|idx| - 1]) + [Context(lines, idx[|idx| - 1])]
  }

  /** The k-th context is the context of the k-th index. */
  lemma {:induction false} ContextsAtIndex(lines: seq<string>, idx: seq<nat>, k: nat)
    requires forall j :: 0 <= j < |idx| ==> idx[j] < |lines|
    requires k < |idx|
    ensures ContextsAt(lines, idx)[k] == Context(lines, idx[k])
    decreases |idx|
  {
    if k < |idx| - 1 {
      ContextsAtIndex(lines, idx[..|idx| - 1], k);
    }
  }

  /** The contexts of the matching lines among the first `n`, in line order. */
  function TranscriptContexts(lines: seq<string>, p: string -> bool, n: nat): seq<string>
    requires n <= |lines|
  {
    ContextsAt(lines, MatchingLines(lines, p, n))
  }

  /** What `search_in_transcript` returns for a transcript text. */
  function TranscriptMatches(fullText: string, q: string): seq<string> {
    var lines := Split(fullText, '\n');
    TranscriptContexts(lines, LineMatchesQuery(q), |lines|)
  }

  /** One more line: its context is appended when it matches. */
  lemma TranscriptContextsStep(lines: seq<string>, p: string -> bool, n: nat)
    requires n < |lines|
    ensures TranscriptContexts(lines, p, n + 1)
         == TranscriptContexts(lines, p, n) + (if p(lines[n]) then [Context(lines, n)] else [])
  {
    var m := MatchingLines(lines, p, n);
    if p(lines[n]) {
      assert (m + [n])[..|m|] == m;
    } else {
      assert MatchingLines(lines, p, n + 1) == m;
    }
  }

  /** One pass of the transcript loop: line `i`, when it matches, adds its
      context (the stripped neighbouring lines joined by " ... "). */
  method AddLineContext(matches: seq<string>, lines: seq<string>, q: string, i: nat) returns (r: seq<string>)
    requires i < |lines|
    requires matches == TranscriptContexts(lines, LineMatchesQuery(q), i)
    ensures r == TranscriptContexts(lines, LineMatchesQuery(q), i + 1)
  {
    TranscriptContextsStep(lines, LineMatchesQuery(q), i);
    r := matches;
    if LineMatches(lines[i], q) {
      var prev := if i > 0 then lines[i - 1] else "";
      var next := if i < |lines| - 1 then lines[i + 1] else "";
      var context := Join(" ... ", NonBlankStripped([prev, lines[i], next]));
      r := r + [context];
    }
  }

  /** The loop of `search_in_transcript` over the lines of the transcript. */
  method CollectContexts(lines: seq<string>, q: string) returns (matches: seq<string>)
    ensures matches == TranscriptContexts(lines, LineMatchesQuery(q), |lines|)
  {
    matches := [];
    var i := 0;
    while i < |lines|
      invariant 0 <= i <= |lines|
      invariant matches == TranscriptContexts(lines, LineMatchesQuery(q), i)
    {
      matches := AddLineContext(matches, lines, q, i);
      i := i + 1;
    }
  }

  /** `search_in_transcript`: one context per matching line, in line order. */
  method SearchInTranscript(fullText: string, q: string) returns (matches: seq<string>)
    ensures matches == TranscriptMatches(fullText, q)
  {
    var lines := Split(fullText, '\n');
    matches := CollectContexts(lines, q);
  }

  lemma Join2(sep: string, a: string, b: string)
    ensures Join(sep, [a, b]) == a + sep + b
  {
    assert [a, b][1..] == [b];
  }

  lemma Join3(sep: string, a: string, b: string, c: string)
    ensures Join(sep, [a, b, c]) == a + sep + (b + sep + c)
  {
    assert [a, b, c][1..] == [b, c];
    Join2(sep, b, c);
  }

  /** What precedes the middle element of a join: the element before it and a separator. */
  function JoinedBefore(sep: string, a: seq<string>): string {
    if a == [] then "" else a[0] + sep
  }

  /** What follows the middle element of a join: a separator and the element after it. */
  function JoinedAfter(sep: string, b: seq<string>): string {
    if b == [] then "" else sep + b[0]
  }

  lemma JoinAfter(sep: string, x: string, y: string)
    ensures Join(sep, [] + [x] + [y]) == JoinedBefore(sep, []) + x + JoinedAfter(sep, [y])
  {
    assert [] + [x] + [y] == [x, y];
    Join2(sep, x, y);
  }

  lemma JoinBefore(sep: string, w: string, x: string)
    ensures Join(sep, [w] + [x] + []) == JoinedBefore(sep, [w]) + x + JoinedAfter(sep, [])
  {
    assert [w] + [x] + [] == [w, x];
    Join2(sep, w, x);
  }

  lemma JoinBetween(sep: string, w: string, x: string, y: string)
    ensures Join(sep, [w] + [x] + [y]) == JoinedBefore(sep, [w]) + x + JoinedAfter(sep, [y])
  {
    assert [w] + [x] + [y] == [w, x, y];
    Join3(sep, w, x, y);
  }

  /** Joining around a middle element: what precedes and follows it. */
  lemma JoinAround(sep: string, a: seq<string>, x: string, b: seq<string>)
    requires |a| <= 1 && |b| <= 1
    ensures Join(sep, a + [x] + b) == JoinedBefore(sep, a) + x + JoinedAfter(sep, b)
  {
    if a == [] && b == [] {
      assert a + [x] + b == [x];
    } else if a == [] {
      assert b == [b[0]];
      JoinAfter(sep, x, b[0]);
    } else if b == [] {
      assert a == [a[0]];
      JoinBefore(sep, a[0], x);
    } else {
      assert a == [a[0]] && b == [b[0]];
      JoinBetween(sep, a[0], x, b[0]);
    }
  }

  lemma NonBlankStrippedMiddle(prev: string, line: string, next: string)
    requires Strip(line) != []
    ensures NonBlankStripped([prev, line, next])
            == NonBlankStripped([prev]) + [Strip(line)] + NonBlankStripped([next])
  {
    assert [prev, line, next][1..] == [line, next];
    assert [line, next][1..] == [next];
    assert [prev][1..] == [];
    assert [next][1..] == [];
  }

  lemma OccursInMiddle(pre: string, x: string, post: string)
    ensures Contains(pre + x + post, x)
  {
    var c := pre + x + post;
    assert c[|pre|..|pre| + |x|] == x;
    assert OccursAt(c, x, |pre|);
    ContainsIffOccurs(c, x);
  }

  /** A non-blank matching line appears, stripped, inside its own context. */
  lemma ContextShowsLine(lines: seq<string>, i: nat)
    requires i < |lines| && Strip(lines[i]) != []
    ensures Contains(Context(lines, i), Strip(lines[i]))
  {
    var prev := if i > 0 then lines[i - 1] else "";
    var next := if i < |lines| - 1 then lines[i + 1] else "";
    var x := Strip(lines[i]);
    var a := NonBlankStripped([prev]);
    var b := NonBlankStripped([next]);
    NonBlankStrippedMiddle(prev, lines[i], next);
    JoinAround(" ... ", a, x, b);
    OccursInMiddle(JoinedBefore(" ... ", a), x, JoinedAfter(" ... ", b));
  }

  // ---------------------------------------------------------------------------
  // Code examples

  /** The language filter applies when a non-empty language is given. */
  predicate LanguageExcludes(language: Option<string>, exampleLanguage: string) {
    language.Some? && language.value != [] && Lower(exampleLanguage) != Lower(language.value)
  }

  /** `example.get('title', '')` in an f-string: the key is always present, and a
      `null` title prints as "None". */
  function TitleText(title: Option<string>): string {
    match title
    case Some(t) => t
    case None => "None"
  }

  /** The match `search_in_code` derives from one example, if any. */
  function CodeMatchOf(ex: CodeExample, q: string, language: Option<string>): (r: Option<Match>)
  {
    if LanguageExcludes(language, ex.language) then None
    else if !Contains(Lower(ex.code), q) then None
    else
      var matching := Filter(Split(ex.code, '\n'), LineMatchesQuery(q));
      if matching == [] then None
      else Some(Match(CodeKind, "[" + ex.language + "] " + TitleText(ex.title) + ": " + Strip(matching[0]),
                      ex.timestamp))
  }

  function CodeMatches(examples: seq<CodeExample>, q: string, language: Option<string>): (r: seq<Match>)
    decreases |examples|
  {
    if examples == [] then []
    else
      var init := examples[..|examples| - 1];
      var m := CodeMatchOf(examples[|examples| - 1], q, language);
      CodeMatches(init, q, language) + (if m.Some? then [m.value] else [])
  }

  lemma CodeMatchesStep(examples: seq<CodeExample>, i: nat, q: string, language: Option<string>)
    requires i < |examples|
    ensures var m := CodeMatchOf(examples[i], q, language);
            CodeMatches(examples[..i + 1], q, language)
            == CodeMatches(examples[..i], q, language) + (if m.Some? then [m.value] else [])
  {
    assert examples[..i + 1][..i] == examples[..i];
  }

  /** The body of `search_in_code`'s loop for one example. */
  method CodeMatchFor(example: CodeExample, q: string, language: Option<string>) returns (m: Option<Match>)
    ensures m == CodeMatchOf(example, q, language)
  {
    if language.Some? && language.value != [] && Lower(example.language) != Lower(language.value) {
      return None;
    }
    if !Contains(Lower(example.code), q) {
      return None;
    }
    var lines := Split(example.code, '\n');
    var matchingLines := Filter(lines, LineMatchesQuery(q));
    if matchingLines == [] {
      return None;
    }
    var context := "[" + example.language + "] " + TitleText(example.title) + ": " + Strip(matchingLines[0]);
    return Some(Match(CodeKind, context, example.timestamp));
  }

  /** `search_in_code`: at most one match per example, in example order. */
  method SearchInCode(examples: seq<CodeExample>, q: string, language: Option<string>) returns (matches: seq<Match>)
    ensures matches == CodeMatches(examples, q, language)
  {
    matches := [];
    var i := 0;
    while i < |examples|
      invariant 0 <= i <= |examples|
      invariant matches == CodeMatches(examples[..i], q, language)
    {
      var m := CodeMatchFor(examples[i], q, language);
      CodeMatchesStep(examples, i, q, language);
      if m.Some? {
        matches := matches + [m.value];
      } else {
        assert matches + [] == matches;
      }
      i := i + 1;
    }
    assert examples[..i] == examples;
  }

  /** A code match passes the language filter, comes from code containing the
      query, is labelled "[language] title: " and shows the first line of the
      code that contains the query, stripped. */
  lemma CodeMatchOfSound(ex: CodeExample, q: string, language: Option<string>)
    requires CodeMatchOf(ex, q, language).Some?
    ensures var m := CodeMatchOf(ex, q, language).value;
            var lines := Split(ex.code, '\n');
            && !LanguageExcludes(language, ex.language)
            && Contains(Lower(ex.code), q)
            && m.kind == CodeKind && m.timestamp == ex.timestamp
            && exists j :: 0 <= j < |lines| && LineMatches(lines[j], q)
                           && (forall j' :: 0 <= j' < j ==> !LineMatches(lines[j'], q))
                           && m.context == "[" + ex.language + "] " + TitleText(ex.title) + ": " + Strip(lines[j])
  {
    var lines := Split(ex.code, '\n');
    FilterFirst(lines, LineMatchesQuery(q));
  }

  /** Every code match is the match of one of the examples, and there are no
      more matches than examples. */
  lemma {:induction false} CodeMatchesSound(examples: seq<CodeExample>, q: string, language: Option<string>)
    ensures |CodeMatches(examples, q, language)| <= |examples|
    ensures forall m :: m in CodeMatches(examples, q, language) ==>
              exists e :: e in examples && CodeMatchOf(e, q, language) == Some(m)
    decreases |examples|
  {
    if examples != [] {
      var init := examples[..|examples| - 1];
      var last := examples[|examples| - 1];
      CodeMatchesSound(init, q, language);
      forall m | m in CodeMatches(examples, q, language)
        ensures exists e :: e in examples && CodeMatchOf(e, q, language) == Some(m)
      {
        if m in CodeMatches(init, q, language) {
          var e :| e in init && CodeMatchOf(e, q, language) == Some(m);
          assert e in examples;
        } else {
          assert last in examples;
        }
      }
    }
  }
}
