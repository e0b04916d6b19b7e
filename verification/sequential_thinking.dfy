/** The sequential-thinking server: it validates each thought, keeps the
    history of accepted thoughts and the thoughts of each branch, answers with
    a summary of its state, and lays out a box around the thought for its log. */
module SequentialThinking {
  import opened Wrappers
  import opened PyStr

  /** `ThoughtData`; Go's `int` fields are unbounded here. */
  datatype ThoughtData = ThoughtData(
    thought: string,
    nextThoughtNeeded: bool,
    thoughtNumber: int,
    totalThoughts: int,
    isRevision: bool,
    revisesThought: int,
    branchFromThought: int,
    branchId: string,
    needsMoreThoughts: bool)

  // ---------------------------------------------------------------------------
  // validateThoughtData

  const InvalidThought := "invalid thought: must be a string"
  const InvalidThoughtNumber := "invalid thoughtNumber: must be a number > 0"
  const InvalidTotalThoughts := "invalid totalThoughts: must be a number > 0"

  /** `validateThoughtData`: the first failing check, in this order. */
  function ValidateThoughtData(input: ThoughtData): Option<string> {
    if input.thought == "" then Some(InvalidThought)
    else if input.thoughtNumber <= 0 then Some(InvalidThoughtNumber)
    else if input.totalThoughts <= 0 then Some(InvalidTotalThoughts)
    else None
  }

  /** Exactly the thoughts with a text and positive numbers pass, and each
      failure names the first check that fails. */
  lemma ValidateThoughtDataCorrect(input: ThoughtData)
    ensures ValidateThoughtData(input).None? <==>
              input.thought != "" && input.thoughtNumber > 0 && input.totalThoughts > 0
    ensures ValidateThoughtData(input) == Some(InvalidThought) <==> input.thought == ""
    ensures ValidateThoughtData(input) == Some(InvalidThoughtNumber) <==>
              input.thought != "" && input.thoughtNumber <= 0
    ensures ValidateThoughtData(input) == Some(InvalidTotalThoughts) <==>
              input.thought != "" && input.thoughtNumber > 0 && input.totalThoughts <= 0
  {
  }

  /** The accepted thought as stored: the total raised to the thought's number
      when it is smaller. */
  function Adjusted(input: ThoughtData): (r: ThoughtData)
    ensures r.totalThoughts >= r.thoughtNumber
    ensures r.totalThoughts == if input.thoughtNumber > input.totalThoughts then input.thoughtNumber else input.totalThoughts
    ensures r == input.(totalThoughts := r.totalThoughts)
  {
    if input.thoughtNumber > input.totalThoughts then input.(totalThoughts := input.thoughtNumber) else input
  }

  /** A thought the history may hold: valid, with its total at least its number. */
  predicate Accepted(t: ThoughtData) {
    t.thought != "" && t.thoughtNumber > 0 && t.totalThoughts >= t.thoughtNumber
  }

  lemma AdjustedAccepted(input: ThoughtData)
    requires ValidateThoughtData(input).None?
    ensures Accepted(Adjusted(input))
    ensures Adjusted(input).totalThoughts >= input.totalThoughts
  {
  }

  // ---------------------------------------------------------------------------
  // Branches

  /** A thought opens or continues a branch when it branches from a negative
      thought number and has a branch id. The comparison is as written in
      the server: a thought branching from a positive number is not recorded. */
  predicate RecordsBranch(t: ThoughtData) {
    t.branchFromThought < 0 && t.branchId != ""
  }

  /** The branches after accepting `t`: its branch gets `t` at the end. */
  function RecordBranch(branches: map<string, seq<ThoughtData>>, t: ThoughtData): (r: map<string, seq<ThoughtData>>)
    ensures RecordsBranch(t) ==> r.Keys == branches.Keys + {t.branchId}
    ensures !RecordsBranch(t) ==> r == branches
    ensures forall k :: k in branches && k != t.branchId ==> k in r && r[k] == branches[k]
  {
    if RecordsBranch(t) then
      branches[t.branchId := (if t.branchId in branches then branches[t.branchId] else []) + [t]]
    else branches
  }

  /** A thought that branches from a positive thought number never changes
      the branches. */
  lemma PositiveBranchPointIgnored(branches: map<string, seq<ThoughtData>>, t: ThoughtData)
    requires t.branchFromThought > 0
    ensures RecordBranch(branches, t) == branches
  {
  }

  /** The branch of a recorded thought ends with it, after what it held before. */
  lemma RecordBranchAppends(branches: map<string, seq<ThoughtData>>, t: ThoughtData)
    requires RecordsBranch(t)
    ensures var r := RecordBranch(branches, t);
            && t.branchId in r
            && r[t.branchId] == (if t.branchId in branches then branches[t.branchId] else []) + [t]
            && |r[t.branchId]| >= 1 && r[t.branchId][|r[t.branchId]| - 1] == t
  {
  }

  // ---------------------------------------------------------------------------
  // Sorted branch keys

  predicate StrictlySorted(ks: seq<string>) {
    forall i, j :: 0 <= i < j < |ks| ==> StrLe(ks[i], ks[j]) && ks[i] != ks[j]
  }

  /** A non-empty set of strings has a least element. */
  lemma {:induction false} LeastExists(s: set<string>)
    requires s != {}
    ensures exists m :: m in s && forall x :: x in s ==> StrLe(m, x)
    decreases |s|
  {
    var y :| y in s;
    var rest := s - {y};
    if rest == {} {
      assert s == {y};
      StrLeRefl(y);
      assert y in s;
    } else {
      LeastExists(rest);
      var m :| m in rest && forall x :: x in rest ==> StrLe(m, x);
      StrLeTotal(m, y);
      if StrLe(m, y) {
        forall x | x in s ensures StrLe(m, x) {
          if x != y {
            assert x in rest;
          }
        }
        assert m in s;
      } else {
        forall x | x in s ensures StrLe(y, x) {
          if x == y {
            StrLeRefl(y);
          } else {
            assert x in rest;
            StrLeTrans(y, m, x);
          }
        }
        assert y in s;
      }
    }
  }

  /** `slices.Sorted(maps.Keys(branches))`: the keys, each once, in ascending order. */
  method SortedKeys(branches: map<string, seq<ThoughtData>>) returns (ks: seq<string>)
    ensures StrictlySorted(ks)
    ensures forall k :: k in ks <==> k in branches
  {
    ks := [];
    var remaining := branches.Keys;
    while remaining != {}
      invariant remaining <= branches.Keys
      invariant forall k :: k in branches ==> (k in ks <==> k !in remaining)
      invariant forall k :: k in ks ==> k in branches
      invariant StrictlySorted(ks)
      invariant forall a, b :: a in ks && b in remaining ==> StrLe(a, b)
      decreases |remaining|
    {
      LeastExists(remaining);
      var m :| m in remaining && forall x :: x in remaining ==> StrLe(m, x);
      ks := ks + [m];
      remaining := remaining - {m};
    }
  }

  // ---------------------------------------------------------------------------
  // formatThought

  /** Bytes of one character in UTF-8: Go's `len` counts these. */
  function Utf8Bytes(c: char): nat {
    if c as int < 0x80 then 1
    else if c as int < 0x800 then 2
    else if c as int < 0x10000 then 3
    else 4
  }

  /** `len(s)` in Go: the UTF-8 length of the string. */
  function Utf8Len(s: string): (n: nat)
    ensures n >= |s|
    decreases |s|
  {
    if s == [] then 0 else Utf8Bytes(s[0]) + Utf8Len(s[1..])
  }

  const RevisionPrefix := "\U{1F504} Revision"
  const BranchPrefix := "\U{1F33F} Branch"
  const ThoughtPrefix := "\U{1F4AD} Thought"

  /** The label of a thought: a revision first, then a branch, then a plain thought. */
  function Prefix(t: ThoughtData): string {
    if t.isRevision then RevisionPrefix
    else if t.branchFromThought < 0 then BranchPrefix
    else ThoughtPrefix
  }

  /** The text after the numbers: the revised thought (only for a negative
      number, as written) or the branch point and id. */
  function Context(t: ThoughtData): string {
    if t.isRevision then
      (if t.revisesThought < 0 then " (revising thought " + IntToString(t.revisesThought) + ")" else "")
    else if t.branchFromThought < 0 then
      " (from thought " + IntToString(t.branchFromThought) + ", ID: " + t.branchId + ")"
    else ""
  }

  /** `headerContent`: the label, "n/total" and the context. */
  function HeaderContent(t: ThoughtData): string {
    Prefix(t) + " " + IntToString(t.thoughtNumber) + "/" + IntToString(t.totalThoughts) + Context(t)
  }

  /** The colour codes, kept as the literal backslash sequences the raw string
      literals of the server hold. */
  const Yellow := "\\033[33m"
  const Green := "\\033[32m"
  const Blue := "\\033[34m"
  const Reset := "\\033[0m"

  function ColoredPrefix(t: ThoughtData): string {
    (if t.isRevision then Yellow else if t.branchFromThought < 0 then Green else Blue) + Prefix(t) + Reset
  }

  /** `strings.Replace(s, old, new, 1)`: the first occurrence replaced. */
  function ReplaceFirst(s: string, pat: string, rep: string): string
    requires pat != []
    decreases |s|
  {
    if StartsWith(s, pat) then rep + s[|pat|..]
    else if s == [] then []
    else [s[0]] + ReplaceFirst(s[1..], pat, rep)
  }

  /** `borderLen`: four more than the longer of the header and the thought. */
  function BorderLen(t: ThoughtData): int {
    var h := Utf8Len(HeaderContent(t));
    var n := Utf8Len(t.thought);
    (if h > n then h else n) + 4
  }

  /** `formatThought`: a box of `borderLen` rules around the coloured header
      and the thought, each padded to the same width. */
  function FormatThought(t: ThoughtData): string {
    var header := HeaderContent(t);
    var borderLen := BorderLen(t);
    var border := Repeat("─", borderLen);
    "\n┌" + border + "┐\n"
    + "│ " + ReplaceFirst(header, Prefix(t), ColoredPrefix(t)) + Repeat(" ", borderLen - Utf8Len(header) - 2) + " │\n"
    + "├" + border + "┤\n"
    + "│ " + t.thought + Repeat(" ", borderLen - Utf8Len(t.thought) - 2) + " │\n"
    + "└" + border + "┘"
  }

  /** Both paddings are at least two spaces, so `strings.Repeat` never sees a
      negative count, and the header and thought rows are padded to the same
      number of bytes, two less than the border. */
  lemma FormatThoughtLayout(t: ThoughtData)
    ensures var h := Utf8Len(HeaderContent(t));
            var n := Utf8Len(t.thought);
            && BorderLen(t) - h - 2 >= 2
            && BorderLen(t) - n - 2 >= 2
            && h + (BorderLen(t) - h - 2) == n + (BorderLen(t) - n - 2) == BorderLen(t) - 2
            && (BorderLen(t) == h + 4 || BorderLen(t) == n + 4)
  {
  }

  /** The coloured header is the coloured label followed by the rest of the
      plain header, and a revision is labelled as one even when it branches. */
  lemma ColoredHeader(t: ThoughtData)
    ensures ReplaceFirst(HeaderContent(t), Prefix(t), ColoredPrefix(t)) ==
              ColoredPrefix(t) + HeaderContent(t)[|Prefix(t)|..]
    ensures t.isRevision ==> Prefix(t) == RevisionPrefix && StartsWith(ColoredPrefix(t), Yellow)
  {
    var h := HeaderContent(t);
    assert h[..|Prefix(t)|] == Prefix(t);
    assert ColoredPrefix(t)[..|Yellow|] == (if t.isRevision then Yellow else if t.branchFromThought < 0 then Green else Blue);
  }

  // ---------------------------------------------------------------------------
  // The server

  /** The answer to an accepted thought. */
  datatype Response = Response(
    thoughtNumber: int,
    totalThoughts: int,
    nextThoughtNeeded: bool,
    branches: seq<string>,
    thoughtHistoryLength: nat)

  /** `strconv.ParseBool` accepting the value as true. */
  predicate ParsesTrue(value: string) {
    value in {"1", "t", "T", "TRUE", "true", "True"}
  }

  /** Every stored thought is accepted; every branch is not empty and holds
      thoughts of the history that record that branch. */
  ghost predicate ValidState(history: seq<ThoughtData>, branches: map<string, seq<ThoughtData>>) {
    && (forall i :: 0 <= i < |history| ==> Accepted(history[i]))
    && (forall k :: k in branches ==> branches[k] != [])
    && (forall k, t :: k in branches && t in branches[k] ==> RecordsBranch(t) && t.branchId == k && t in history)
  }

  /** Accepting a thought keeps the state valid. */
  lemma AcceptKeepsValid(history: seq<ThoughtData>, branches: map<string, seq<ThoughtData>>, t: ThoughtData)
    requires ValidState(history, branches) && Accepted(t)
    ensures ValidState(history + [t], RecordBranch(branches, t))
  {
    var b := RecordBranch(branches, t);
    forall k, u | k in b && u in b[k] ensures RecordsBranch(u) && u.branchId == k && u in history + [t] {
      if RecordsBranch(t) && k == t.branchId {
        var before := if k in branches then branches[k] else [];
        assert b[k] == before + [t];
        if u in before {
          assert k in branches;
        }
      } else {
        assert k in branches && b[k] == branches[k];
      }
    }
  }

  /** `SequentialThinkingServer`. */
  class Server {
    var thoughtHistory: seq<ThoughtData>
    var branches: map<string, seq<ThoughtData>>
    const disableThoughtLogging: bool

    /** Every stored thought is accepted; every branch is not empty and holds
        thoughts of the history that record that branch. */
    ghost predicate Valid()
      reads this
    {
      ValidState(thoughtHistory, branches)
    }

    /** `NewSequentialThinkingServer`, given the value of `DISABLE_THOUGHT_LOGGING`. */
    constructor (disableLoggingEnv: string)
      ensures Valid()
      ensures thoughtHistory == [] && branches == map[]
      ensures disableThoughtLogging == ParsesTrue(disableLoggingEnv)
    {
      thoughtHistory := [];
      branches := map[];
      disableThoughtLogging := ParsesTrue(disableLoggingEnv);
    }

    /** The state update of `ProcessThought`: the thought goes to the end of
        the history and, when it opens or continues a branch, of that branch. */
    method Store(t: ThoughtData)
      requires Valid() && Accepted(t)
      modifies this`thoughtHistory, this`branches
      ensures Valid()
      ensures thoughtHistory == old(thoughtHistory) + [t]
      ensures branches == RecordBranch(old(branches), t)
    {
      AcceptKeepsValid(thoughtHistory, branches, t);
      thoughtHistory := thoughtHistory + [t];
      if t.branchFromThought < 0 && t.branchId != "" {
        var id := t.branchId;
        if id !in branches {
          branches := branches[id := []];
        }
        branches := branches[id := branches[id] + [t]];
      }
    }

    /** `ProcessThought`: an invalid thought is refused and changes nothing;
        a valid one is stored with its total raised, recorded in its branch
        when it opens or continues one, logged unless logging is off, and
        answered with the state's summary. */
    method ProcessThought(input: ThoughtData) returns (r: Result<Response, string>, log: Option<string>)
      requires Valid()
      modifies this
      ensures Valid()
      ensures ValidateThoughtData(input).Some? ==>
                && r == Failure(ValidateThoughtData(input).value) && log == None
                && thoughtHistory == old(thoughtHistory) && branches == old(branches)
      ensures ValidateThoughtData(input).None? ==>
                var t := Adjusted(input);
                && thoughtHistory == old(thoughtHistory) + [t]
                && branches == RecordBranch(old(branches), t)
                && log == (if disableThoughtLogging then None else Some(FormatThought(t)))
                && r.Success?
                && r.value.thoughtNumber == t.thoughtNumber
                && r.value.totalThoughts == t.totalThoughts >= t.thoughtNumber
                && r.value.nextThoughtNeeded == input.nextThoughtNeeded
                && r.value.thoughtHistoryLength == |old(thoughtHistory)| + 1
                && StrictlySorted(r.value.branches)
                && (forall k :: k in r.value.branches <==> k in branches)
    {
      var err := ValidateThoughtData(input);
      if err.Some? {
        return Failure(err.value), None;
      }
      var t := input;
      if t.thoughtNumber > t.totalThoughts {
        t := t.(totalThoughts := t.thoughtNumber);
      }
      Store(t);
      log := None;
      if !disableThoughtLogging {
        log := Some(FormatThought(t));
      }
      var keys := SortedKeys(branches);
      r := Success(Response(t.thoughtNumber, t.totalThoughts, t.nextThoughtNeeded, keys, |thoughtHistory|));
    }
  }
}
