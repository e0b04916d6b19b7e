/** The input checks of the memory-bank tools. Each answers `None` when the
    input is acceptable and otherwise the message of the first check it fails.
    Inputs are arbitrary Python values, because the checks test their types. */
module VertexValidators {
  import opened Wrappers
  import opened PyStr
  import opened PyValues

  const ScopeNotDict := "Scope must be a dictionary"
  const ScopeEmpty := "Scope cannot be empty"
  const ScopeNotStrings := "Scope keys and values must be strings"
  const ConversationNotList := "Conversation must be a list"
  const ConversationEmpty := "Conversation cannot be empty"
  const FactNotString := "Fact must be a string"
  const FactEmpty := "Fact cannot be empty"
  const FactTooLong := "Fact exceeds 10k character limit"
  const TopicsNotIterable := "memory_topics must be an iterable of strings"
  const TopicsBadEntry := "memory_topics entries must be non-empty strings"
  const TopKNotPositive := "top_k must be positive"
  const TopKTooLarge := "top_k cannot exceed 100"

  /** The longest fact accepted, in characters. */
  const MaxFactLength := 10000
  const MaxTopK := 100

  /** `_VALID_ROLES`. */
  const ValidRoles: set<PyValue> := {PyStr("user"), PyStr("assistant"), PyStr("system")}

  // ---------------------------------------------------------------------------
  // validate_scope

  predicate StringPairs(entries: seq<(PyValue, PyValue)>) {
    forall i :: 0 <= i < |entries| ==> entries[i].0.PyStr? && entries[i].1.PyStr?
  }

  /** `validate_scope`. */
  function ValidateScope(scope: PyValue): (r: Option<string>)
    ensures r.None? <==> scope.PyDict? && scope.entries != [] && StringPairs(scope.entries)
  {
    if !scope.PyDict? then Some(ScopeNotDict)
    else if scope.entries == [] then Some(ScopeEmpty)
    else if !StringPairs(scope.entries) then Some(ScopeNotStrings)
    else None
  }

  /** The three rejections, in the order they are checked. */
  lemma ValidateScopeMessages(scope: PyValue)
    ensures !scope.PyDict? ==> ValidateScope(scope) == Some(ScopeNotDict)
    ensures scope == PyDict([]) ==> ValidateScope(scope) == Some(ScopeEmpty)
    ensures scope.PyDict? && scope.entries != [] && !StringPairs(scope.entries) ==>
              ValidateScope(scope) == Some(ScopeNotStrings)
  {
  }

  // ---------------------------------------------------------------------------
  // validate_conversation

  function TurnMessage(index: nat, problem: string): string {
    "Turn " + NatToString(index) + " " + problem
  }

  /** The check of turn number `index`. A role that is a list or a dict cannot
      be looked up in the role set, and the check raises (`Failure`). */
  function CheckTurn(turn: PyValue, index: nat): (r: Result<Option<string>, string>)
    ensures r.Success? && r.value.Some? ==>
              r.value.value in {TurnMessage(index, "must be a dictionary"), TurnMessage(index, "has invalid role"),
                                TurnMessage(index, "must include non-empty content")}
  {
    if !turn.PyDict? then Success(Some(TurnMessage(index, "must be a dictionary")))
    else
      var role := DictGet(turn.entries, PyStr("role"));
      if !Hashable(role) then Failure("TypeError: unhashable type")
      else if role !in ValidRoles then Success(Some(TurnMessage(index, "has invalid role")))
      else
        var content := DictGet(turn.entries, PyStr("content"));
        if !Truthy(content) || !content.PyStr? then Success(Some(TurnMessage(index, "must include non-empty content")))
        else Success(None)
  }

  /** A turn that passes: a dict with a valid role and non-empty string content. */
  predicate GoodTurn(turn: PyValue) {
    && turn.PyDict?
    && DictGet(turn.entries, PyStr("role")) in ValidRoles
    && DictGet(turn.entries, PyStr("content")).PyStr?
    && DictGet(turn.entries, PyStr("content")).s != []
  }

  /** The loop over the turns from `index` on, stopping at the first problem. */
  function CheckTurnsFrom(turns: seq<PyValue>, index: nat): Result<Option<string>, string>
    requires index <= |turns|
    decreases |turns| - index
  {
    if index == |turns| then Success(None)
    else
      var c := CheckTurn(turns[index], index);
      if c != Success(None) then c else CheckTurnsFrom(turns, index + 1)
  }

  /** `validate_conversation`; `Failure` when it raises. */
  function ValidateConversation(conversation: PyValue): Result<Option<string>, string> {
    if !conversation.PyList? then Success(Some(ConversationNotList))
    else if conversation.items == [] then Success(Some(ConversationEmpty))
    else CheckTurnsFrom(conversation.items, 0)
  }

  lemma CheckTurnGood(turn: PyValue, index: nat)
    ensures CheckTurn(turn, index) == Success(None) <==> GoodTurn(turn)
  {
  }

  lemma {:induction false} CheckTurnsFromAllGood(turns: seq<PyValue>, index: nat)
    requires index <= |turns|
    ensures CheckTurnsFrom(turns, index) == Success(None) <==>
              forall j :: index <= j < |turns| ==> GoodTurn(turns[j])
    decreases |turns| - index
  {
    if index < |turns| {
      CheckTurnGood(turns[index], index);
      CheckTurnsFromAllGood(turns, index + 1);
    }
  }

  /** A conversation passes exactly when it is a non-empty list of good turns. */
  lemma ValidateConversationAccepts(conversation: PyValue)
    ensures ValidateConversation(conversation) == Success(None) <==>
              conversation.PyList? && conversation.items != [] &&
              forall j :: 0 <= j < |conversation.items| ==> GoodTurn(conversation.items[j])
  {
    if conversation.PyList? && conversation.items != [] {
      CheckTurnsFromAllGood(conversation.items, 0);
    }
  }

  lemma {:induction false} CheckTurnsFromFirst(turns: seq<PyValue>, index: nat, i: nat)
    requires index <= i < |turns|
    requires forall j :: index <= j < i ==> GoodTurn(turns[j])
    requires !GoodTurn(turns[i])
    ensures CheckTurnsFrom(turns, index) == CheckTurn(turns[i], i)
    decreases i - index
  {
    CheckTurnGood(turns[index], index);
    if index < i {
      CheckTurnsFromFirst(turns, index + 1, i);
    }
  }

  /** The answer is that of the first turn that fails (a message naming its
      index, by `CheckTurn`'s contract), never an acceptance. */
  lemma ValidateConversationFirstBad(turns: seq<PyValue>, i: nat)
    requires i < |turns|
    requires forall j :: 0 <= j < i ==> GoodTurn(turns[j])
    requires !GoodTurn(turns[i])
    ensures ValidateConversation(PyList(turns)) == CheckTurn(turns[i], i)
    ensures ValidateConversation(PyList(turns)) != Success(None)
  {
    CheckTurnsFromFirst(turns, 0, i);
    CheckTurnGood(turns[i], i);
  }

  // ---------------------------------------------------------------------------
  // validate_memory_fact, validate_memory_topics, validate_top_k

  /** `validate_memory_fact`. */
  function ValidateMemoryFact(fact: PyValue): Option<string> {
    if !fact.PyStr? then Some(FactNotString)
    else if Strip(fact.s) == [] then Some(FactEmpty)
    else if |fact.s| > MaxFactLength then Some(FactTooLong)
    else None
  }

  /** A fact passes exactly when it is a string, not all whitespace, of at most
      10 000 characters; whitespace is checked before length. */
  lemma ValidateMemoryFactCorrect(fact: PyValue)
    ensures ValidateMemoryFact(fact).None? <==>
              fact.PyStr? && (exists i :: 0 <= i < |fact.s| && !IsSpace(fact.s[i])) && |fact.s| <= MaxFactLength
    ensures fact.PyStr? && (forall i :: 0 <= i < |fact.s| ==> IsSpace(fact.s[i])) ==>
              ValidateMemoryFact(fact) == Some(FactEmpty)
  {
    if fact.PyStr? {
      StripEmptyIffBlank(fact.s);
    }
  }

  lemma RepeatChar(c: char, n: nat, i: nat)
    requires i < n
    ensures i < |Repeat([c], n)| && Repeat([c], n)[i] == c
  {
    if i > 0 {
      RepeatChar(c, n - 1, i - 1);
    }
  }

  /** A fact of exactly 10 000 characters passes and one of 10 001 does not. */
  lemma FactLengthBoundary()
    ensures ValidateMemoryFact(PyStr(Repeat("x", MaxFactLength))) == None
    ensures ValidateMemoryFact(PyStr(Repeat("x", MaxFactLength + 1))) == Some(FactTooLong)
    ensures ValidateMemoryFact(PyStr("")) == Some(FactEmpty)
  {
    RepeatChar('x', MaxFactLength, 0);
    RepeatChar('x', MaxFactLength + 1, 0);
    assert !IsSpace('x');
    ValidateMemoryFactCorrect(PyStr(Repeat("x", MaxFactLength)));
    StripEmptyIffBlank(Repeat("x", MaxFactLength + 1));
  }

  /** What `for topic in topics` goes through: a list's items, a dict's keys,
      or a string's characters; `None` when the value is not iterable. */
  function Iterate(v: PyValue): Option<seq<PyValue>> {
    match v
    case PyList(items) => Some(items)
    case PyDict(entries) => Some(seq(|entries|, i requires 0 <= i < |entries| => entries[i].0))
    case PyStr(s) => Some(seq(|s|, i requires 0 <= i < |s| => PyStr([s[i]])))
    case _ => None
  }

  /** `validate_memory_topics`. */
  function ValidateMemoryTopics(topics: PyValue): Option<string> {
    if topics.PyNone? then None
    else match Iterate(topics)
      case None => Some(TopicsNotIterable)
      case Some(entries) =>
        if exists i :: 0 <= i < |entries| && !(entries[i].PyStr? && entries[i].s != []) then Some(TopicsBadEntry)
        else None
  }

  /** `None` passes, as does any iterable of non-empty strings; an empty or
      non-string entry is reported. */
  lemma ValidateMemoryTopicsCorrect(topics: PyValue)
    ensures topics.PyNone? ==> ValidateMemoryTopics(topics) == None
    ensures topics.PyList? ==>
              (ValidateMemoryTopics(topics) == None <==>
                 forall i :: 0 <= i < |topics.items| ==> topics.items[i].PyStr? && topics.items[i].s != [])
    ensures topics.PyList? && PyStr("") in topics.items ==> ValidateMemoryTopics(topics) == Some(TopicsBadEntry)
    ensures topics.PyInt? || topics.PyBool? || topics.PyObject? ==> ValidateMemoryTopics(topics) == Some(TopicsNotIterable)
  {
  }

  /** `validate_top_k`. */
  function ValidateTopK(value: int): (r: Option<string>)
    ensures r.None? <==> 1 <= value <= MaxTopK
  {
    if value <= 0 then Some(TopKNotPositive)
    else if value > MaxTopK then Some(TopKTooLarge)
    else None
  }

  /** The scopes written down with the validators. */
  lemma ValidateScopeExamples()
    ensures ValidateScope(PyDict([(PyStr("user_id"), PyStr("abc"))])) == None
    ensures ValidateScope(PyList([])) == Some(ScopeNotDict)
  {
    assert StringPairs([(PyStr("user_id"), PyStr("abc"))]);
  }

  /** A two-turn conversation passes. */
  lemma ValidateConversationAcceptsExample()
    ensures ValidateConversation(PyList([
              PyDict([(PyStr("role"), PyStr("user")), (PyStr("content"), PyStr("hi"))]),
              PyDict([(PyStr("role"), PyStr("assistant")), (PyStr("content"), PyStr("hey"))])])) == Success(None)
  {
    var turns := [
      PyDict([(PyStr("role"), PyStr("user")), (PyStr("content"), PyStr("hi"))]),
      PyDict([(PyStr("role"), PyStr("assistant")), (PyStr("content"), PyStr("hey"))])];
    assert GoodTurn(turns[0]) && GoodTurn(turns[1]);
    ValidateConversationAccepts(PyList(turns));
  }

  /** A turn with an unknown role is reported by its index. */
  lemma ValidateConversationRoleExample()
    ensures ValidateConversation(PyList([PyDict([(PyStr("role"), PyStr("foo")), (PyStr("content"), PyStr("bad"))])]))
              == Success(Some("Turn 0 has invalid role"))
  {
    var bad := PyDict([(PyStr("role"), PyStr("foo")), (PyStr("content"), PyStr("bad"))]);
    assert DictGet(bad.entries, PyStr("role")) == PyStr("foo");
    assert PyStr("foo") !in ValidRoles;
    assert TurnMessage(0, "has invalid role") == "Turn 0 has invalid role" by {
      assert NatToString(0) == "0";
    }
  }

  /** The facts, topics and sizes written down with the validators. */
  lemma ValidateValueExamples()
    ensures ValidateMemoryFact(PyStr("ok")) == None
    ensures ValidateMemoryTopics(PyList([PyStr("USER_PREFERENCES")])) == None
    ensures ValidateMemoryTopics(PyList([PyStr("")])) == Some(TopicsBadEntry)
    ensures ValidateTopK(5) == None && ValidateTopK(0) == Some(TopKNotPositive)
  {
    assert ValidateMemoryFact(PyStr("ok")) == None by {
      assert !IsSpace("ok"[0]);
      ValidateMemoryFactCorrect(PyStr("ok"));
    }
    var topics := [PyStr("")];
    assert Iterate(PyList(topics)) == Some(topics);
    assert !(topics[0].PyStr? && topics[0].s != []);
  }
}
