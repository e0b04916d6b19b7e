/** The payloads the memory-bank tools return: memories read off SDK objects,
    conversation events for the memory service, and the error and success
    envelopes. Responses are insertion-ordered dicts. */
module VertexFormatters {
  import opened Wrappers
  import opened PyValues
  import opened OrderedDict
  import VertexValidators

  // ---------------------------------------------------------------------------
  // format_memory

  /** The dict `format_memory` builds: `{"status": "empty"}`, or the five
      fields of a memory with both timestamps rendered by `str`. */
  datatype MemoryPayload =
    | EmptyMemory
    | MemoryRecord(name: PyValue, fact: PyValue, scope: PyValue, createdTime: string, updatedTime: string)

  /** `_safe_get`: the object's own attribute unless it is `None`, else the
      attribute of its `api_resource` (when that is not `None`). */
  function SafeGet(obj: PyValue, attr: string): (r: PyValue)
    ensures !GetAttrOr(obj, attr).PyNone? ==> r == GetAttrOr(obj, attr)
    ensures GetAttrOr(obj, attr).PyNone? && GetAttrOr(obj, "api_resource").PyNone? ==> r.PyNone?
  {
    var value := GetAttrOr(obj, attr);
    if !value.PyNone? then value
    else
      var api := GetAttrOr(obj, "api_resource");
      if !api.PyNone? then GetAttrOr(api, attr) else PyNone
  }

  /** The record read off the unwrapped memory object. */
  function RecordOf(obj: PyValue, objStr: PyValue -> string): MemoryPayload {
    MemoryRecord(
      SafeGet(obj, "name"), SafeGet(obj, "fact"), SafeGet(obj, "scope"),
      Str(SafeGet(obj, "created_time"), objStr), Str(SafeGet(obj, "updated_time"), objStr))
  }

  /** `format_memory`: `None` is the empty payload; anything else is read
      through its `memory` attribute when it has one. */
  function FormatMemory(memory: PyValue, objStr: PyValue -> string): (r: MemoryPayload)
    ensures r.EmptyMemory? <==> memory.PyNone?
  {
    if memory.PyNone? then EmptyMemory
    else RecordOf(GetAttr(memory, "memory").GetOr(memory), objStr)
  }

  /** A field the object carries itself is taken as it is; one it lacks (or
      holds as `None`) comes from `api_resource`. */
  lemma SafeGetFallback(obj: PyValue, attr: string, api: PyValue)
    requires GetAttrOr(obj, attr).PyNone?
    requires GetAttr(obj, "api_resource") == Some(api) && !api.PyNone?
    ensures SafeGet(obj, attr) == GetAttrOr(api, attr)
  {
  }

  /** A wrapper with a `memory` attribute is read through it, even when that
      attribute is `None`: the payload is then a record of `None`s, not the
      empty payload. */
  lemma FormatMemoryUnwraps(memory: PyValue, inner: PyValue, objStr: PyValue -> string)
    requires !memory.PyNone? && GetAttr(memory, "memory") == Some(inner)
    ensures FormatMemory(memory, objStr) == RecordOf(inner, objStr)
    ensures inner.PyNone? ==>
              FormatMemory(memory, objStr) == MemoryRecord(PyNone, PyNone, PyNone, "None", "None")
  {
  }

  /** An object with its own fields and no `memory` attribute gives them back. */
  lemma FormatMemoryOwnFields(memory: PyValue, objStr: PyValue -> string)
    requires memory.PyObject? && GetAttr(memory, "memory").None?
    ensures var r := FormatMemory(memory, objStr);
            && (!GetAttrOr(memory, "fact").PyNone? ==> r.fact == GetAttrOr(memory, "fact"))
            && (!GetAttrOr(memory, "scope").PyNone? ==> r.scope == GetAttrOr(memory, "scope"))
            && (!GetAttrOr(memory, "name").PyNone? ==> r.name == GetAttrOr(memory, "name"))
  {
  }

  /** The stub memory written down with the formatters. */
  lemma FormatMemoryStub(created: PyValue, updated: PyValue, objStr: PyValue -> string)
    ensures var scope := PyDict([(PyStr("user_id"), PyStr("abc"))]);
            var stub := PyObject([
              ("name", PyStr("projects/p/locations/l/memories/1")),
              ("fact", PyStr("User likes Python")),
              ("scope", scope),
              ("created_time", created),
              ("updated_time", updated)]);
            var r := FormatMemory(stub, objStr);
            r.fact == PyStr("User likes Python") && r.scope == scope
  {
    var scope := PyDict([(PyStr("user_id"), PyStr("abc"))]);
    var attrs := [
      ("name", PyStr("projects/p/locations/l/memories/1")),
      ("fact", PyStr("User likes Python")),
      ("scope", scope),
      ("created_time", created),
      ("updated_time", updated)];
    assert Lookup(attrs, "memory").None?;
    LookupFirst(attrs, "fact", 1);
    LookupFirst(attrs, "scope", 2);
    FormatMemoryOwnFields(PyObject(attrs), objStr);
  }

  // ---------------------------------------------------------------------------
  // format_conversation_events

  /** `{"content": {"role": role, "parts": [{"text": text}]}}`. */
  datatype Event = Event(role: PyValue, text: PyValue)

  /** `turn[key]`: a `KeyError` for a missing key, a `TypeError` for a value
      that is not a dict. */
  function Subscript(turn: PyValue, key: string): (r: Result<PyValue, string>)
    ensures r.Success? <==> turn.PyDict? && Lookup(turn.entries, PyStr(key)).Some?
  {
    if !turn.PyDict? then Failure("TypeError")
    else match Lookup(turn.entries, PyStr(key))
      case None => Failure("KeyError: '" + key + "'")
      case Some(v) => Success(v)
  }

  function EventOf(turn: PyValue): Result<Event, string> {
    match Subscript(turn, "role")
    case Failure(e) => Failure(e)
    case Success(role) =>
      match Subscript(turn, "content")
      case Failure(e) => Failure(e)
      case Success(text) => Success(Event(role, text))
  }

  /** `format_conversation_events`: the comprehension stops at the first turn
      it cannot read. */
  function FormatConversationEvents(conversation: seq<PyValue>): Result<seq<Event>, string> {
    if conversation == [] then Success([])
    else
      match EventOf(conversation[0])
      case Failure(e) => Failure(e)
      case Success(event) =>
        match FormatConversationEvents(conversation[1..])
        case Failure(e) => Failure(e)
        case Success(events) => Success([event] + events)
  }

  /** A turn the comprehension can read: a dict with a role and a content. */
  predicate Readable(turn: PyValue) {
    turn.PyDict? && Lookup(turn.entries, PyStr("role")).Some? && Lookup(turn.entries, PyStr("content")).Some?
  }

  /** The events succeed exactly when every turn is readable. */
  lemma {:induction false} FormatConversationEventsSucceeds(conversation: seq<PyValue>)
    ensures FormatConversationEvents(conversation).Success? <==>
              forall i :: 0 <= i < |conversation| ==> Readable(conversation[i])
  {
    if conversation != [] {
      FormatConversationEventsSucceeds(conversation[1..]);
      if !Readable(conversation[0]) {
      } else if exists i :: 1 <= i < |conversation| && !Readable(conversation[i]) {
        var i :| 1 <= i < |conversation| && !Readable(conversation[i]);
        assert !Readable(conversation[1..][i - 1]);
      } else {
        forall i | 0 <= i < |conversation[1..]| ensures Readable(conversation[1..][i]) {
          assert conversation[1..][i] == conversation[i + 1];
        }
      }
    }
  }

  /** When they succeed there is one event per turn, in order, carrying the
      turn's role and content. */
  lemma {:induction false} FormatConversationEventsContents(conversation: seq<PyValue>)
    requires FormatConversationEvents(conversation).Success?
    ensures var events := FormatConversationEvents(conversation).value;
            && |events| == |conversation|
            && forall i :: 0 <= i < |events| ==>
                 && conversation[i].PyDict?
                 && events[i] == Event(DictGet(conversation[i].entries, PyStr("role")),
                                       DictGet(conversation[i].entries, PyStr("content")))
  {
    if conversation != [] {
      var rest := FormatConversationEvents(conversation[1..]);
      FormatConversationEventsContents(conversation[1..]);
      var events := FormatConversationEvents(conversation).value;
      assert events == [events[0]] + rest.value;
      forall i | 1 <= i < |events|
        ensures conversation[i].PyDict? &&
                events[i] == Event(DictGet(conversation[i].entries, PyStr("role")),
                                   DictGet(conversation[i].entries, PyStr("content")))
      {
        assert events[i] == rest.value[i - 1] && conversation[1..][i - 1] == conversation[i];
      }
    }
  }

  /** A conversation that passes `validate_conversation` can always be turned
      into events, one per turn, each with the turn's role and content. */
  lemma ValidatedConversationFormats(conversation: seq<PyValue>)
    requires VertexValidators.ValidateConversation(PyList(conversation)) == Success(None)
    ensures FormatConversationEvents(conversation).Success?
    ensures var events := FormatConversationEvents(conversation).value;
            && |events| == |conversation|
            && forall i :: 0 <= i < |events| ==>
                 events[i].role in VertexValidators.ValidRoles && events[i].text.PyStr? && events[i].text.s != []
  {
    VertexValidators.ValidateConversationAccepts(PyList(conversation));
    forall i | 0 <= i < |conversation| ensures Readable(conversation[i]) {
      assert VertexValidators.GoodTurn(conversation[i]);
    }
    FormatConversationEventsSucceeds(conversation);
    FormatConversationEventsContents(conversation);
  }

  /** The transcript written down with the formatters. */
  lemma FormatConversationEventsExample()
    ensures var events := FormatConversationEvents([
              PyDict([(PyStr("role"), PyStr("user")), (PyStr("content"), PyStr("Hello"))]),
              PyDict([(PyStr("role"), PyStr("assistant")), (PyStr("content"), PyStr("Hi"))])]);
            events.Success? && events.value[0].role == PyStr("user") && events.value[1].text == PyStr("Hi")
  {
    var turns := [
      PyDict([(PyStr("role"), PyStr("user")), (PyStr("content"), PyStr("Hello"))]),
      PyDict([(PyStr("role"), PyStr("assistant")), (PyStr("content"), PyStr("Hi"))])];
    assert turns[1..] == [turns[1]];
    assert turns[1..][1..] == [];
  }

  // ---------------------------------------------------------------------------
  // format_error_response, format_success_response, serialize_memories

  /** `{"status": "error", "error": message}`. */
  function ErrorBase(message: string): (r: Dict<string, PyValue>)
    ensures r.Valid() && r.keys == ["status", "error"]
    ensures r.values == map["status" := PyStr("error"), "error" := PyStr(message)]
  {
    Empty().Set("status", PyStr("error")).Set("error", PyStr(message))
  }

  /** `format_error_response`. */
  function FormatErrorResponse(message: string, details: PyValue): (r: Dict<string, PyValue>)
    ensures r.Valid()
  {
    var response := ErrorBase(message);
    if Truthy(details) then response.Set("details", details) else response
  }

  /** The status and the message are always there, in that order; the details
      are added after them, and only when they are non-empty. */
  lemma FormatErrorResponseCorrect(message: string, details: PyValue)
    ensures var r := FormatErrorResponse(message, details);
            && r.Get("status") == Some(PyStr("error"))
            && r.Get("error") == Some(PyStr(message))
            && ("details" in r.values <==> Truthy(details))
            && ("details" in r.values ==> r.values["details"] == details)
            && r.keys == ["status", "error"] + (if Truthy(details) then ["details"] else [])
  {
    var base := ErrorBase(message);
    assert "details" !in base.values && "details" != "status" && "details" != "error";
  }

  /** `{"status": "success"}`, with the message when it is non-empty. */
  function SuccessBase(message: Option<string>): (r: Dict<string, PyValue>)
    ensures r.Valid() && r.keys != [] && r.keys[0] == "status"
    ensures forall k :: r.Get(k) ==
              if k == "status" then Some(PyStr("success"))
              else if k == "message" && message.Some? && message.value != [] then Some(PyStr(message.value))
              else None
  {
    var status := Empty().Set("status", PyStr("success"));
    assert "message" != "status";
    if message.Some? && message.value != [] then status.Set("message", PyStr(message.value)) else status
  }

  /** `format_success_response`: the status, then the message when it is
      non-empty, then the data merged in with `update`. */
  function FormatSuccessResponse(data: Option<Dict<string, PyValue>>, message: Option<string>): (r: Dict<string, PyValue>)
    requires data.Some? ==> data.value.Valid()
    ensures r.Valid()
  {
    var response := SuccessBase(message);
    if data.Some? && data.value.keys != [] then Update(response, data.value) else response
  }

  /** Every key of the data ends up with the data's value, overriding the
      status or the message; without such an override the status is
      "success" and the message is there exactly when it is non-empty. The
      status stays the first key. */
  lemma FormatSuccessResponseCorrect(data: Option<Dict<string, PyValue>>, message: Option<string>, k: string)
    requires data.Some? ==> data.value.Valid()
    ensures var r := FormatSuccessResponse(data, message);
            var fromData := data.Some? && k in data.value.values;
            && (fromData ==> r.Get(k) == Some(data.value.values[k]))
            && (!fromData ==> r.Get(k) == SuccessBase(message).Get(k))
            && r.keys != [] && r.keys[0] == "status"
  {
    var base := SuccessBase(message);
    if data.Some? && data.value.keys != [] {
      UpdateCorrect(base, data.value);
    } else if data.Some? {
      assert k !in data.value.values;
    }
  }

  /** `serialize_memories`: one payload per memory, in order. */
  function SerializeMemories(memories: seq<PyValue>, objStr: PyValue -> string): (r: seq<MemoryPayload>)
    ensures |r| == |memories|
  {
    seq(|memories|, i requires 0 <= i < |memories| => FormatMemory(memories[i], objStr))
  }

  /** Each payload is `format_memory` of the memory in the same place, and it
      is the empty payload exactly where the memory is `None`. */
  lemma SerializeMemoriesCorrect(memories: seq<PyValue>, objStr: PyValue -> string)
    ensures forall i :: 0 <= i < |memories| ==>
              SerializeMemories(memories, objStr)[i] == FormatMemory(memories[i], objStr)
    ensures forall i :: 0 <= i < |memories| ==>
              (SerializeMemories(memories, objStr)[i].EmptyMemory? <==> memories[i].PyNone?)
  {
  }
}
