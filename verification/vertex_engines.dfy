/** Finding the resource name of an agent engine in whatever object the SDK
    hands back. */
module VertexEngines {
  import opened Wrappers
  import opened PyValues

  const NameNotFound := "Unable to determine agent engine resource name"

  function NonNone(v: PyValue): seq<PyValue> {
    if v.PyNone? then [] else [v]
  }

  /** The engine, then those of its `api_resource`, `result` and `_pb` that
      are not `None`, in that order. */
  function Candidates(engine: PyValue): (cs: seq<PyValue>)
    ensures 1 <= |cs| <= 4 && cs[0] == engine
    ensures forall i :: 1 <= i < |cs| ==> !cs[i].PyNone?
  {
    [engine] + NonNone(GetAttrOr(engine, "api_resource")) + NonNone(GetAttrOr(engine, "result"))
      + NonNone(GetAttrOr(engine, "_pb"))
  }

  /** The `name` of a candidate. */
  function NameOf(candidate: PyValue): PyValue {
    GetAttrOr(candidate, "name")
  }

  /** The loop over the candidates: the first truthy name, as a string, or
      the `ValueError`. */
  function FirstName(cs: seq<PyValue>, objStr: PyValue -> string): (r: Result<string, string>)
    ensures r.Failure? <==> forall i :: 0 <= i < |cs| ==> !Truthy(NameOf(cs[i]))
    ensures r.Failure? ==> r.error == NameNotFound
  {
    if cs == [] then Failure(NameNotFound)
    else if Truthy(NameOf(cs[0])) then Success(Str(NameOf(cs[0]), objStr))
    else
      var r := FirstName(cs[1..], objStr);
      assert forall i :: 1 <= i < |cs| ==> cs[i] == cs[1..][i - 1];
      r
  }

  /** `extract_agent_engine_name`; `Failure` is the `ValueError`. */
  function ExtractAgentEngineName(engine: PyValue, objStr: PyValue -> string): Result<string, string> {
    FirstName(Candidates(engine), objStr)
  }

  /** The name found is that of the first candidate whose name is truthy. */
  lemma {:induction false} FirstNameFinds(cs: seq<PyValue>, objStr: PyValue -> string, i: nat)
    requires i < |cs| && Truthy(NameOf(cs[i]))
    requires forall j :: 0 <= j < i ==> !Truthy(NameOf(cs[j]))
    ensures FirstName(cs, objStr) == Success(Str(NameOf(cs[i]), objStr))
  {
    if i > 0 {
      FirstNameFinds(cs[1..], objStr, i - 1);
    }
  }

  /** An engine with a truthy name of its own is named by it, whatever its
      nested objects hold; the error comes only when no candidate has one. */
  lemma ExtractAgentEngineNameCorrect(engine: PyValue, objStr: PyValue -> string)
    ensures Truthy(NameOf(engine)) ==>
              ExtractAgentEngineName(engine, objStr) == Success(Str(NameOf(engine), objStr))
    ensures ExtractAgentEngineName(engine, objStr).Failure? <==>
              forall c :: c in Candidates(engine) ==> !Truthy(NameOf(c))
  {
    if Truthy(NameOf(engine)) {
      FirstNameFinds(Candidates(engine), objStr, 0);
    }
  }

  /** An engine without a name of its own but whose `api_resource` has one is
      named by the `api_resource`. */
  lemma NamedByApiResource(engine: PyValue, api: PyValue, objStr: PyValue -> string)
    requires !Truthy(NameOf(engine))
    requires GetAttrOr(engine, "api_resource") == api && !api.PyNone? && Truthy(NameOf(api))
    ensures ExtractAgentEngineName(engine, objStr) == Success(Str(NameOf(api), objStr))
  {
    FirstNameFinds(Candidates(engine), objStr, 1);
  }
}
