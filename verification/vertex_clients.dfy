/** The lifecycle of the Vertex AI client and of the agent engine the memory
    bank lives in. The SDK is a parameter: `build` is the client constructor,
    `getEngine` and `createEngine` are the engine calls, each giving its
    result or the text of the exception it raises, and `objStr` renders a
    name that is not a string. `C` is the type of clients. */
module VertexClients {
  import opened Wrappers
  import opened PyValues
  import opened VertexConfig
  import opened VertexEngines
  import ToolOutput

  const NotInitialized := "Memory Bank not initialized. Call initialize_memory_bank first."

  // ---------------------------------------------------------------------------
  // _build_creation_config

  /** `{"managed_memory_topic": {"managed_topic_enum": topic}}`. */
  datatype ManagedTopic = ManagedTopic(managedTopicEnum: string)

  /** `{"context_spec": {"memory_bank_config": {"customization_configs":
      [{"memory_topics": [...]}, ...]}}}`: the customizations, each with its
      list of topics. */
  datatype CreationConfig = CreationConfig(customizations: seq<seq<ManagedTopic>>)

  /** `_build_creation_config`: nothing for no topics; otherwise a single
      customization with one managed topic per topic, in the given order. */
  function BuildCreationConfig(memoryTopics: Option<seq<string>>): (r: Option<CreationConfig>)
    ensures r.None? <==> memoryTopics.None? || memoryTopics.value == []
    ensures r.Some? ==>
              && |r.value.customizations| == 1
              && |r.value.customizations[0]| == |memoryTopics.value|
              && forall i :: 0 <= i < |memoryTopics.value| ==>
                   r.value.customizations[0][i].managedTopicEnum == memoryTopics.value[i]
  {
    if memoryTopics.None? || memoryTopics.value == [] then None
    else
      var topics := memoryTopics.value;
      Some(CreationConfig([seq(|topics|, i requires 0 <= i < |topics| => ManagedTopic(topics[i]))]))
  }

  // ---------------------------------------------------------------------------
  // Which engine ensure_agent_engine settles on

  /** The three branches of `ensure_agent_engine`. */
  datatype EngineChoice = FetchNamed(name: string) | ReuseCached(name: string) | CreateNew

  /** An explicit name wins unless a new engine is forced; then a cached name,
      on the same condition; otherwise a new engine is created. */
  function ChooseEngine(existingName: Option<string>, cached: Option<string>, forceNew: bool): EngineChoice {
    if ToolOutput.Truthy(existingName) && !forceNew then FetchNamed(existingName.value)
    else if ToolOutput.Truthy(cached) && !forceNew then ReuseCached(cached.value)
    else CreateNew
  }

  lemma ChooseEnginePriority(existingName: Option<string>, cached: Option<string>, forceNew: bool)
    ensures forceNew ==> ChooseEngine(existingName, cached, forceNew) == CreateNew
    ensures ChooseEngine(existingName, cached, forceNew).FetchNamed? <==> ToolOutput.Truthy(existingName) && !forceNew
    ensures ChooseEngine(existingName, cached, forceNew).ReuseCached? <==>
              !ToolOutput.Truthy(existingName) && ToolOutput.Truthy(cached) && !forceNew
    ensures ChooseEngine(existingName, cached, forceNew).CreateNew? <==>
              forceNew || (!ToolOutput.Truthy(existingName) && !ToolOutput.Truthy(cached))
  {
  }

  /** The name an engine call comes to: the SDK's exception, or the name
      extracted from the engine it returns. */
  function EngineName(engine: Result<PyValue, string>, objStr: PyValue -> string): Result<string, string> {
    match engine
    case Failure(e) => Failure(e)
    case Success(v) => ExtractAgentEngineName(v, objStr)
  }

  /** The name a choice comes to: the fetched or created engine's name, or
      the cached name as it is. A failure is the SDK call's exception, or the
      name-not-found error for an engine it did return. */
  function EngineOutcome<C>(
    client: C, choice: EngineChoice, memoryTopics: Option<seq<string>>,
    getEngine: (C, string) -> Result<PyValue, string>,
    createEngine: (C, Option<CreationConfig>) -> Result<PyValue, string>,
    objStr: PyValue -> string): (r: Result<string, string>)
    ensures choice.ReuseCached? ==> r == Success(choice.name)
    ensures choice.FetchNamed? && getEngine(client, choice.name).Failure? ==>
              r == Failure(getEngine(client, choice.name).error)
    ensures choice.FetchNamed? && getEngine(client, choice.name).Success? ==>
              r == ExtractAgentEngineName(getEngine(client, choice.name).value, objStr)
    ensures choice.CreateNew? && createEngine(client, BuildCreationConfig(memoryTopics)).Failure? ==>
              r == Failure(createEngine(client, BuildCreationConfig(memoryTopics)).error)
    ensures choice.CreateNew? && createEngine(client, BuildCreationConfig(memoryTopics)).Success? ==>
              r == ExtractAgentEngineName(createEngine(client, BuildCreationConfig(memoryTopics)).value, objStr)
  {
    match choice
    case FetchNamed(name) => EngineName(getEngine(client, name), objStr)
    case ReuseCached(name) => Success(name)
    case CreateNew => EngineName(createEngine(client, BuildCreationConfig(memoryTopics)), objStr)
  }

  // ---------------------------------------------------------------------------
  // VertexClientManager

  /** `VertexClientManager`. */
  class VertexClientManager<C> {
    var config: Config
    var client: Option<C>
    var agentEngineName: Option<string>

    constructor(config: Config)
      ensures this.config == config && client.None? && agentEngineName.None?
    {
      this.config := config;
      client := None;
      agentEngineName := None;
    }

    /** The current client serves `projectId` and `location`. */
    predicate Serves(projectId: string, location: string)
      reads this
    {
      client.Some? && config.projectId == projectId && config.location == location
    }

    /** `ensure_client`: the client is reused exactly when it serves the project
        and location; otherwise a new one is built and the configuration takes
        the new project and location, keeping the engine name and credentials.
        `refreshed` says whether a client was built. When the constructor
        raises, its exception comes back and nothing changes. On success the
        manager serves them, so a second call reuses. */
    method EnsureClient(projectId: string, location: string, build: (string, string) -> Result<C, string>)
      returns (r: Result<C, string>, refreshed: bool)
      modifies this`client, this`config
      ensures refreshed <==> !old(Serves(projectId, location))
      ensures !refreshed ==> r == Success(old(client).value) && client == old(client) && config == old(config)
      ensures refreshed ==> r == build(projectId, location)
      ensures refreshed && r.Success? ==>
                config == Config(projectId, location, old(config).agentEngineName, old(config).credentialsPath)
      ensures r.Failure? ==> client == old(client) && config == old(config)
      ensures r.Success? ==> client == Some(r.value) && Serves(projectId, location)
    {
      if client.Some? && config.projectId == projectId && config.location == location {
        return Success(client.value), false;
      }
      refreshed := true;
      r := build(projectId, location);
      if r.Failure? {
        return;
      }
      client := Some(r.value);
      config := Config(projectId, location, config.agentEngineName, config.credentialsPath);
    }

    /** `require_client`. */
    method RequireClient() returns (r: Result<C, string>)
      ensures r.Success? <==> client.Some?
      ensures r.Success? ==> r.value == client.value
      ensures r.Failure? ==> r.error == NotInitialized
    {
      if client.None? {
        return Failure(NotInitialized);
      }
      return Success(client.value);
    }

    /** `require_agent_engine_name`. */
    method RequireAgentEngineName() returns (r: Result<string, string>)
      ensures r.Success? <==> agentEngineName.Some?
      ensures r.Success? ==> r.value == agentEngineName.value
      ensures r.Failure? ==> r.error == NotInitialized
    {
      if agentEngineName.None? {
        return Failure(NotInitialized);
      }
      return Success(agentEngineName.value);
    }

    /** `require_ready`: both the client and the engine name, or the
        not-initialized error. */
    method RequireReady() returns (r: Result<(C, string), string>)
      ensures r.Success? <==> client.Some? && agentEngineName.Some?
      ensures r.Success? ==> r.value == (client.value, agentEngineName.value)
      ensures r.Failure? ==> r.error == NotInitialized
    {
      var c := RequireClient();
      if c.Failure? {
        return Failure(c.error);
      }
      var name := RequireAgentEngineName();
      if name.Failure? {
        return Failure(name.error);
      }
      return Success((c.value, name.value));
    }

    /** `ensure_agent_engine`: without a client it fails and changes nothing;
        otherwise it settles on an engine by `ChooseEngine` and, when a name
        comes out, stores it both as the engine name and in the configuration. */
    method EnsureAgentEngine(
      existingName: Option<string>, memoryTopics: Option<seq<string>>, forceNew: bool,
      getEngine: (C, string) -> Result<PyValue, string>,
      createEngine: (C, Option<CreationConfig>) -> Result<PyValue, string>,
      objStr: PyValue -> string)
      returns (r: Result<string, string>)
      modifies this`agentEngineName, this`config
      ensures old(client).None? ==> r == Failure(NotInitialized)
      ensures old(client).Some? ==>
                r == EngineOutcome(old(client).value, ChooseEngine(existingName, old(agentEngineName), forceNew),
                                   memoryTopics, getEngine, createEngine, objStr)
      ensures r.Success? ==> agentEngineName == Some(r.value) && config == old(config).CopyWithAgentEngine(r.value)
      ensures r.Success? ==> config.agentEngineName == agentEngineName
      ensures r.Failure? ==> agentEngineName == old(agentEngineName) && config == old(config)
    {
      var c := RequireClient();
      if c.Failure? {
        return Failure(c.error);
      }
      var name: Result<string, string>;
      if ToolOutput.Truthy(existingName) && !forceNew {
        name := EngineName(getEngine(c.value, existingName.value), objStr);
      } else if ToolOutput.Truthy(agentEngineName) && !forceNew {
        name := Success(agentEngineName.value);
      } else {
        var creationConfig := BuildCreationConfig(memoryTopics);
        name := EngineName(createEngine(c.value, creationConfig), objStr);
      }
      if name.Failure? {
        return name;
      }
      agentEngineName := Some(name.value);
      config := config.CopyWithAgentEngine(name.value);
      r := name;
    }

    /** `reset`: forgets the client and the engine name; the configuration stays. */
    method Reset()
      modifies this`client, this`agentEngineName
      ensures client.None? && agentEngineName.None?
      ensures config == old(config)
    {
      client := None;
      agentEngineName := None;
    }

    /** The client `bootstrap` ends up with for a configuration that names a
        project: the one serving it, or a newly built one. */
    function BootClient(build: (string, string) -> Result<C, string>): Result<C, string>
      reads this
    {
      if Serves(config.projectId, config.location) then Success(client.value)
      else build(config.projectId, config.location)
    }

    /** `bootstrap`: nothing without a project; otherwise a client for the
        configured project and location, and, when the configuration names an
        engine, that engine fetched by its name. `err` is what it raises: when
        the client cannot be built nothing changes; when the engine cannot be
        fetched the client is kept and the engine name is not. */
    method Bootstrap(
      build: (string, string) -> Result<C, string>, getEngine: (C, string) -> Result<PyValue, string>,
      createEngine: (C, Option<CreationConfig>) -> Result<PyValue, string>, objStr: PyValue -> string)
      returns (err: Option<string>)
      modifies this`client, this`config, this`agentEngineName
      ensures !old(config).HasProjectConfiguration() ==>
                err.None? && config == old(config) && client == old(client) && agentEngineName == old(agentEngineName)
      ensures old(config).HasProjectConfiguration() && old(BootClient(build)).Failure? ==>
                err == Some(old(BootClient(build)).error)
                && config == old(config) && client == old(client) && agentEngineName == old(agentEngineName)
      ensures old(config).HasProjectConfiguration() && old(BootClient(build)).Success? ==>
                client == Some(old(BootClient(build)).value) && Serves(old(config).projectId, old(config).location)
      ensures old(config).HasProjectConfiguration() && old(BootClient(build)).Success?
              && !ToolOutput.Truthy(old(config).agentEngineName) ==>
                err.None? && config == old(config) && agentEngineName == old(agentEngineName)
      ensures old(config).HasProjectConfiguration() && old(BootClient(build)).Success?
              && ToolOutput.Truthy(old(config).agentEngineName) ==>
                var fetched := EngineName(getEngine(client.value, old(config).agentEngineName.value), objStr);
                && (err.None? <==> fetched.Success?)
                && (fetched.Failure? ==>
                      err == Some(fetched.error) && config == old(config) && agentEngineName == old(agentEngineName))
                && (fetched.Success? ==>
                      agentEngineName == Some(fetched.value) && config == old(config).CopyWithAgentEngine(fetched.value))
    {
      if !config.HasProjectConfiguration() {
        return None;
      }
      var c, _ := EnsureClient(config.projectId, config.location, build);
      if c.Failure? {
        return Some(c.error);
      }
      if ToolOutput.Truthy(config.agentEngineName) {
        ChooseEnginePriority(config.agentEngineName, agentEngineName, false);
        var name := EnsureAgentEngine(config.agentEngineName, None, false, getEngine, createEngine, objStr);
        if name.Failure? {
          return Some(name.error);
        }
      }
      return None;
    }
  }
}
