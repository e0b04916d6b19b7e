/** The memory-bank server's configuration, read from the environment. */
module VertexConfig {
  import opened Wrappers

  const DefaultLocation := "us-central1"

  /** `Config`; the credentials path is kept as the text it was given. */
  datatype Config = Config(
    projectId: string,
    location: string,
    agentEngineName: Option<string>,
    credentialsPath: Option<string>)
  {
    /** `has_project_configuration`. */
    predicate HasProjectConfiguration() {
      projectId != []
    }

    /** `copy_with_agent_engine`: a new configuration whose engine name is `name`. */
    function CopyWithAgentEngine(name: string): (c: Config)
      ensures c.agentEngineName == Some(name)
      ensures c == this.(agentEngineName := c.agentEngineName)
    {
      Config(projectId, location, Some(name), credentialsPath)
    }
  }

  /** `Config()`: every field at its default. */
  function DefaultConfig(): (c: Config)
    ensures !c.HasProjectConfiguration()
    ensures c.location == DefaultLocation && c.agentEngineName.None? && c.credentialsPath.None?
  {
    Config("", DefaultLocation, None, None)
  }

  /** `os.getenv(key, default)`. */
  function GetEnv(env: map<string, string>, key: string, default: string): string {
    if key in env then env[key] else default
  }

  /** `Config.from_env`: a credentials path is kept only when it is non-empty. */
  function FromEnv(env: map<string, string>): Config {
    var credentials := if "GOOGLE_APPLICATION_CREDENTIALS" in env && env["GOOGLE_APPLICATION_CREDENTIALS"] != []
                       then Some(env["GOOGLE_APPLICATION_CREDENTIALS"]) else None;
    Config(
      GetEnv(env, "GOOGLE_CLOUD_PROJECT", ""),
      GetEnv(env, "GOOGLE_CLOUD_LOCATION", DefaultLocation),
      if "AGENT_ENGINE_NAME" in env then Some(env["AGENT_ENGINE_NAME"]) else None,
      credentials)
  }

  /** An empty environment gives the defaults, and a configuration read from
      the environment can make a client exactly when the project is set and
      non-empty. */
  lemma FromEnvCorrect(env: map<string, string>)
    ensures env == map[] ==> FromEnv(env) == DefaultConfig()
    ensures FromEnv(env).HasProjectConfiguration() <==>
              "GOOGLE_CLOUD_PROJECT" in env && env["GOOGLE_CLOUD_PROJECT"] != []
    ensures FromEnv(env).credentialsPath.Some? ==> FromEnv(env).credentialsPath.value != []
  {
  }

  /** Copying with the same name twice is copying once; a second name replaces
      the first; the project, location and credentials never change. */
  lemma {:induction false} CopyWithAgentEngineLaws(c: Config, name: string, other: string)
    ensures c.CopyWithAgentEngine(name).CopyWithAgentEngine(name) == c.CopyWithAgentEngine(name)
    ensures c.CopyWithAgentEngine(name).CopyWithAgentEngine(other) == c.CopyWithAgentEngine(other)
    ensures c.CopyWithAgentEngine(name).HasProjectConfiguration() <==> c.HasProjectConfiguration()
    ensures c.agentEngineName == Some(name) ==> c.CopyWithAgentEngine(name) == c
  {
  }
}
