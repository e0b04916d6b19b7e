/** The state the memory-bank tools share: the configuration, the client
    manager and the memory service. `S` is the type of memory services. */
module VertexAppState {
  import opened Wrappers
  import opened VertexConfig
  import opened VertexClients

  /** `AppState`. */
  class AppState<C, S> {
    var config: Config
    var clientManager: VertexClientManager?<C>
    var memoryService: Option<S>

    /** `AppState()`: the default configuration and no collaborators. */
    constructor()
      ensures config == DefaultConfig() && clientManager == null && memoryService.None?
      ensures !IsReady()
    {
      config := DefaultConfig();
      clientManager := null;
      memoryService := None;
    }

    /** `is_ready`: a manager that holds both a client and an engine name. */
    predicate IsReady()
      reads this, clientManager
    {
      clientManager != null && clientManager.client.Some? && clientManager.agentEngineName.Some?
    }

    /** `reset`: the manager, if any, first forgets its client and engine name;
        then the configuration is back to the defaults and the manager and
        service are dropped. */
    method Reset()
      modifies this, clientManager
      ensures old(clientManager) != null ==>
                && old(clientManager).client.None?
                && old(clientManager).agentEngineName.None?
                && old(clientManager).config == old(clientManager.config)
      ensures config == DefaultConfig() && clientManager == null && memoryService.None?
      ensures !IsReady()
    {
      if clientManager != null {
        clientManager.Reset();
      }
      config := DefaultConfig();
      clientManager := null;
      memoryService := None;
    }

    /** `attach`: stores the three collaborators as given; the state is then
        ready exactly when the manager is. */
    method Attach(config: Config, clientManager: VertexClientManager<C>, memoryService: S)
      modifies this
      ensures this.config == config && this.clientManager == clientManager && this.memoryService == Some(memoryService)
      ensures IsReady() <==> clientManager.client.Some? && clientManager.agentEngineName.Some?
    {
      this.config := config;
      this.clientManager := clientManager;
      this.memoryService := Some(memoryService);
    }
  }
}
