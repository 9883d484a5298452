/**
 * The registry engine: the two module-level dictionaries of the service as the
 * fields of one object, and the three request handlers that change them in
 * place. Persistence after a change is a no-op here.
 */
module Engine {
  import opened Wrappers
  import opened JsonValue
  import opened Directory
  import Query

  /**
   * The first loop of `delete_agent`: the client names whose alias entry
   * equals `id`.
   */
  method CollectAliases(agentMap: map<string, string>, id: string) returns (toRemove: set<string>)
    ensures forall c :: c in toRemove <==> c in agentMap && agentMap[c] == id
  {
    toRemove := {};
    var pending := agentMap.Keys;
    while pending != {}
      invariant pending <= agentMap.Keys
      invariant forall c :: c in toRemove <==> c in agentMap && c !in pending && agentMap[c] == id
      decreases pending
    {
      var c :| c in pending;
      if agentMap[c] == id {
        toRemove := toRemove + {c};
      }
      pending := pending - {c};
    }
  }

  /** The second loop of `delete_agent`: pops each collected client from both client maps. */
  method PopClients(clients: map<string, Json>, agentMap: map<string, string>, toRemove: set<string>)
    returns (remaining: map<string, Json>, aliases: map<string, string>)
    ensures remaining == clients - toRemove && aliases == agentMap - toRemove
  {
    remaining, aliases := clients, agentMap;
    var rest := toRemove;
    while rest != {}
      invariant rest <= toRemove
      invariant remaining == clients - (toRemove - rest)
      invariant aliases == agentMap - (toRemove - rest)
      decreases rest
    {
      var c :| c in rest;
      remaining := remaining - {c};
      aliases := aliases - {c};
      rest := rest - {c};
    }
    assert toRemove - rest == toRemove;
  }

  /**
   * The loop of `search_agents`: walks `keys` in order and appends the payload
   * of every key that passes the three filters.
   */
  method SelectAgents(snapshot: Snapshot, keys: seq<string>, crit: Query.Criteria) returns (results: seq<Payload>)
    ensures results == Query.Select(snapshot, keys, crit)
  {
    results := [];
    var i := 0;
    assert keys[..0] == [];
    while i < |keys|
      invariant 0 <= i <= |keys|
      invariant results == Query.Select(snapshot, keys[..i], crit)
    {
      var id := keys[i];
      Query.SelectStep(snapshot, keys, i, crit);
      if id != AgentStatusKey && Query.Matches(snapshot, id, crit) {
        results := results + [BuildPayload(snapshot, id)];
      }
      i := i + 1;
    }
    assert keys[..|keys|] == keys;
  }

  class Registry {
    var order: seq<string>            // key order of `registry`, sentinel excluded
    var agents: map<string, Json>     // `registry` without "agent_status"
    var status: map<string, Status>   // `registry["agent_status"]`
    var clients: map<string, Json>    // `client_registry` without "agent_map"
    var agentMap: map<string, string> // `client_registry["agent_map"]`

    /** The current contents as a value, for the read operations of module Directory. */
    function Current(): Snapshot
      reads this
    {
      Snapshot(order, agents, status, clients, agentMap)
    }

    predicate Valid()
      reads this
    {
      Current().Valid()
    }

    constructor ()
      ensures Valid() && Current() == Empty
    {
      order, agents, status := [], map[], map[];
      clients, agentMap := map[], map[];
    }

    /**
     * `register`: rejects a request without `agent_id` or `agent_url`, then
     * overwrites the agent's URL and replaces its status record.
     */
    method Register(data: map<string, Json>, now: string) returns (r: Result<string, Failure>)
      requires Valid()
      modifies this
      ensures Valid()
      ensures ParseRegistration(data).Failure? ==>
                r == Failure(ParseRegistration(data).error) && Current() == old(Current())
      ensures ParseRegistration(data).Success? ==>
                var reg := ParseRegistration(data).value;
                r == Success(reg.agentId) && Current() == Registered(old(Current()), reg, now)
    {
      var parsed := ParseRegistration(data);
      if parsed.Failure? {
        return Failure(parsed.error);
      }
      var reg := parsed.value;
      if reg.agentId !in agents {
        order := order + [reg.agentId];
      }
      agents := agents[reg.agentId := reg.agentUrl];
      status := status[reg.agentId := FreshStatus(reg, now)];
      r := Success(reg.agentId);
    }

    /**
     * `update_agent_status`: not-found for an unknown id; otherwise merges the
     * request into the agent's status record and returns the new payload.
     */
    method UpdateAgentStatus(id: string, data: map<string, Json>, now: string) returns (r: Result<Payload, Failure>)
      requires Valid()
      modifies this
      ensures Valid()
      ensures id !in old(agents) || id == AgentStatusKey ==>
                r == Failure(AgentNotFound) && Current() == old(Current())
      ensures id in old(agents) && id != AgentStatusKey ==>
                Current() == StatusUpdated(old(Current()), id, data, now) && r == Success(BuildPayload(Current(), id))
    {
      if id !in agents || id == AgentStatusKey {
        return Failure(AgentNotFound);
      }
      var merged := Merge(status[id], data, now);
      status := status[id := merged];
      r := Success(BuildPayload(Current(), id));
    }

    /**
     * `delete_agent`: not-found for an unknown id; otherwise removes the agent
     * and its status, collects the clients aliasing it and removes each of them
     * from both client maps.
     */
    method DeleteAgent(id: string) returns (r: Result<string, Failure>)
      requires Valid()
      modifies this
      ensures Valid()
      ensures id !in old(agents) || id == AgentStatusKey ==>
                r == Failure(AgentNotFound) && Current() == old(Current())
      ensures id in old(agents) && id != AgentStatusKey ==>
                r == Success(id) && Current() == Deleted(old(Current()), id)
    {
      if id !in agents || id == AgentStatusKey {
        return Failure(AgentNotFound);
      }
      ghost var before := Current();
      order := Without(order, id);
      agents := agents - {id};
      status := status - {id};

      var toRemove := CollectAliases(agentMap, id);
      assert toRemove == AliasesOf(before, id);

      var remaining, aliases := PopClients(clients, agentMap, toRemove);
      clients, agentMap := remaining, aliases;
      r := Success(id);
    }

    /** `search_agents`: normalises the request arguments and filters the agents in key order. */
    method Search(q: string, capabilities: Option<string>, tags: Option<string>) returns (results: seq<Payload>)
      ensures results == Query.Search(Current(), Query.ParseCriteria(q, capabilities, tags))
    {
      results := SelectAgents(Current(), order, Query.ParseCriteria(q, capabilities, tags));
    }

    /**
     * Adds or replaces a client alias, skipping an empty name (and, here, the
     * alias sentinel), as the startup load does for each stored client
     * document. The service has no request handler for it; the model uses it
     * to build directories with clients.
     */
    method PutClient(name: string, apiUrl: Json, agentId: string) returns (accepted: bool)
      requires Valid()
      modifies this
      ensures Valid()
      ensures accepted <==> name != "" && name != AgentMapKey
      ensures accepted ==> Current() == WithClient(old(Current()), name, apiUrl, agentId)
      ensures !accepted ==> Current() == old(Current())
    {
      if name == "" || name == AgentMapKey {
        return false;
      }
      clients := clients[name := apiUrl];
      agentMap := agentMap[name := agentId];
      accepted := true;
    }
  }
}
