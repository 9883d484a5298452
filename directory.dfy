/**
 * The registry's directory cache as a value: the agent map `registry` (with its
 * key order), the per-agent status records kept under `registry['agent_status']`,
 * the client map `client_registry` and the alias map kept under
 * `client_registry['agent_map']`. The two sentinel keys are not part of the key
 * spaces here: `Snapshot.Valid` says they never appear as real names.
 *
 * The pure reads (payload, get, lookup, list, stats) and the specifications of
 * the three mutations (register, status update, delete) are functions of a
 * snapshot; the class in module Engine performs the mutations in place.
 */
module Directory {
  import opened Wrappers
  import opened JsonValue

  /** Sentinel key of `registry` that holds the status map. */
  const AgentStatusKey: string := "agent_status"
  /** Sentinel key of `client_registry` that holds the alias map. */
  const AgentMapKey: string := "agent_map"

  /**
   * One entry of the status map. `capabilities` and `tags` are `None` until a
   * status update stores a list for them.
   */
  datatype Status = Status(
    alive: bool,
    assignedTo: Json,
    apiUrl: Json,
    description: Json,
    lastUpdate: string,
    capabilities: Option<seq<Json>>,
    tags: Option<seq<Json>>)

  predicate NoDuplicates(s: seq<string>) {
    forall i, j :: 0 <= i < j < |s| ==> s[i] != s[j]
  }

  datatype Snapshot = Snapshot(
    order: seq<string>,                // keys of `registry`, in insertion order
    agents: map<string, Json>,         // agent_id -> agent_url
    status: map<string, Status>,       // agent_id -> status record
    clients: map<string, Json>,        // client_name -> api_url
    agentMap: map<string, string>)     // client_name -> agent_id
  {
    /**
     * Agent ids are unique and every agent has exactly one status record;
     * every client has exactly one alias entry; the sentinels are never names.
     */
    predicate Valid() {
      && NoDuplicates(order)
      && (forall id :: id in order ==> id in agents)
      && (forall id :: id in agents ==> id in order)
      && status.Keys == agents.Keys
      && agentMap.Keys == clients.Keys
      && AgentStatusKey !in agents
      && AgentMapKey !in clients
    }
  }

  /** The directory at process start when nothing is loaded: `{"agent_status": {}}` and `{"agent_map": {}}`. */
  const Empty := Snapshot([], map[], map[], map[], map[])

  lemma EmptyIsValid()
    ensures Empty.Valid()
  {
  }

  datatype Failure =
    | MissingIdOrUrl     // 400 "Missing agent_id or agent_url"
    | InvalidAgentId     // agent_id is "agent_status" or not a string (see README)
    | AgentNotFound      // 404 "Agent not found"
    | IdNotFound         // 404 "ID '<id>' not found"

  /** The JSON object `_build_agent_payload` returns for one agent. */
  datatype Payload = Payload(
    agentId: string,
    agentUrl: Json,
    apiUrl: Json,
    alive: bool,
    assignedTo: Json,
    lastUpdate: Json,
    capabilities: seq<Json>,
    tags: seq<Json>,
    description: Json)

  /** `_build_agent_payload`: every field defaults when the agent or its status record is missing. */
  function BuildPayload(d: Snapshot, id: string): (p: Payload)
    ensures p.agentId == id
    ensures p.agentUrl == (if id in d.agents then d.agents[id] else JNull)
    ensures p.alive == IsAlive(d, id)
    ensures p.apiUrl == ApiUrlOf(d, id) && p.description == DescriptionOf(d, id)
    ensures id in d.status ==>
              && p.assignedTo == d.status[id].assignedTo
              && p.lastUpdate == JStr(d.status[id].lastUpdate)
              && p.capabilities == d.status[id].capabilities.GetOr([])
              && p.tags == d.status[id].tags.GetOr([])
    ensures id !in d.status ==> p.assignedTo == JNull && p.lastUpdate == JNull && p.capabilities == [] && p.tags == []
  {
    var url := if id in d.agents then d.agents[id] else JNull;
    if id in d.status then
      var st := d.status[id];
      Payload(id, url, st.apiUrl, st.alive, st.assignedTo, JStr(st.lastUpdate),
              st.capabilities.GetOr([]), st.tags.GetOr([]), st.description)
    else
      Payload(id, url, JNull, false, JNull, JNull, [], [], JStr(""))
  }

  /** `get_agent`: the payload of an existing agent, `AgentNotFound` otherwise. */
  function Get(d: Snapshot, id: string): (r: Result<Payload, Failure>)
    ensures r.Success? <==> id in d.agents && id != AgentStatusKey
    ensures r.Success? ==> r.value.agentId == id && r.value.agentUrl == d.agents[id]
    ensures r.Success? ==>
              && r.value.alive == IsAlive(d, id)
              && r.value.apiUrl == ApiUrlOf(d, id)
              && r.value.description == DescriptionOf(d, id)
    ensures r.Success? && id in d.status ==>
              && r.value.assignedTo == d.status[id].assignedTo
              && r.value.lastUpdate == JStr(d.status[id].lastUpdate)
              && r.value.capabilities == d.status[id].capabilities.GetOr([])
              && r.value.tags == d.status[id].tags.GetOr([])
    ensures r.Success? && id !in d.status ==>
              r.value.assignedTo == JNull && r.value.lastUpdate == JNull && r.value.capabilities == [] && r.value.tags == []
    ensures r.Failure? ==> r.error == AgentNotFound
  {
    if id !in d.agents || id == AgentStatusKey then Failure(AgentNotFound)
    else Success(BuildPayload(d, id))
  }

  /** What `lookup` answers: the agent behind a name and the endpoint to use. */
  datatype View = View(agentId: string, agentUrl: Json, apiUrl: Json, description: Json)

  function ApiUrlOf(d: Snapshot, id: string): Json {
    if id in d.status then d.status[id].apiUrl else JNull
  }

  function DescriptionOf(d: Snapshot, id: string): Json {
    if id in d.status then d.status[id].description else JStr("")
  }

  /** `name` is a client whose alias points at an agent that still exists. */
  predicate AliasResolves(d: Snapshot, name: string) {
    name in d.clients && name in d.agentMap && d.agentMap[name] in d.agents
  }

  /**
   * `lookup`: the agent namespace first, then the client aliases with the
   * client's own `api_url` in place of the agent's. A dangling alias is
   * `IdNotFound` here (the source raises KeyError).
   */
  function Lookup(d: Snapshot, name: string): (r: Result<View, Failure>)
    ensures r.Success? <==> (name in d.agents && name != AgentStatusKey) || AliasResolves(d, name)
    ensures name in d.agents && name != AgentStatusKey ==>
              r == Success(View(name, d.agents[name], ApiUrlOf(d, name), DescriptionOf(d, name)))
    ensures (name !in d.agents || name == AgentStatusKey) && AliasResolves(d, name) ==>
              var target := d.agentMap[name];
              r == Success(View(target, d.agents[target], d.clients[name], DescriptionOf(d, target)))
    ensures r.Failure? ==> r.error == IdNotFound
  {
    if name in d.agents && name != AgentStatusKey then
      Success(View(name, d.agents[name], ApiUrlOf(d, name), DescriptionOf(d, name)))
    else if name in d.clients && name in d.agentMap then
      var target := d.agentMap[name];
      if target in d.agents then
        Success(View(target, d.agents[target], d.clients[name], DescriptionOf(d, target)))
      else
        Failure(IdNotFound)
    else
      Failure(IdNotFound)
  }

  /** `list_agents`: agent id to agent URL, without the status sentinel. */
  function ListAgents(d: Snapshot): (m: map<string, Json>)
    ensures m.Keys == d.agents.Keys - {AgentStatusKey}
    ensures forall id :: id in m ==> m[id] == d.agents[id]
  {
    map id | id in d.agents && id != AgentStatusKey :: d.agents[id]
  }

  /** `list_clients`: every client name, each reported as "alive", without the alias sentinel. */
  function ListClients(d: Snapshot): (m: map<string, string>)
    ensures m.Keys == d.clients.Keys - {AgentMapKey}
    ensures forall c :: c in m ==> m[c] == "alive"
  {
    map c | c in d.clients && c != AgentMapKey :: "alive"
  }

  // ---------------------------------------------------------------- stats

  predicate IsAlive(d: Snapshot, id: string) {
    id in d.status && d.status[id].alive
  }

  /** `sum(1 for a in agents if status.get(a, {}).get('alive'))` */
  function CountAlive(d: Snapshot, ids: seq<string>): (n: nat)
    ensures (forall i :: 0 <= i < |ids| ==> IsAlive(d, ids[i])) ==> n == |ids|
    ensures (forall i :: 0 <= i < |ids| ==> !IsAlive(d, ids[i])) ==> n == 0
    decreases |ids|
  {
    if ids == [] then 0 else (if IsAlive(d, ids[0]) then 1 else 0) + CountAlive(d, ids[1..])
  }

  function AliveIds(d: Snapshot): set<string> {
    set id | id in d.agents && IsAlive(d, id)
  }

  lemma {:induction false} DistinctCardinality(s: seq<string>)
    requires NoDuplicates(s)
    ensures |set x | x in s| == |s|
    decreases |s|
  {
    if s != [] {
      DistinctCardinality(s[1..]);
      assert (set x | x in s) == {s[0]} + (set x | x in s[1..]);
      assert s[0] !in (set x | x in s[1..]);
    }
  }

  /** Counting along a duplicate-free key list counts the set of alive keys. */
  lemma {:induction false} CountAliveIsCardinality(d: Snapshot, ids: seq<string>)
    requires NoDuplicates(ids)
    ensures CountAlive(d, ids) == |set id | id in ids && IsAlive(d, id)|
    decreases |ids|
  {
    if ids != [] {
      CountAliveIsCardinality(d, ids[1..]);
      var rest := set id | id in ids[1..] && IsAlive(d, id);
      assert ids[0] !in rest;
      if IsAlive(d, ids[0]) {
        assert (set id | id in ids && IsAlive(d, id)) == {ids[0]} + rest;
      } else {
        assert (set id | id in ids && IsAlive(d, id)) == rest;
      }
    }
  }

  lemma {:induction false} CountAliveAtMost(d: Snapshot, ids: seq<string>)
    ensures CountAlive(d, ids) <= |ids|
    decreases |ids|
  {
    if ids != [] {
      CountAliveAtMost(d, ids[1..]);
    }
  }

  datatype StatsView = StatsView(totalAgents: nat, aliveAgents: nat, totalClients: nat, storeEnabled: bool)

  /**
   * `stats`: how many agents, how many of them alive, how many clients.
   * `storeEnabled` is the persistence flag (`USE_MONGO and not TEST_MODE`).
   */
  function Stats(d: Snapshot, storeEnabled: bool): (s: StatsView)
    requires d.Valid()
    ensures s.totalAgents == |d.agents|
    ensures s.aliveAgents == |AliveIds(d)| && s.aliveAgents <= s.totalAgents
    ensures s.totalClients == |d.clients|
    ensures s.storeEnabled == storeEnabled
  {
    DistinctCardinality(d.order);
    CountAliveIsCardinality(d, d.order);
    CountAliveAtMost(d, d.order);
    assert (set x | x in d.order) == d.agents.Keys;
    assert (set id | id in d.order && IsAlive(d, id)) == AliveIds(d);
    assert AliveIds(d) <= d.agents.Keys;
    StatsView(|d.order|, CountAlive(d, d.order), |d.clients|, storeEnabled)
  }

  // ---------------------------------------------------------------- register

  /** The accepted fields of a registration request. */
  datatype Registration = Registration(agentId: string, agentUrl: Json, apiUrl: Json, description: Json)

  /**
   * The validation at the head of `register`: `agent_id` and `agent_url` must
   * be present (presence only, not emptiness); `api_url` defaults to null and
   * `description` to the empty string.
   */
  function ParseRegistration(data: map<string, Json>): (r: Result<Registration, Failure>)
    ensures r == Failure(MissingIdOrUrl) <==> "agent_id" !in data || "agent_url" !in data
    ensures r == Failure(InvalidAgentId) <==>
              "agent_id" in data && "agent_url" in data &&
              (!data["agent_id"].JStr? || data["agent_id"].s == AgentStatusKey)
    ensures r.Success? ==>
              && JStr(r.value.agentId) == data["agent_id"]
              && r.value.agentId != AgentStatusKey
              && r.value.agentUrl == data["agent_url"]
              && r.value.apiUrl == (if "api_url" in data then data["api_url"] else JNull)
              && r.value.description == (if "description" in data then data["description"] else JStr(""))
  {
    if data == map[] || "agent_id" !in data || "agent_url" !in data then
      Failure(MissingIdOrUrl)
    else if !data["agent_id"].JStr? || data["agent_id"].s == AgentStatusKey then
      Failure(InvalidAgentId)
    else
      Success(Registration(data["agent_id"].s, data["agent_url"], FieldOr(data, "api_url", JNull),
                           FieldOr(data, "description", JStr(""))))
  }

  /** The status record `register` writes: not alive, unassigned, no capabilities or tags. */
  function FreshStatus(reg: Registration, now: string): (st: Status)
    ensures !st.alive && st.assignedTo == JNull && st.lastUpdate == now
    ensures st.apiUrl == reg.apiUrl && st.description == reg.description
    ensures st.capabilities == None && st.tags == None
  {
    Status(false, JNull, reg.apiUrl, reg.description, now, None, None)
  }

  /** The directory after a successful `register`. */
  function Registered(d: Snapshot, reg: Registration, now: string): (d': Snapshot)
    requires d.Valid() && reg.agentId != AgentStatusKey
    ensures d'.Valid()
    ensures d'.agents.Keys == d.agents.Keys + {reg.agentId}
    ensures reg.agentId in d.agents ==> d'.order == d.order
    ensures reg.agentId !in d.agents ==> d'.order == d.order + [reg.agentId]
    ensures forall id :: id in d.agents && id != reg.agentId ==>
              d'.agents[id] == d.agents[id] && d'.status[id] == d.status[id]
    ensures d'.clients == d.clients && d'.agentMap == d.agentMap
  {
    var id := reg.agentId;
    var order := if id in d.agents then d.order else d.order + [id];
    d.(order := order,
       agents := d.agents[id := reg.agentUrl],
       status := d.status[id := FreshStatus(reg, now)])
  }

  /** After `register`, `get` shows exactly the request's fields and fresh status. */
  lemma RegisterThenGet(d: Snapshot, reg: Registration, now: string)
    requires d.Valid() && reg.agentId != AgentStatusKey
    ensures Get(Registered(d, reg, now), reg.agentId) ==
            Success(Payload(reg.agentId, reg.agentUrl, reg.apiUrl, false, JNull, JStr(now), [], [], reg.description))
  {
  }

  /** Registering the same request again only refreshes the timestamp. */
  lemma RegisterIdempotent(d: Snapshot, reg: Registration, t1: string, t2: string)
    requires d.Valid() && reg.agentId != AgentStatusKey
    ensures Registered(Registered(d, reg, t1), reg, t2) == Registered(d, reg, t2)
  {
    var once := Registered(d, reg, t1);
    var id := reg.agentId;
    assert once.order == (if id in d.agents then d.order else d.order + [id]);
    assert id in once.agents;
    assert once.agents[id := reg.agentUrl] == d.agents[id := reg.agentUrl];
    assert once.status[id := FreshStatus(reg, t2)] == d.status[id := FreshStatus(reg, t2)];
  }

  // ---------------------------------------------------------------- status update

  /**
   * The partial merge of `update_agent_status`: a field is overwritten only when
   * the request carries it (and, for `capabilities`, `tags` and `description`,
   * only when it has the right JSON type); `last_update` is always refreshed;
   * `api_url` is never touched.
   */
  function Merge(s: Status, data: map<string, Json>, now: string): (s': Status)
    ensures s'.alive == (if "alive" in data then Truthy(data["alive"]) else s.alive)
    ensures s'.assignedTo == (if "assigned_to" in data then data["assigned_to"] else s.assignedTo)
    ensures s'.lastUpdate == now
    ensures s'.capabilities ==
              (if "capabilities" in data && data["capabilities"].JArr? then Some(data["capabilities"].items) else s.capabilities)
    ensures s'.tags == (if "tags" in data && data["tags"].JArr? then Some(data["tags"].items) else s.tags)
    ensures s'.description ==
              (if "description" in data && data["description"].JStr? then data["description"] else s.description)
    ensures s'.apiUrl == s.apiUrl
  {
    var s1 := if "alive" in data then s.(alive := Truthy(data["alive"])) else s;
    var s2 := if "assigned_to" in data then s1.(assignedTo := data["assigned_to"]) else s1;
    var s3 := s2.(lastUpdate := now);
    var s4 := if "capabilities" in data && data["capabilities"].JArr? then s3.(capabilities := Some(data["capabilities"].items)) else s3;
    var s5 := if "tags" in data && data["tags"].JArr? then s4.(tags := Some(data["tags"].items)) else s4;
    if "description" in data && data["description"].JStr? then s5.(description := data["description"]) else s5
  }

  /** An empty request body only refreshes the timestamp. */
  lemma MergeEmpty(s: Status, now: string)
    ensures Merge(s, map[], now) == s.(lastUpdate := now)
  {
  }

  /** Applying the same update twice is applying it once (at the later time). */
  lemma MergeIdempotent(s: Status, data: map<string, Json>, t1: string, t2: string)
    ensures Merge(Merge(s, data, t1), data, t2) == Merge(s, data, t2)
  {
  }

  /** The directory after a successful `update_agent_status`. */
  function StatusUpdated(d: Snapshot, id: string, data: map<string, Json>, now: string): (d': Snapshot)
    requires d.Valid() && id in d.agents
    ensures d'.Valid()
    ensures d'.order == d.order && d'.agents == d.agents
    ensures d'.clients == d.clients && d'.agentMap == d.agentMap
    ensures d'.status.Keys == d.status.Keys
    ensures forall other :: other in d.status && other != id ==> d'.status[other] == d.status[other]
    ensures d'.status[id] == Merge(d.status[id], data, now)
  {
    d.(status := d.status[id := Merge(d.status[id], data, now)])
  }

  /** A status update changes the payload of its own agent only, and lookups only in description. */
  lemma UpdateLeavesOthers(d: Snapshot, id: string, data: map<string, Json>, now: string, other: string)
    requires d.Valid() && id in d.agents && other != id
    ensures Get(StatusUpdated(d, id, data, now), other) == Get(d, other)
    ensures ListAgents(StatusUpdated(d, id, data, now)) == ListAgents(d)
    ensures ListClients(StatusUpdated(d, id, data, now)) == ListClients(d)
    ensures other in d.agents ==> Lookup(StatusUpdated(d, id, data, now), other) == Lookup(d, other)
    ensures Lookup(StatusUpdated(d, id, data, now), id) ==
            Success(Lookup(d, id).value.(description := DescriptionOf(StatusUpdated(d, id, data, now), id)))
  {
  }

  // ---------------------------------------------------------------- delete

  /** `s` with every occurrence of `x` removed, the rest in order. */
  function Without(s: seq<string>, x: string): (r: seq<string>)
    ensures forall y :: y in r <==> y in s && y != x
    ensures NoDuplicates(s) ==> NoDuplicates(r)
    ensures x !in s ==> r == s
    decreases |s|
  {
    if s == [] then []
    else if s[0] == x then Without(s[1..], x)
    else
      var w := Without(s[1..], x);
      assert NoDuplicates(s) ==> s[0] !in s[1..];
      [s[0]] + w
  }

  /** In a duplicate-free list, removing `x` cuts out its one position and keeps the rest in order. */
  lemma {:induction false} WithoutAt(s: seq<string>, x: string, k: int)
    requires NoDuplicates(s) && 0 <= k < |s| && s[k] == x
    ensures Without(s, x) == s[..k] + s[k + 1..]
    decreases |s|
  {
    if k == 0 {
      assert x !in s[1..];
      assert s[..0] + s[1..] == s[1..];
    } else {
      assert NoDuplicates(s[1..]);
      WithoutAt(s[1..], x, k - 1);
      assert s[..k] + s[k + 1..] == [s[0]] + (s[1..][..k - 1] + s[1..][k..]);
    }
  }

  /** The clients whose alias points at `id`. */
  function AliasesOf(d: Snapshot, id: string): set<string> {
    set c | c in d.agentMap && d.agentMap[c] == id
  }

  /**
   * The directory after a successful `delete_agent`: the agent, its status
   * record and every client aliasing it are gone; nothing else changes.
   */
  function Deleted(d: Snapshot, id: string): (d': Snapshot)
    requires d.Valid()
    ensures d'.Valid()
    ensures d'.agents.Keys == d.agents.Keys - {id}
    ensures d'.order == Without(d.order, id)
    ensures forall a :: a in d'.agents ==> d'.agents[a] == d.agents[a] && d'.status[a] == d.status[a]
    ensures forall c :: c in d'.agentMap ==> d'.agentMap[c] != id
    ensures forall c :: c in d.clients ==> (c in d'.clients <==> d.agentMap[c] != id)
    ensures forall c :: c in d'.clients ==> c in d.clients && d'.clients[c] == d.clients[c]
    ensures forall c :: c in d'.agentMap ==> c in d.agentMap && d'.agentMap[c] == d.agentMap[c]
  {
    var gone := AliasesOf(d, id);
    Snapshot(Without(d.order, id), d.agents - {id}, d.status - {id}, d.clients - gone, d.agentMap - gone)
  }

  /** Deleting an agent undoes registering it, whether or not it existed before. */
  lemma DeleteUndoesRegister(d: Snapshot, reg: Registration, now: string)
    requires d.Valid() && reg.agentId != AgentStatusKey
    ensures Deleted(Registered(d, reg, now), reg.agentId) == Deleted(d, reg.agentId)
  {
    var id := reg.agentId;
    var r := Registered(d, reg, now);
    assert AliasesOf(r, id) == AliasesOf(d, id);
    assert r.agents - {id} == d.agents - {id};
    assert r.status - {id} == d.status - {id};
    if id !in d.agents {
      WithoutAppended(d.order, id);
    }
    assert Without(r.order, id) == Without(d.order, id);
  }

  lemma {:induction false} WithoutAppended(s: seq<string>, x: string)
    ensures Without(s + [x], x) == Without(s, x)
    decreases |s|
  {
    if s == [] {
      assert [] + [x] == [x];
      assert [x][1..] == [];
    } else {
      assert (s + [x])[0] == s[0];
      assert (s + [x])[1..] == s[1..] + [x];
      WithoutAppended(s[1..], x);
    }
  }

  /** After a delete, neither the agent nor any alias that pointed at it can be looked up through it. */
  lemma DeleteThenLookup(d: Snapshot, id: string, c: string)
    requires d.Valid()
    requires c in d.agentMap && d.agentMap[c] == id && c !in d.agents
    ensures Get(Deleted(d, id), id) == Failure(AgentNotFound)
    ensures Lookup(Deleted(d, id), c) == Failure(IdNotFound)
  {
  }

  // ---------------------------------------------------------------- clients

  /**
   * Adds or replaces one client alias, as the startup load does for each
   * stored client document.
   */
  function WithClient(d: Snapshot, name: string, apiUrl: Json, agentId: string): (d': Snapshot)
    requires d.Valid() && name != AgentMapKey
    ensures d'.Valid()
    ensures d'.clients.Keys == d.clients.Keys + {name}
    ensures d'.order == d.order && d'.agents == d.agents && d'.status == d.status
  {
    d.(clients := d.clients[name := apiUrl], agentMap := d.agentMap[name := agentId])
  }

  /** An alias resolves to its agent with the alias's own endpoint, unless an agent has the same name. */
  lemma AliasLookup(d: Snapshot, name: string, apiUrl: Json, agentId: string)
    requires d.Valid() && name != AgentMapKey && name !in d.agents && agentId in d.agents
    ensures Lookup(WithClient(d, name, apiUrl, agentId), name) ==
            Success(View(agentId, d.agents[agentId], apiUrl, DescriptionOf(d, agentId)))
  {
  }

  /** `get` and `lookup` of an agent id report the same URL, endpoint and description. */
  lemma GetAgreesWithLookup(d: Snapshot, id: string)
    requires Get(d, id).Success?
    ensures var g := Get(d, id).value;
            Lookup(d, id) == Success(View(id, g.agentUrl, g.apiUrl, g.description))
  {
  }

  /** The `alive` flag `get` reports is the one `stats` counts. */
  lemma GetAliveCounted(d: Snapshot, id: string)
    requires Get(d, id).Success?
    ensures Get(d, id).value.alive <==> id in AliveIds(d)
  {
  }
}
