# Agent registry directory — a Dafny model

This project models the directory at the heart of the agent registry service
(`src/registry/registry.py`). The service keeps two in-memory dictionaries:

- `registry` maps an agent id to its agent URL, and under the reserved key
  `"agent_status"` holds the per-agent status records (alive, assigned_to,
  api_url, description, last_update, and after a status update capabilities
  and tags);
- `client_registry` maps a client name to its API URL, and under the reserved
  key `"agent_map"` holds each client's alias to an agent id.

Nine request handlers read or change them: register, update status, delete,
get, lookup, search, list agents, list clients and stats.

Layout:

- `wrappers.dfy` — `Option` and `Result`.
- `json.dfy` — the JSON values that request bodies carry, Python truthiness, `dict.get`.
- `text.dfy` — `lower()`, `strip()`, `split(',')` and the substring test, with their laws.
- `directory.dfy` — the directory as a value (`Snapshot`), its invariant, the pure reads
  (payload, get, lookup, list agents, list clients, stats) and the specification of
  each mutation (`Registered`, `Merge`/`StatusUpdated`, `Deleted`).
- `query.dfy` — the search filter and its law.
- `engine.dfy` — class `Registry`: the dictionaries as fields, and the handlers that
  change them in place (`Register`, `UpdateAgentStatus`, `DeleteAgent` with its two
  loops) plus the search loop. Each method's postcondition ties the new state to the
  specification function of `directory.dfy`.
- `findings.dfy` — `register` on the service's single-dictionary layout, for the finding below.
- `scenarios.dfy` — consequences a caller can observe: the partial-merge law, the
  capability/tag filter law on a concrete query, a register/update/search scenario and
  an alias lookup through the class.

Modelling choices:

- The reserved keys are kept out of the key spaces: `Snapshot.Valid` says that
  `"agent_status"` is never an agent id and `"agent_map"` never a client name, that agent
  ids are unique (the key order has no duplicates), and that every agent has one status
  record and every client one alias entry. Every mutation preserves it.
- Python dictionaries remember insertion order; the agent map's order is the field
  `order`, and search results follow it. Re-registering keeps an agent's place.
- Request bodies are JSON objects (`map<string, Json>`), so the type guards of the status
  update (`isinstance(..., list)`, `isinstance(..., str)`) and the `bool(...)` coercion of
  `alive` are modelled as written.
- `register` checks only that `agent_id` and `agent_url` are present; an empty id is
  accepted, as in the code.
- Inputs on which the code fails or misbehaves are turned into explicit failures:
  - `register` with `agent_id` equal to `"agent_status"` returns `InvalidAgentId` and
    changes nothing; the code overwrites the status map and then raises (see Findings).
  - `register` with a non-string `agent_id` returns `InvalidAgentId` and changes nothing.
    The code raises `TypeError` (unhashable key) for an array or object id before storing
    anything; a number, boolean or null id is stored, after which every search with a
    non-empty `q` raises on `.lower()`.
  - `lookup` of a client whose alias points at a missing agent returns `IdNotFound`; the
    code raises `KeyError`. An alias naming `"agent_status"` is the one dangling case the
    code answers (see "## Left out").
  - `lookup("agent_map")` returns `IdNotFound`.
- The clock (`datetime.now().isoformat()`) is the parameter `now`. Persistence
  (`save_registry`, `save_client_registry`) is a no-op, and the stats flag for it is the
  parameter `storeEnabled`.
- The service has no endpoint that adds clients; they come only from the startup load.
  `Registry.PutClient` mirrors one step of that load and is how the model builds
  directories with clients.

## Model

| member | source | states |
|---|---|---|
| `Directory.EmptyIsValid` | src/registry/registry.py:48-49 | the initial, empty directory satisfies the invariant |
| `Directory.BuildPayload` | src/registry/registry.py:146-159 | the payload carries the id, the stored URL (null if none), and every status field, each falling back to its default (not alive, null, empty lists, empty description) when the agent has no status record |
| `Directory.Get` | src/registry/registry.py:195-199 | succeeds exactly for an existing agent id (never the status sentinel), with that id, its URL, its alive flag, api_url, description, assigned_to, last_update, capabilities and tags, each defaulted as in `_build_agent_payload`; otherwise "Agent not found" |
| `Directory.GetAgreesWithLookup` | src/registry/registry.py:146-159 | for an agent id, `get` and `lookup` report the same URL, api_url and description |
| `Directory.GetAliveCounted` | src/registry/registry.py:133-136 | the alive flag `get` reports is exactly membership in the set of agents `stats` counts as alive |
| `Directory.Lookup` | src/registry/registry.py:284-311 | an agent id is answered with the agent's own URL, api_url and description; otherwise a client name whose alias resolves is answered with the aliased agent's id, URL and description and the client's api_url; everything else, dangling aliases included, is not found |
| `Directory.AliasLookup` | src/registry/registry.py:298-309 | after adding a client that aliases an existing agent, looking up the client returns that agent with the client's endpoint, unless an agent has the client's name |
| `Directory.ListAgents` | src/registry/registry.py:314-317 | the listing has exactly the agent ids, sentinel excluded, each with its URL |
| `Directory.ListClients` | src/registry/registry.py:320-323 | the listing has exactly the client names, sentinel excluded, each reported "alive" |
| `Directory.DistinctCardinality` | src/registry/registry.py:132-133 | a duplicate-free key list is as long as its set of keys, so counting keys counts agents |
| `Directory.CountAlive` | src/registry/registry.py:136 | the alive count is the number of keys walked when every one is alive, and zero when none is |
| `Directory.CountAliveIsCardinality` | src/registry/registry.py:136 | summing 1 over the alive keys counts the set of alive agents |
| `Directory.CountAliveAtMost` | src/registry/registry.py:136 | the alive count never exceeds the number of keys counted |
| `Directory.Stats` | src/registry/registry.py:130-143 | total_agents is the number of agents, alive_agents the number of alive agents and at most total_agents, total_clients the number of clients |
| `Directory.ParseRegistration` | src/registry/registry.py:256-263 | "Missing agent_id or agent_url" exactly when either key is absent; otherwise the id and URL are taken from the request, api_url defaults to null and description to "" |
| `Directory.FreshStatus` | src/registry/registry.py:270-276 | a new status record is not alive, unassigned, stamped with the registration time, carries the request's api_url and description, and has no capabilities or tags |
| `Directory.Registered` | src/registry/registry.py:265-276 | registering keeps the invariant, adds the id to the agent keys, keeps the key order for a known id and appends a new id at the end, leaves every other agent and all clients untouched |
| `Directory.RegisterThenGet` | src/registry/registry.py:146-159 | right after registering, the payload is the request's URL, api_url and description with alive false, assigned_to null, last_update the registration time, and empty capabilities and tags |
| `Directory.RegisterIdempotent` | src/registry/registry.py:265-276 | registering the same request twice equals registering it once at the later time: re-registration overwrites, never duplicates |
| `Directory.Merge` | src/registry/registry.py:232-246 | alive is overwritten (coerced to bool) only when present, assigned_to only when present, capabilities and tags only when present and a list, description only when present and a string; last_update is always refreshed; api_url is kept |
| `Directory.MergeEmpty` | src/registry/registry.py:231-239 | an empty body changes only last_update |
| `Directory.MergeIdempotent` | src/registry/registry.py:234-246 | applying the same update twice equals applying it once at the later time |
| `Directory.StatusUpdated` | src/registry/registry.py:228-248 | a status update keeps the invariant and changes only the status record of its own agent |
| `Directory.UpdateLeavesOthers` | src/registry/registry.py:248 | a status update leaves every other agent's payload, every other agent's lookup and both listings unchanged, and changes the updated agent's lookup in its description only |
| `Directory.Without` | src/registry/registry.py:207 | removing a key from the key order keeps exactly the other keys and keeps them distinct |
| `Directory.WithoutAt` | src/registry/registry.py:207 | in a duplicate-free key order, removing a key cuts out its one position and keeps the other keys in their order |
| `Directory.Deleted` | src/registry/registry.py:204-218 | delete keeps the invariant, removes the agent and its status, removes exactly the clients aliasing it from both client maps, leaves all other agents and clients unchanged, keeps the remaining agents in their key order, and leaves no alias pointing at the deleted id |
| `Directory.DeleteUndoesRegister` | src/registry/registry.py:207-218 | deleting an agent right after registering it gives the same directory as deleting it without registering |
| `Directory.DeleteThenLookup` | src/registry/registry.py:211-218 | after delete, get of the agent is not found and lookup through a client that aliased it is not found |
| `Directory.WithClient` | src/registry/registry.py:71-76 | adding a client alias keeps the invariant and touches no agent |
| `JsonValue.Truthy` | src/registry/registry.py:234-235 | Python's `bool(...)` of a JSON value is false exactly on null, false, 0, the empty string, the empty list and the empty object |
| `JsonValue.FieldOr` | src/registry/registry.py:262-263 | `data.get(key, default)`: the field when present, the default otherwise |
| `Query.ParseFilter` | src/registry/registry.py:168-169 | an absent or empty filter is the empty list; otherwise one stripped entry per comma-separated piece, none containing a comma or starting with whitespace |
| `Query.ParseFilterEntries` | src/registry/registry.py:168-169 | entry i of a parsed filter is the i-th comma-separated piece with only leading and trailing whitespace removed, and ends in no whitespace |
| `Query.ParseCriteria` | src/registry/registry.py:164-169 | the query is the stripped `q` lower-cased: same length as the stripped text, each character the lower-case of the stripped character at that position, no capital letter, no whitespace at either end, empty when `q` is all whitespace; the filter lists are the parsed `capabilities` and `tags` |
| `Query.SharesValue` | src/registry/registry.py:180-188 | the in-order, short-circuiting `any(...)` holds exactly when some wanted string is among the agent's values |
| `Query.Matches` | src/registry/registry.py:175-188 | an agent passes exactly when the query is empty or occurs at some offset of its lower-cased id, and each non-empty filter list has an entry among its capabilities (tags) |
| `Query.Search` | src/registry/registry.py:162-192 | the search returns no more payloads than there are keys, only for agent keys and never for the status key, and on a valid directory no two results share an agent id |
| `Query.Selected` | src/registry/registry.py:173-188 | the loop never keeps the status key, and with no query and no filters it keeps every other key |
| `Query.ParseFilterJoin` | src/registry/registry.py:168-169 | a filter written as comma-joined, unpadded entries parses back to exactly those entries |
| `Query.Select` | src/registry/registry.py:171-190 | the selection is never longer than the key list it walks |
| `Query.SelectMembers` | src/registry/registry.py:171-190 | the results are exactly the payloads of the keys that pass all three filters, never the status sentinel |
| `Query.SelectStep` | src/registry/registry.py:172-190 | each further key of the walk appends its payload exactly when it passes the filters, so results keep key order |
| `Query.SelectOne` | src/registry/registry.py:172-190 | a single key is returned exactly when it passes the filters |
| `Query.SelectDistinct` | src/registry/registry.py:172 | with distinct keys, no agent appears twice in the results |
| `Query.SearchLaw` | src/registry/registry.py:175-188 | an agent is found exactly when the query is empty or a substring of its lower-cased id, AND the capability list is empty or shares a value with its capabilities, AND the same for tags |
| `Query.SearchOnlyAgents` | src/registry/registry.py:172-174 | every search result is a registered agent's payload |
| `Query.SelectUnfiltered` | src/registry/registry.py:171-190 | with no query and no filters, search returns every agent's payload in key order |
| `Text.Lower` | src/registry/registry.py:164 | lower-casing keeps the length, shifts each capital letter A-Z to its lower-case letter and leaves every other character as it is |
| `Text.LowerHasNoUpper` | src/registry/registry.py:164 | lower-casing keeps the length and leaves no upper-case letter |
| `Text.LowerIdempotent` | src/registry/registry.py:175 | lower-casing twice is lower-casing once |
| `Text.StripLeft` | src/registry/registry.py:164 | drops exactly the leading whitespace |
| `Text.StripRight` | src/registry/registry.py:164 | drops exactly the trailing whitespace |
| `Text.Strip` | src/registry/registry.py:168 | the input is whitespace, then the result, then whitespace; the result neither starts nor ends with whitespace |
| `Text.StripUnpadded` | src/registry/registry.py:168 | a string without surrounding whitespace is unchanged by strip |
| `Text.Split` | src/registry/registry.py:168 | splitting gives at least one piece and no piece contains the separator |
| `Text.JoinSplit` | src/registry/registry.py:168 | joining the pieces of a split with the separator gives back the string |
| `Text.SplitAfterPlainPrefix` | src/registry/registry.py:168 | a separator-free prefix stays whole in the first piece |
| `Text.SplitJoin` | src/registry/registry.py:168 | splitting a join of separator-free pieces gives back the pieces |
| `Text.Contains` | src/registry/registry.py:175 | the empty query is in every id, and a query found in an id is no longer than it |
| `Text.ContainsIff` | src/registry/registry.py:175 | the substring test holds exactly when the query occurs at some offset of the id |
| `Engine.CollectAliases` | src/registry/registry.py:211-214 | the collected names are exactly the clients whose alias equals the deleted id |
| `Engine.PopClients` | src/registry/registry.py:216-218 | popping each collected name removes exactly those names from both client maps |
| `Engine.SelectAgents` | src/registry/registry.py:171-190 | the loop's results are exactly the selection of `Query.Select` over the walked keys |
| `Engine.Registry.constructor` | src/registry/registry.py:48-49 | the registry starts empty and valid |
| `Engine.Registry.Register` | src/registry/registry.py:254-281 | a rejected request returns its error and changes nothing; an accepted one returns the id and leaves the directory as `Registered` describes |
| `Engine.Registry.UpdateAgentStatus` | src/registry/registry.py:226-251 | an unknown id returns "Agent not found" and changes nothing; otherwise the directory becomes `StatusUpdated` and the new payload is returned |
| `Engine.Registry.DeleteAgent` | src/registry/registry.py:202-223 | an unknown id returns "Agent not found" and changes nothing; otherwise the directory becomes `Deleted` and the id is returned |
| `Engine.Registry.Search` | src/registry/registry.py:162-192 | returns exactly the payloads of the agents, in key order, that pass the normalised query and filters |
| `Engine.Registry.PutClient` | src/registry/registry.py:71-76 | an empty name is skipped; otherwise the client's endpoint and alias are set |
| `RawRegistry.Raw` | src/registry/registry.py:48 | the single-dictionary layout holds every agent id, mapped to its URL, plus the reserved key, whose value is the status map |
| `RawRegistry.FreshRecord` | src/registry/registry.py:270-276 | the record written is the five-field JSON object with alive false and the registration time |
| `RawRegistry.RegisterAsWritten` | src/registry/registry.py:265-276 | as written, the URL is stored under the given id; the status write lands in whatever dictionary the reserved key then holds (a JSON-object URL included) and raises exactly when that value is not a dictionary: a non-object URL registered under the reserved id, or one already stored there |
| `RawRegistry.ReservedIdClobbersStatus` | src/registry/registry.py:265-270 | registering "agent_status" as written fails, yet has replaced the status map with the URL |
| `RawRegistry.RegisterAgrees` | src/registry/registry.py:265-276 | for every other id, the source's register and `Directory.Registered` give the same directory |
| `RawRegistry.StoredBesideStatus` | src/registry/registry.py:265-270 | with a status map in place and an ordinary id, the source stores the URL and the fresh record and raises nothing |
| `RawRegistry.LayoutStore` | src/registry/registry.py:265-270 | storing one URL and one record in the two maps matches storing them in the single dictionary |
| `Scenarios.AliveOnlyUpdate` | src/registry/registry.py:234-235 | setting only alive leaves capabilities, tags, description, api_url and assigned_to as they were |
| `Scenarios.IllTypedFieldsIgnored` | src/registry/registry.py:241-246 | capabilities or tags that are not lists and a description that is not a string are ignored, while last_update still moves |
| `Scenarios.ParseFilterXY` | src/registry/registry.py:168 | the filter "x,y" parses to the list x, y |
| `Scenarios.SharesOneOfTwo` | src/registry/registry.py:182 | a two-value filter matches exactly when either value is present |
| `Scenarios.CapabilityAndTagFilter` | src/registry/registry.py:180-188 | with capabilities "x,y" and tags "z", an agent is found exactly when it has capability x or y and tag z |
| `Scenarios.ReregisterKeepsCount` | src/registry/registry.py:265 | re-registering an existing id changes neither the agent count nor the listed ids |
| `Scenarios.EndToEnd` | src/registry/registry.py:162-192 | register agentA, set alive and tag "transit", search by that tag: exactly agentA is found, alive |

## Left out

- HTTP routing, JSON serialisation, CORS and status codes; the health and dashboard
  endpoints. Results are `Success`/`Failure` values instead.
- The MongoDB connection, the startup bulk load of agents, and the write-back functions
  `save_registry` and `save_client_registry`: foreign I/O whose exceptions the code
  swallows. They are no-ops here; only the per-document client step of the load is kept,
  as `Registry.PutClient`.
- `datetime.now()`: the timestamp is the parameter `now`.
- Request bodies that are not JSON objects, floating-point JSON numbers, and agent ids in
  `registry` that are not strings (see the `InvalidAgentId` policy above).
- Non-ASCII text: `lower()` and `strip()` are modelled on ASCII letters and ASCII
  whitespace only.
- Concurrent requests: the handlers are modelled as running one at a time.
- Directory.Lookup: a client whose alias names "agent_status" is answered `IdNotFound`; the
  code instead answers with agent id "agent_status", the whole status map as `agent_url`
  and an empty description, a reply the model does not reproduce because it leaks the
  reserved entry.
- Engine.Registry.PutClient: also skips the name "agent_map", which the startup load would
  write over the alias map.

## Findings

| source | as written | input that shows it | evidently intended | confidence | as-written member | corrected member |
|---|---|---|---|---|---|---|
| src/registry/registry.py:265-270 | `register` accepts the reserved id "agent_status": it stores the URL over the status map, then the status write raises, so the request fails after every agent's status record is lost | register `{"agent_id": "agent_status", "agent_url": "http://x"}` on any registry | refuse the reserved id and change nothing | not executed | RawRegistry.ReservedIdClobbersStatus | Directory.ParseRegistration |
