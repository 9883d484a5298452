/**
 * The filter of `search_agents`: a name query matched as a case-insensitive
 * substring of the agent id, and two comma-separated filter lists, each
 * satisfied when it is empty or shares a value with the agent's list. An
 * agent is returned when all three hold; results follow the key order of the
 * agent map.
 */
module Query {
  import opened Wrappers
  import opened JsonValue
  import opened Text
  import opened Directory

  /** The normalised search request. */
  datatype Criteria = Criteria(query: string, capabilities: seq<string>, tags: seq<string>)

  /** `[c.strip() for c in f.split(',')] if f else []` */
  function ParseFilter(f: Option<string>): (r: seq<string>)
    ensures f == None || f == Some("") ==> r == []
    ensures f.Some? && f.value != "" ==> |r| == |Split(f.value, ',')| >= 1
    ensures forall i :: 0 <= i < |r| ==> ',' !in r[i] && (r[i] == [] || !IsSpace(r[i][0]))
  {
    if f == None || f == Some("") then []
    else
      var parts := Split(f.value, ',');
      seq(|parts|, i requires 0 <= i < |parts| => Strip(parts[i]))
  }

  /** A filter written as comma-joined, unpadded, comma-free entries parses back to those entries. */
  lemma ParseFilterJoin(entries: seq<string>)
    requires |entries| >= 1 && Join(entries, ',') != ""
    requires forall i :: 0 <= i < |entries| ==>
               ',' !in entries[i] && (entries[i] == [] || (!IsSpace(entries[i][0]) && !IsSpace(entries[i][|entries[i]| - 1])))
    ensures ParseFilter(Some(Join(entries, ','))) == entries
  {
    var joined := Join(entries, ',');
    SplitJoin(entries, ',');
    assert Split(joined, ',') == entries;
    UnpaddedEntries(entries);
    assert ParseFilter(Some(joined)) == seq(|entries|, i requires 0 <= i < |entries| => Strip(entries[i]));
  }

  /** Entries without surrounding whitespace are left alone by strip. */
  lemma UnpaddedEntries(entries: seq<string>)
    requires forall i :: 0 <= i < |entries| ==>
               entries[i] == [] || (!IsSpace(entries[i][0]) && !IsSpace(entries[i][|entries[i]| - 1]))
    ensures forall i :: 0 <= i < |entries| ==> Strip(entries[i]) == entries[i]
  {
    forall i | 0 <= i < |entries|
      ensures Strip(entries[i]) == entries[i]
    {
      StripUnpadded(entries[i]);
    }
  }

  /** Entry `i` of a parsed filter is the `i`-th comma-separated piece with its surrounding whitespace removed. */
  lemma ParseFilterEntries(f: Option<string>, i: int)
    requires f.Some? && f.value != "" && 0 <= i < |ParseFilter(f)|
    ensures exists k :: PaddedAt(Split(f.value, ',')[i], ParseFilter(f)[i], k)
    ensures ParseFilter(f)[i] == [] || !IsSpace(ParseFilter(f)[i][|ParseFilter(f)[i]| - 1])
  {
    assert ParseFilter(f)[i] == Strip(Split(f.value, ',')[i]);
  }

  /** The three request arguments: `q` (absent means ""), `capabilities` and `tags`. */
  function ParseCriteria(q: string, capabilities: Option<string>, tags: Option<string>): (c: Criteria)
    ensures |c.query| == |Strip(q)|
    ensures forall i :: 0 <= i < |c.query| ==> c.query[i] == LowerChar(Strip(q)[i])
    ensures forall i :: 0 <= i < |c.query| ==> !IsUpper(c.query[i])
    ensures c.query == [] || (!IsSpace(c.query[0]) && !IsSpace(c.query[|c.query| - 1]))
    ensures AllSpace(q) ==> c.query == ""
    ensures c.capabilities == ParseFilter(capabilities) && c.tags == ParseFilter(tags)
  {
    StripAllSpace(q);
    LowerAt(Strip(q));
    LowerHasNoUpper(Strip(q));
    LowerKeepsSpace(Strip(q));
    Criteria(Lower(Strip(q)), ParseFilter(capabilities), ParseFilter(tags))
  }

  /**
   * `any(c in have for c in wanted)` with `c` a string and `have` a JSON list,
   * walking `wanted` in order and stopping at the first hit.
   */
  predicate SharesValue(wanted: seq<string>, have: seq<Json>): (b: bool)
    ensures b <==> exists c :: c in wanted && JStr(c) in have
    decreases |wanted|
  {
    if wanted == [] then false
    else if JStr(wanted[0]) in have then true
    else
      assert forall c :: c in wanted ==> c == wanted[0] || c in wanted[1..];
      SharesValue(wanted[1..], have)
  }

  /**
   * The three conditions of the loop body, in the order the source tests them:
   * the query occurs somewhere in the lower-cased id, and each non-empty
   * filter list has an entry among the agent's values.
   */
  predicate Matches(d: Snapshot, id: string, crit: Criteria): (b: bool)
    ensures b <==>
              && (crit.query == "" || exists k :: OccursAt(Lower(id), crit.query, k))
              && (crit.capabilities == [] || exists i :: 0 <= i < |crit.capabilities| && JStr(crit.capabilities[i]) in BuildPayload(d, id).capabilities)
              && (crit.tags == [] || exists i :: 0 <= i < |crit.tags| && JStr(crit.tags[i]) in BuildPayload(d, id).tags)
  {
    var p := BuildPayload(d, id);
    ContainsIff(Lower(id), crit.query);
    && (crit.query == "" || Contains(Lower(id), crit.query))
    && (crit.capabilities == [] || SharesValue(crit.capabilities, p.capabilities))
    && (crit.tags == [] || SharesValue(crit.tags, p.tags))
  }

  /** The skip tests of the loop body: never the status key, and all three filters pass. */
  predicate Selected(d: Snapshot, id: string, crit: Criteria): (b: bool)
    ensures b ==> id != AgentStatusKey
    ensures crit == Criteria("", [], []) ==> (b <==> id != AgentStatusKey)
  {
    id != AgentStatusKey && Matches(d, id, crit)
  }

  /** The payloads of the selected ids, in the order of `ids`. */
  function Select(d: Snapshot, ids: seq<string>, crit: Criteria): (r: seq<Payload>)
    ensures |r| <= |ids|
    decreases |ids|
  {
    if ids == [] then []
    else
      var init := ids[..|ids| - 1];
      var last := ids[|ids| - 1];
      Select(d, init, crit) + (if Selected(d, last, crit) then [BuildPayload(d, last)] else [])
  }

  /**
   * The selection holds exactly the payloads of the ids that pass all three
   * filters, never the status sentinel.
   */
  lemma {:induction false} SelectMembers(d: Snapshot, ids: seq<string>, crit: Criteria)
    ensures forall p :: p in Select(d, ids, crit) ==>
              p.agentId in ids && Selected(d, p.agentId, crit) && p == BuildPayload(d, p.agentId)
    ensures forall id :: id in ids && Selected(d, id, crit) ==> BuildPayload(d, id) in Select(d, ids, crit)
    decreases |ids|
  {
    if ids != [] {
      var init := ids[..|ids| - 1];
      var last := ids[|ids| - 1];
      SelectMembers(d, init, crit);
      assert forall id :: id in ids ==> id in init || id == last;
      assert forall id :: id in init ==> id in ids;
    }
  }

  /** A single key is returned exactly when it is selected. */
  lemma SelectOne(d: Snapshot, id: string, crit: Criteria)
    ensures Select(d, [id], crit) == if Selected(d, id, crit) then [BuildPayload(d, id)] else []
  {
    assert [id][..0] == [];
  }

  /** One more key of the walk adds its payload when it is selected. */
  lemma SelectStep(d: Snapshot, ids: seq<string>, i: nat, crit: Criteria)
    requires i < |ids|
    ensures Select(d, ids[..i + 1], crit) ==
            Select(d, ids[..i], crit) + (if Selected(d, ids[i], crit) then [BuildPayload(d, ids[i])] else [])
  {
    assert ids[..i + 1][..i] == ids[..i];
  }

  /** `search_agents` over a snapshot. */
  function Search(d: Snapshot, crit: Criteria): (r: seq<Payload>)
    ensures |r| <= |d.order|
    ensures forall p :: p in r ==> p.agentId in d.order && p.agentId != AgentStatusKey
    ensures d.Valid() ==> forall i, j :: 0 <= i < j < |r| ==> r[i].agentId != r[j].agentId
  {
    SelectMembers(d, d.order, crit);
    if d.Valid() then
      SelectDistinct(d, d.order, crit);
      Select(d, d.order, crit)
    else
      Select(d, d.order, crit)
  }

  /** Each result stands for a distinct agent when the key list has no duplicates. */
  lemma {:induction false} SelectDistinct(d: Snapshot, ids: seq<string>, crit: Criteria)
    requires NoDuplicates(ids)
    ensures forall i, j :: 0 <= i < j < |Select(d, ids, crit)| ==>
              Select(d, ids, crit)[i].agentId != Select(d, ids, crit)[j].agentId
    decreases |ids|
  {
    if ids != [] {
      var init := ids[..|ids| - 1];
      var last := ids[|ids| - 1];
      assert NoDuplicates(init);
      SelectDistinct(d, init, crit);
      SelectMembers(d, init, crit);
      assert last !in init;
    }
  }

  /**
   * The search law: an agent is in the result exactly when it passes the name
   * filter AND shares a value with each non-empty filter list.
   */
  lemma SearchLaw(d: Snapshot, crit: Criteria, id: string)
    requires d.Valid() && id in d.agents
    ensures BuildPayload(d, id) in Search(d, crit) <==>
              && (crit.query == "" || Contains(Lower(id), crit.query))
              && (crit.capabilities == [] || SharesValue(crit.capabilities, BuildPayload(d, id).capabilities))
              && (crit.tags == [] || SharesValue(crit.tags, BuildPayload(d, id).tags))
  {
    SelectMembers(d, d.order, crit);
  }

  /** Every result is a registered agent. */
  lemma SearchOnlyAgents(d: Snapshot, crit: Criteria)
    requires d.Valid()
    ensures forall p :: p in Search(d, crit) ==> p.agentId in d.agents && p == BuildPayload(d, p.agentId)
  {
    SelectMembers(d, d.order, crit);
  }

  /** No filter at all returns every agent, in key order. */
  lemma {:induction false} SelectUnfiltered(d: Snapshot, ids: seq<string>)
    requires AgentStatusKey !in ids
    ensures Select(d, ids, Criteria("", [], [])) == seq(|ids|, i requires 0 <= i < |ids| => BuildPayload(d, ids[i]))
    decreases |ids|
  {
    if ids != [] {
      SelectUnfiltered(d, ids[..|ids| - 1]);
    }
  }
}
