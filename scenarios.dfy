/**
 * Concrete and general consequences of the registry's contracts, as a caller
 * of the service would observe them.
 */
module Scenarios {
  import opened Wrappers
  import opened JsonValue
  import opened Text
  import opened Directory
  import Query
  import Engine

  /** Setting only `alive` leaves capabilities, tags and description as they were. */
  lemma AliveOnlyUpdate(d: Snapshot, id: string, now: string)
    requires d.Valid() && id in d.agents
    ensures var before := Get(d, id).value;
            var after := Get(StatusUpdated(d, id, map["alive" := JBool(true)], now), id).value;
            && after.alive
            && after.capabilities == before.capabilities
            && after.tags == before.tags
            && after.description == before.description
            && after.apiUrl == before.apiUrl
            && after.assignedTo == before.assignedTo
  {
  }

  /** A capability or tag value of the wrong JSON type is ignored; the timestamp still moves. */
  lemma IllTypedFieldsIgnored(s: Status, now: string)
    ensures Merge(s, map["capabilities" := JStr("x"), "tags" := JNum(1), "description" := JNull], now)
            == s.(lastUpdate := now)
  {
  }

  lemma ParseFilterXY()
    ensures Query.ParseFilter(Some("x,y")) == ["x", "y"]
  {
    assert Join(["x", "y"], ',') == "x,y";
    Query.ParseFilterJoin(["x", "y"]);
  }

  lemma ParseFilterZ()
    ensures Query.ParseFilter(Some("z")) == ["z"]
  {
    assert Join(["z"], ',') == "z";
    Query.ParseFilterJoin(["z"]);
  }

  lemma EmptyQuery()
    ensures Lower(Strip("")) == ""
  {
    StripUnpadded("");
  }

  lemma SharesOneOfTwo(a: string, b: string, have: seq<Json>)
    ensures Query.SharesValue([a, b], have) <==> JStr(a) in have || JStr(b) in have
  {
    if JStr(a) in have {
      assert a in [a, b];
    }
    if JStr(b) in have {
      assert b in [a, b];
    }
  }

  lemma SharesOne(a: string, have: seq<Json>)
    ensures Query.SharesValue([a], have) <==> JStr(a) in have
  {
    if JStr(a) in have {
      assert a in [a];
    }
  }

  /**
   * `capabilities=x,y&tags=z` returns exactly the agents whose capabilities
   * hold "x" or "y" and whose tags hold "z".
   */
  lemma CapabilityAndTagFilter(d: Snapshot, id: string)
    requires d.Valid() && id in d.agents
    ensures var crit := Query.ParseCriteria("", Some("x,y"), Some("z"));
            var p := BuildPayload(d, id);
            p in Query.Search(d, crit) <==>
              (JStr("x") in p.capabilities || JStr("y") in p.capabilities) && JStr("z") in p.tags
  {
    ParseFilterXY();
    ParseFilterZ();
    EmptyQuery();
    var crit := Query.ParseCriteria("", Some("x,y"), Some("z"));
    assert crit == Query.Criteria("", ["x", "y"], ["z"]);
    Query.SearchLaw(d, crit, id);
    var p := BuildPayload(d, id);
    SharesOneOfTwo("x", "y", p.capabilities);
    SharesOne("z", p.tags);
  }

  lemma ParseFilterTransit()
    ensures Query.ParseFilter(Some("transit")) == ["transit"]
  {
    assert Join(["transit"], ',') == "transit";
    Query.ParseFilterJoin(["transit"]);
  }

  /** Re-registering an existing id never adds a second entry. */
  lemma ReregisterKeepsCount(d: Snapshot, reg: Registration, now: string)
    requires d.Valid() && reg.agentId != AgentStatusKey && reg.agentId in d.agents
    ensures Stats(Registered(d, reg, now), false).totalAgents == Stats(d, false).totalAgents
    ensures ListAgents(Registered(d, reg, now)).Keys == ListAgents(d).Keys
  {
  }

  /** The status record of agentA after registration and the status update. */
  function TransitStatus(now2: string): Status {
    Status(true, JNull, JNull, JStr(""), now2, None, Some([JStr("transit")]))
  }

  lemma TransitState(now1: string, now2: string)
    ensures var reg := Registration("agentA", JStr("http://a"), JNull, JStr(""));
            var data := map["alive" := JBool(true), "tags" := JArr([JStr("transit")])];
            StatusUpdated(Registered(Empty, reg, now1), "agentA", data, now2) ==
              Snapshot(["agentA"], map["agentA" := JStr("http://a")], map["agentA" := TransitStatus(now2)], map[], map[])
  {
    EmptyIsValid();
    var reg := Registration("agentA", JStr("http://a"), JNull, JStr(""));
    var d1 := Registered(Empty, reg, now1);
    assert d1 == Snapshot(["agentA"], map["agentA" := JStr("http://a")], map["agentA" := FreshStatus(reg, now1)], map[], map[]);
  }

  lemma TransitSearch(now2: string)
    ensures var d := Snapshot(["agentA"], map["agentA" := JStr("http://a")], map["agentA" := TransitStatus(now2)], map[], map[]);
            Query.Search(d, Query.ParseCriteria("", None, Some("transit"))) == [BuildPayload(d, "agentA")]
  {
    var d := Snapshot(["agentA"], map["agentA" := JStr("http://a")], map["agentA" := TransitStatus(now2)], map[], map[]);
    var crit := Query.ParseCriteria("", None, Some("transit"));
    ParseFilterTransit();
    EmptyQuery();
    assert crit == Query.Criteria("", [], ["transit"]);
    assert BuildPayload(d, "agentA").tags == [JStr("transit")];
    assert Query.Selected(d, "agentA", crit) by {
      assert "transit" in crit.tags;
    }
    Query.SelectOne(d, "agentA", crit);
  }

  /**
   * Register "agentA", mark it alive with tag "transit", then search by that
   * tag: the only result is agentA, alive.
   */
  lemma EndToEnd(now1: string, now2: string)
    ensures var reg := Registration("agentA", JStr("http://a"), JNull, JStr(""));
            var d1 := Registered(Empty, reg, now1);
            var d2 := StatusUpdated(d1, "agentA", map["alive" := JBool(true), "tags" := JArr([JStr("transit")])], now2);
            var found := Query.Search(d2, Query.ParseCriteria("", None, Some("transit")));
            |found| == 1 && found[0].agentId == "agentA" && found[0].alive
  {
    TransitState(now1, now2);
    TransitSearch(now2);
  }

  /** The alias scenario through the engine: lookup of "C1" gives agent A1's URL and the alias's endpoint. */
  method AliasScenario(u: Json, v: Json, now: string)
  {
    var r := new Engine.Registry();
    var reg := r.Register(map["agent_id" := JStr("A1"), "agent_url" := u], now);
    assert reg == Success("A1");
    var ok := r.PutClient("C1", v, "A1");
    assert ok;
    var view := Lookup(r.Current(), "C1");
    assert view == Success(View("A1", u, v, JStr("")));
    var gone := r.DeleteAgent("A1");
    assert gone == Success("A1");
    assert Lookup(r.Current(), "C1") == Failure(IdNotFound);
    assert "C1" !in ListClients(r.Current());
  }
}
