/**
 * `register` on the service's own layout, where the status map is the value of
 * the reserved key "agent_status" inside the very dictionary that maps agent
 * ids to URLs. It shows that registering the reserved id destroys the status
 * map, and that on every other id the two-map model of module Directory
 * agrees with it.
 */
module RawRegistry {
  import opened JsonValue
  import opened Directory

  /** A value of the single dictionary `registry`: an agent URL, or the status map under the reserved key. */
  datatype Entry = Url(url: Json) | StatusMap(records: map<string, Status>)

  /** A snapshot in the service's own layout. */
  function Raw(d: Snapshot): (raw: map<string, Entry>)
    ensures raw.Keys == d.agents.Keys + {AgentStatusKey}
    ensures raw[AgentStatusKey] == StatusMap(d.status)
    ensures forall id :: id in d.agents && id != AgentStatusKey ==> raw[id] == Url(d.agents[id])
  {
    Layout(d.agents, d.status)
  }

  /** The URL map with the status map stored under the reserved key. */
  function Layout(agents: map<string, Json>, status: map<string, Status>): (raw: map<string, Entry>)
    ensures raw.Keys == agents.Keys + {AgentStatusKey}
    ensures raw[AgentStatusKey] == StatusMap(status)
    ensures forall id :: id in agents && id != AgentStatusKey ==> raw[id] == Url(agents[id])
  {
    (map id | id in agents :: Url(agents[id]))[AgentStatusKey := StatusMap(status)]
  }

  /** The status record `register` writes, as the JSON object Python builds. */
  function FreshRecord(reg: Registration, now: string): (rec: Json)
    ensures rec.JObj? && rec.fields.Keys == {"alive", "assigned_to", "api_url", "description", "last_update"}
    ensures rec.fields["alive"] == JBool(false) && rec.fields["last_update"] == JStr(now)
  {
    JObj(map["alive" := JBool(false), "assigned_to" := JNull, "api_url" := reg.apiUrl,
             "description" := reg.description, "last_update" := JStr(now)])
  }

  /**
   * The body of `register` after its presence check, as written: the URL is
   * stored under the id, then the status record is written into whatever
   * `registry['agent_status']` now holds. A dictionary there takes the record
   * (a JSON object stored as a URL included); anything else makes the write
   * raise, and `out.1` is true.
   */
  function RegisterAsWritten(raw: map<string, Entry>, reg: Registration, now: string): (out: (map<string, Entry>, bool))
    ensures out.0.Keys == raw.Keys + {reg.agentId} + {AgentStatusKey}
    ensures reg.agentId != AgentStatusKey || !reg.agentUrl.JObj? ==> out.0[reg.agentId] == Url(reg.agentUrl)
    ensures reg.agentId == AgentStatusKey && reg.agentUrl.JObj? ==>
              out == (raw[AgentStatusKey := Url(JObj(reg.agentUrl.fields[AgentStatusKey := FreshRecord(reg, now)]))], false)
    ensures out.1 <==>
              if reg.agentId == AgentStatusKey then !reg.agentUrl.JObj?
              else AgentStatusKey in raw && raw[AgentStatusKey].Url? && !raw[AgentStatusKey].url.JObj?
  {
    var stored := raw[reg.agentId := Url(reg.agentUrl)];
    if AgentStatusKey !in stored then
      (stored[AgentStatusKey := StatusMap(map[reg.agentId := FreshStatus(reg, now)])], false)
    else
      match stored[AgentStatusKey]
      case StatusMap(records) => (stored[AgentStatusKey := StatusMap(records[reg.agentId := FreshStatus(reg, now)])], false)
      case Url(JObj(fields)) =>
        var updated := Url(JObj(fields[reg.agentId := FreshRecord(reg, now)]));
        assert reg.agentId == AgentStatusKey ==> stored[AgentStatusKey := updated] == raw[AgentStatusKey := updated];
        (stored[AgentStatusKey := updated], false)
      case Url(_) => (stored, true)
  }

  /**
   * Registering the reserved id as written: the request fails, yet the status
   * map has already been replaced by the URL, so every agent's status record
   * (alive, description, capabilities, ...) is gone.
   */
  lemma ReservedIdClobbersStatus(d: Snapshot, now: string)
    requires d.Valid()
    ensures var reg := Registration(AgentStatusKey, JStr("http://x"), JNull, JStr(""));
            var out := RegisterAsWritten(Raw(d), reg, now);
            && out.1
            && out.0[AgentStatusKey] == Url(JStr("http://x"))
            && out.0 != Raw(d)
  {
    var reg := Registration(AgentStatusKey, JStr("http://x"), JNull, JStr(""));
    var out := RegisterAsWritten(Raw(d), reg, now);
    assert Raw(d)[AgentStatusKey] == StatusMap(d.status);
    assert out.0[AgentStatusKey] == Url(JStr("http://x"));
  }

  /**
   * On every id other than the reserved one, the source's `register` and the
   * model's `Registered` produce the same directory, and the source raises
   * nothing.
   */
  lemma RegisterAgrees(d: Snapshot, reg: Registration, now: string)
    requires d.Valid() && reg.agentId != AgentStatusKey
    ensures RegisterAsWritten(Raw(d), reg, now) == (Raw(Registered(d, reg, now)), false)
  {
    var id := reg.agentId;
    var got := Raw(d)[id := Url(reg.agentUrl)][AgentStatusKey := StatusMap(d.status[id := FreshStatus(reg, now)])];
    StoredBesideStatus(Raw(d), reg, now, d.status);
    RawAfterRegister(d, reg, now, got);
  }

  /** With a status map in place and an ordinary id, the source stores the URL and the record and raises nothing. */
  lemma StoredBesideStatus(raw: map<string, Entry>, reg: Registration, now: string, records: map<string, Status>)
    requires reg.agentId != AgentStatusKey
    requires AgentStatusKey in raw && raw[AgentStatusKey] == StatusMap(records)
    ensures RegisterAsWritten(raw, reg, now) ==
            (raw[reg.agentId := Url(reg.agentUrl)][AgentStatusKey := StatusMap(records[reg.agentId := FreshStatus(reg, now)])], false)
  {
    assert raw[reg.agentId := Url(reg.agentUrl)][AgentStatusKey] == StatusMap(records);
  }

  /** Adding one agent to the two maps adds its URL and its record to the single dictionary. */
  lemma RawAfterRegister(d: Snapshot, reg: Registration, now: string, got: map<string, Entry>)
    requires d.Valid() && reg.agentId != AgentStatusKey
    requires got == Raw(d)[reg.agentId := Url(reg.agentUrl)][AgentStatusKey := StatusMap(d.status[reg.agentId := FreshStatus(reg, now)])]
    ensures got == Raw(Registered(d, reg, now))
  {
    var d' := Registered(d, reg, now);
    assert d'.agents == d.agents[reg.agentId := reg.agentUrl];
    assert d'.status == d.status[reg.agentId := FreshStatus(reg, now)];
    LayoutStore(d.agents, d.status, reg.agentId, reg.agentUrl, FreshStatus(reg, now));
  }

  /** Storing one URL and one record in the two maps stores them in the single dictionary. */
  lemma LayoutStore(agents: map<string, Json>, status: map<string, Status>, id: string, url: Json, rec: Status)
    requires id != AgentStatusKey
    ensures Layout(agents[id := url], status[id := rec]) ==
            Layout(agents, status)[id := Url(url)][AgentStatusKey := StatusMap(status[id := rec])]
  {
    var got := Layout(agents, status)[id := Url(url)][AgentStatusKey := StatusMap(status[id := rec])];
    var expected := Layout(agents[id := url], status[id := rec]);
    forall k | k in got
      ensures k in expected && got[k] == expected[k]
    {
    }
    assert got.Keys == expected.Keys;
  }
}
