/**
 * The server-list pipeline of route.ts: parse the upstream body directly,
 * else parse the repaired text, else fall back on permissive extraction;
 * and the GET handler's split between a 200 reply carrying
 * `serversData["list servers"]` and a 500 reply.
 */
module ServerList {
  import opened Wrappers
  import opened Json
  import opened EntryRepair
  import opened PermissiveExtraction

  /**
   * What `parseServersJson` resolves to for the body `text`. The last
   * resort never throws, so neither does the chain: the
   * "Unable to parse server data" error is never raised.
   */
  function ParseServers(parse: Parser, text: string): Json {
    match parse(text)
    case Some(parsed) => parsed
    case None =>
      match parse(RepairedText(parse, text))
      case Some(parsed) => parsed
      case None => PermissiveJson(parse, text)
  }

  /** The three attempts of `parseServersJson`, in order. */
  method ParseServersJson(parse: Parser, text: string) returns (parsed: Json)
    ensures parsed == ParseServers(parse, text)
  {
    var direct := parse(text);
    if direct.Some? {
      return direct.value;
    }
    var fixedJson := FixMalformedJsonEntries(parse, text);
    var repaired := parse(fixedJson);
    if repaired.Some? {
      return repaired.value;
    }
    parsed := ExtractServersPermissive(parse, text);
  }

  /** The `{"list servers": {...}}` object the permissive fallback builds. */
  predicate ServerListShape(v: Json) {
    && v.JObject?
    && v.fields.Keys == {"list servers"}
    && v.fields["list servers"].JObject?
  }

  /**
   * A body that does not parse and does not have the wrapper shape is
   * returned unchanged by the repair, so the repaired parse fails too and
   * the result is the permissive extraction.
   */
  lemma UnwrappedGoesPermissive(parse: Parser, text: string)
    requires parse(text).None? && MatchWrapper(text).None?
    ensures ParseServers(parse, text) == PermissiveJson(parse, text)
  {
    RepairOutput(parse, text);
  }

  /**
   * Unless one of the two parses succeeds, the result is a
   * `{"list servers": {...}}` object whose keys are `a.b.c.d:port` keys,
   * each holding the object of the fields found for it.
   */
  lemma FallbackShape(parse: Parser, text: string)
    requires parse(text).None? && parse(RepairedText(parse, text)).None?
    ensures ServerListShape(ParseServers(parse, text))
    ensures var list := ParseServers(parse, text).fields["list servers"].fields;
      forall key :: key in list ==>
        && key in PermissiveServers(parse, text)
        && list[key] == RecordJson(PermissiveServers(parse, text)[key])
        && exists g :: IpPortGroups(g) && key + "\"" == Spell(g, KeySeps)
  {
    var list := ParseServers(parse, text).fields["list servers"].fields;
    forall key | key in list
      ensures exists g :: IpPortGroups(g) && key + "\"" == Spell(g, KeySeps)
    {
      PermissiveKeys(parse, text, key);
    }
  }

  /**
   * A body on which both parses fail and that holds no key match at all
   * gives an empty server list rather than an error, wrapped or not.
   */
  lemma NoKeysEmptyList(parse: Parser, text: string)
    requires parse(text).None? && parse(RepairedText(parse, text)).None?
    requires forall p: nat :: KeySignatureAt(text, p).None?
    ensures ParseServers(parse, text) == JObject(map["list servers" := JObject(map[])])
  {
    var servers := PermissiveServers(parse, text);
    forall key | key in servers ensures false {
      PermissiveExact(parse, text, key);
    }
    assert servers == map[];
    assert ServersJson(servers) == map[];
  }

  /** The upstream fetch: no response at all (network error, timeout), or a status and a body. */
  datatype Upstream = NoResponse | Response(status: int, body: string)

  /** The handler's reply: 200 with `data`, undefined when the list is missing, or 500. */
  datatype Reply = Ok(data: Option<Json>) | Failed

  function StatusCode(r: Reply): (code: nat)
    ensures code == 200 || code == 500
  {
    if r.Ok? then 200 else 500
  }

  /**
   * The GET handler. A missing response or a status outside 200-299 is an
   * error; so is a parsed value of null, whose `["list servers"]` read
   * throws. Anything else is a success carrying that property.
   */
  function Respond(parse: Parser, up: Upstream): Reply {
    if up.NoResponse? || !(200 <= up.status <= 299) then Failed
    else
      var serversData := ParseServers(parse, up.body);
      if serversData.JNull? then Failed else Ok(Property(serversData, "list servers"))
  }

  /** `GET`, with the fetch done by the caller. */
  method Get(parse: Parser, up: Upstream) returns (reply: Reply)
    ensures reply == Respond(parse, up)
  {
    if up.NoResponse? || !(200 <= up.status <= 299) {
      return Failed;
    }
    var serversData := ParseServersJson(parse, up.body);
    if serversData.JNull? {
      return Failed;
    }
    reply := Ok(Property(serversData, "list servers"));
  }

  /**
   * With a 2xx response the handler fails only when one of the two real
   * parses yields null: the permissive fallback always gives an object.
   */
  lemma FailsOnlyOnNull(parse: Parser, up: Upstream)
    requires up.Response? && 200 <= up.status <= 299
    ensures Respond(parse, up).Failed? <==>
      parse(up.body) == Some(JNull)
      || (parse(up.body).None? && parse(RepairedText(parse, up.body)) == Some(JNull))
  {
  }

  /**
   * A 2xx body that is neither valid JSON nor wrapper-shaped is answered
   * with 200 and exactly the servers the permissive extraction finds.
   */
  lemma MalformedStillServed(parse: Parser, up: Upstream)
    requires up.Response? && 200 <= up.status <= 299
    requires parse(up.body).None? && MatchWrapper(up.body).None?
    ensures Respond(parse, up) == Ok(Some(JObject(ServersJson(PermissiveServers(parse, up.body)))))
    ensures StatusCode(Respond(parse, up)) == 200
  {
    UnwrappedGoesPermissive(parse, up.body);
  }
}
