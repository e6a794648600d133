/**
  `POST /api/events/webhook` (app/api/events/webhook/route.ts): compare a shared secret,
  taken from the `x-webhook-secret` header or else the `secret` query parameter, with
  `WEBHOOK_SECRET`, and notify the bus when they match. `null` (an absent header,
  parameter or variable) is None.
 */
module WebhookRoute {
  import opened Wrappers
  import opened SseBus
  import opened Http

  const UnauthorizedMessage := "unauthorized"

  /** `a || b`, for `string | null | undefined` operands. */
  function OrElse(a: Option<string>, b: string): string {
    if a.Some? && a.value != "" then a.value else b
  }

  /** `process.env.WEBHOOK_SECRET || ""`. */
  function Configured(env: Option<string>): (s: string)
    ensures s == "" <==> env.None? || env.value == ""
  {
    OrElse(env, "")
  }

  /** `header || query || ""`: the first non-empty one of the two, else "". */
  function Provided(header: Option<string>, query: Option<string>): (s: string)
    ensures header.Some? && header.value != "" ==> s == header.value
    ensures (header.None? || header.value == "") && query.Some? && query.value != "" ==> s == query.value
    ensures s == "" <==> (header.None? || header.value == "") && (query.None? || query.value == "")
  {
    OrElse(header, OrElse(query, ""))
  }

  /** `!(!secret || provided !== secret)`. */
  predicate Authorised(secret: string, provided: string) {
    secret != "" && provided == secret
  }

  /** With no configured secret nothing is authorised, an empty provided secret included;
      otherwise a request is authorised exactly when its header, or its query parameter
      when the header is empty or absent, carries the secret. */
  lemma AuthorisedIff(env: Option<string>, header: Option<string>, query: Option<string>)
    ensures Configured(env) == "" ==> !Authorised(Configured(env), Provided(header, query))
    ensures Authorised(Configured(env), Provided(header, query))
            <==> && env.Some? && env.value != ""
                 && ((header.Some? && header.value == env.value)
                     || ((header.None? || header.value == "") && query.Some? && query.value == env.value))
  {
  }

  /** A non-empty header wins even when it is wrong and the query parameter is right. */
  lemma HeaderShadowsQuery(secret: string, wrong: string)
    requires secret != "" && wrong != "" && wrong != secret
    ensures !Authorised(Configured(Some(secret)), Provided(Some(wrong), Some(secret)))
  {
  }

  /** `POST(req)`. */
  method Post(bus: Bus, env: Option<string>, header: Option<string>, query: Option<string>,
              throwing: set<ListenerId>)
    returns (resp: Response, log: seq<Effect>)
    requires bus.Valid()
    modifies bus
    ensures bus.Valid() && bus.listeners == old(bus.listeners)
    ensures resp.headers == NoCache(NoStoreNoCache)
    ensures !Authorised(Configured(env), Provided(header, query)) ==>
              resp.status == 401 && resp.body == ErrorJson(UnauthorizedMessage) && log == []
    ensures Authorised(Configured(env), Provided(header, query)) ==>
              resp.status == 200 && resp.body == OkJson && log == [Emit(Changed)]
  {
    var secret := Configured(env);
    var provided := Provided(header, query);
    if secret == "" || provided != secret {
      return Response(401, ErrorJson(UnauthorizedMessage), NoCache(NoStoreNoCache)), [];
    }
    var _ := bus.Emit(Changed, map[], throwing);
    EmitKeepsSet(old(bus.listeners), old(bus.listeners));
    resp, log := Response(200, OkJson, NoCache(NoStoreNoCache)), [Emit(Changed)];
  }
}
