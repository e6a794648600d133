/**
  What the route handlers share: the value of a field of a parsed JSON body (only its
  JavaScript type and truthiness matter to the validation), the no-cache response headers,
  responses, and the ordered log of side effects a handler performs.
 */
module Http {
  import opened Wrappers
  import opened Text
  import opened SseBus
  import opened GSheets

  /** A field of a parsed request body: missing (`undefined`), a string, or any other
      JSON value, of which only its truthiness is observed. */
  datatype Value = Absent | Str(s: string) | Other(truthy: bool)

  /** `typeof v === "string" ? v.trim() : ""`. */
  function TrimmedOrEmpty(v: Value): string {
    if v.Str? then Trim(v.s) else ""
  }

  /** What the handlers rely on: the value is already trimmed, and it is empty exactly
      when the field is not a string or holds only white space. */
  lemma {:induction false} TrimmedOrEmptySpec(v: Value)
    ensures Trim(TrimmedOrEmpty(v)) == TrimmedOrEmpty(v)
    ensures TrimmedOrEmpty(v) == "" <==> !v.Str? || AllSpace(v.s)
  {
    if v.Str? {
      TrimIdempotent(v.s);
      TrimEmptyIff(v.s);
    }
  }

  /** `typeof v === "string" ? v : ""`. */
  function StringOrEmpty(v: Value): string {
    if v.Str? then v.s else ""
  }

  /** JavaScript truthiness: a non-empty string, or a non-string value that is truthy. */
  predicate Truthy(v: Value) {
    match v
    case Absent => false
    case Str(s) => s != ""
    case Other(t) => t
  }

  datatype Headers = Headers(cacheControl: string, pragma: string, expires: string)

  /** The `Cache-Control` of the insert, update and webhook routes. */
  const NoStoreNoCache: string := "no-store, no-cache, must-revalidate"
  /** The `Cache-Control` of the delete and range routes. */
  const NoStoreMaxAge0: string := "no-store, max-age=0, must-revalidate"

  /** `noCache(status)`'s headers: the three cache-suppression directives. */
  function NoCache(cacheControl: string): (h: Headers)
    ensures h.pragma == "no-cache" && h.expires == "0" && h.cacheControl == cacheControl
  {
    Headers(cacheControl, "no-cache", "0")
  }

  /** The JSON bodies the handlers answer with. */
  datatype Json = ErrorJson(error: string) | EventJson(event: GSEvent) | EventsJson(events: seq<GSEvent>)
                | OkJson | Null

  datatype Response = Response(status: nat, body: Json, headers: Headers)

  /** Every route's `OPTIONS()`: an empty 204 answer with that route's no-cache headers
      (`NoStoreNoCache` for insert, update and webhook, `NoStoreMaxAge0` for delete and range). */
  function Options(cacheControl: string): Response {
    Response(204, Null, NoCache(cacheControl))
  }

  /** The five values of the `EventType` union. */
  const EventTypes: seq<string> := ["Reservierung", "Veranstaltung", "Wartung", "Reparatur", "Sonstiges"]

  /** `isEventType(v)`, and `TYPES.includes(v)`, whose strict equality rejects non-strings. */
  predicate IsEventType(v: Value) {
    v.Str? && v.s in EventTypes
  }

  /** A label is a non-empty string, so every event type passes the `!type` test. */
  lemma EventTypeIsTruthy(v: Value)
    ensures IsEventType(v) ==> Truthy(v)
  {
  }

  /** A string is accepted exactly when it is one of the five labels. */
  lemma EventTypeLabels(t: string)
    ensures IsEventType(Str(t)) <==> t == "Reservierung" || t == "Veranstaltung" || t == "Wartung"
                                     || t == "Reparatur" || t == "Sonstiges"
    ensures !IsEventType(Str("reservierung")) && !IsEventType(Str(""))
  {
  }

  /** A side effect of a handler, in the order the handler performs it. */
  datatype Effect = StoreCall | Emit(payload: Payload)

  /** How many `Emit`s a log holds. */
  function Emits(log: seq<Effect>): nat {
    if log == [] then 0 else (if log[0].Emit? then 1 else 0) + Emits(log[1..])
  }
}
