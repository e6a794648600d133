/**
  `POST /api/events/insert` (app/api/events/insert/route.ts): read the JSON body, trim
  `title` and `date`, run four checks in a fixed order, append the event to the sheet
  and then notify the bus with no payload. `crypto.randomUUID()` and the sheet's
  timestamp are parameters.
 */
module InsertRoute {
  import opened Wrappers
  import opened Text
  import opened SseBus
  import opened GSheets
  import opened Http

  /** The fields of the request body the handler looks at. */
  datatype Body = Body(title: Value, date: Value, kind: Value, description: Value)

  /** `body?.x` when `req.json()` produced `null` or a non-object: every field is missing. */
  const EmptyBody := Body(Absent, Absent, Absent, Absent)

  const RequiredMessage := "title, date, type are required"
  const DateMessage := "date must be YYYY-MM-DD"
  const TypeMessage := "type is invalid"
  const ShortMessage := "title is too short"

  /** The validation chain over the trimmed title and date and the raw type: the message
      of the first check that fails, or None when the event is accepted. */
  function Rejection(title: string, date: string, kind: Value): (err: Option<string>)
    ensures err.None? <==> IsDateShape(date) && IsEventType(kind) && Utf16Length(title) >= 2
    ensures err == Some(RequiredMessage) <==> title == "" || date == "" || !Truthy(kind)
    ensures err == Some(DateMessage) <==> title != "" && date != "" && Truthy(kind) && !IsDateShape(date)
    ensures err == Some(TypeMessage)
            <==> title != "" && date != "" && Truthy(kind) && IsDateShape(date) && !IsEventType(kind)
    ensures err == Some(ShortMessage) <==> Utf16Length(title) == 1 && IsDateShape(date) && IsEventType(kind)
  {
    if title == "" || date == "" || !Truthy(kind) then Some(RequiredMessage)
    else if !IsDateShape(date) then Some(DateMessage)
    else if !IsEventType(kind) then Some(TypeMessage)
    else if Utf16Length(title) < 2 then Some(ShortMessage)
    else None
  }

  /** A title of one character below U+10000 passes the first three checks and fails
      only the last; one character above, such as an emoji, is two code units long and
      is accepted. */
  lemma OneCharacterTitleRejected(c: char)
    ensures Rejection([c], "2025-03-01", Str("Wartung")) == Some(ShortMessage) <==> c <= '\U{FFFF}'
    ensures Rejection([c], "2025-03-01", Str("Wartung")).None? <==> c > '\U{FFFF}'
    ensures Rejection("\U{1F981}", "2025-03-01", Str("Wartung")).None?
  {
    assert IsDateShape("2025-03-01") by {
      assert AllDigits("2025-03-01"[..4]) && AllDigits("2025-03-01"[5..7]) && AllDigits("2025-03-01"[8..]);
    }
    OneCharacterLength(c);
  }

  /** The date is checked by shape only: 30 February is accepted. */
  lemma NoCalendarCheck()
    ensures IsDateShape("2025-02-30")
    ensures Rejection("Zoo", "2025-02-30", Str("Sonstiges")).None?
  {
    assert AllDigits("2025-02-30"[..4]) && AllDigits("2025-02-30"[5..7]) && AllDigits("2025-02-30"[8..]);
  }

  /** A truthy type that is not a string passes the required check and is then invalid;
      a falsy one is reported as missing. */
  lemma NonStringType(title: string, date: string)
    requires Utf16Length(title) >= 2 && IsDateShape(date)
    ensures Rejection(title, date, Other(true)) == Some(TypeMessage)
    ensures Rejection(title, date, Other(false)) == Some(RequiredMessage)
    ensures Rejection(title, date, Str("Unknown")) == Some(TypeMessage)
  {
  }

  /** `POST(req)`. `body` is the outcome of `req.json()`; `fault` is the error `insertEvent`
      throws, if it does; `throwing` are the bus listeners that throw when notified. */
  method Post(sheet: Sheet, bus: Bus, body: Result<Body>, id: string, now: string,
              fault: Option<string>, throwing: set<ListenerId>)
    returns (resp: Response, log: seq<Effect>)
    requires sheet.Valid() && bus.Valid()
    modifies sheet, bus
    ensures sheet.Valid() && bus.Valid() && bus.listeners == old(bus.listeners)
    ensures resp.headers == NoCache(NoStoreNoCache)
    ensures body.Err? ==> resp.status == 500 && resp.body == ErrorJson(body.message)
                          && log == [] && sheet.grid == old(sheet.grid)
    ensures body.Ok? ==>
      var title, date, kind := TrimmedOrEmpty(body.value.title), TrimmedOrEmpty(body.value.date), body.value.kind;
      var ev := NewEvent(id, title, date, StringOrEmpty(kind), Some(StringOrEmpty(body.value.description)));
      && (Rejection(title, date, kind).Some? ==>
            && resp.status == 400 && resp.body == ErrorJson(Rejection(title, date, kind).value)
            && log == [] && sheet.grid == old(sheet.grid))
      && (Rejection(title, date, kind).None? && fault.Some? ==>
            && resp.status == 500 && resp.body == ErrorJson(fault.value)
            && log == [StoreCall] && sheet.grid == old(sheet.grid))
      && (Rejection(title, date, kind).None? && fault.None? ==>
            && resp.status == 200
            && resp.body == EventJson(GSEvent(id, title, date, kind.s, StringOrEmpty(body.value.description), now))
            && log == [StoreCall, Emit(NoPayload)]
            && sheet.Data() == old(sheet.Data()) + [InsertedRow(ev, now)])
  {
    if body.Err? {
      return Response(500, ErrorJson(body.message), NoCache(NoStoreNoCache)), [];
    }
    var title := TrimmedOrEmpty(body.value.title);
    var date := TrimmedOrEmpty(body.value.date);
    var kind := body.value.kind;
    var description := StringOrEmpty(body.value.description);
    var err := Rejection(title, date, kind);
    if err.Some? {
      return Response(400, ErrorJson(err.value), NoCache(NoStoreNoCache)), [];
    }
    var saved := sheet.InsertEvent(NewEvent(id, title, date, kind.s, Some(description)), now, fault);
    log := [StoreCall];
    if saved.Err? {
      return Response(500, ErrorJson(saved.message), NoCache(NoStoreNoCache)), log;
    }
    var _ := bus.Emit(NoPayload, map[], throwing);
    EmitKeepsSet(old(bus.listeners), old(bus.listeners));
    log := log + [Emit(NoPayload)];
    resp := Response(200, EventJson(saved.value), NoCache(NoStoreNoCache));
  }
}
