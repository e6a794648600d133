/**
  `POST /api/events/update` (app/api/events/update/route.ts): trim `id`, `title` and
  `date`, check them (no minimum title length here), overwrite the first row with that
  id, answer 404 when there is none, and otherwise notify the bus with the id.
 */
module UpdateRoute {
  import opened Wrappers
  import opened Text
  import opened SseBus
  import opened GSheets
  import opened Http

  datatype Body = Body(id: Value, title: Value, date: Value, kind: Value, description: Value)

  const RequiredMessage := "id, title, date, type are required"
  const DateMessage := "date must be YYYY-MM-DD"
  const TypeMessage := "type is invalid"
  const NotFoundMessage := "not found"

  /** The validation chain: the message of the first failing check, or None. */
  function Rejection(id: string, title: string, date: string, kind: Value): (err: Option<string>)
    ensures err.None? <==> id != "" && title != "" && IsDateShape(date) && IsEventType(kind)
    ensures err == Some(RequiredMessage) <==> id == "" || title == "" || date == "" || !Truthy(kind)
    ensures err == Some(DateMessage)
            <==> id != "" && title != "" && date != "" && Truthy(kind) && !IsDateShape(date)
    ensures err == Some(TypeMessage)
            <==> id != "" && title != "" && Truthy(kind) && IsDateShape(date) && !IsEventType(kind)
  {
    if id == "" || title == "" || date == "" || !Truthy(kind) then Some(RequiredMessage)
    else if !IsDateShape(date) then Some(DateMessage)
    else if !IsEventType(kind) then Some(TypeMessage)
    else None
  }

  /** Unlike insert, a one-character title is accepted. */
  lemma OneCharacterTitleAccepted(id: string, date: string, t: string)
    requires id != "" && IsDateShape(date) && t in EventTypes
    ensures Rejection(id, "A", date, Str(t)).None?
  {
  }

  /** `POST(req)`. `fault` is the error `updateEventById` throws, if it does. */
  method Post(sheet: Sheet, bus: Bus, body: Result<Body>, now: string,
              fault: Option<string>, throwing: set<ListenerId>)
    returns (resp: Response, log: seq<Effect>)
    requires sheet.Valid() && bus.Valid()
    modifies sheet, bus
    ensures sheet.Valid() && bus.Valid() && bus.listeners == old(bus.listeners)
    ensures resp.headers == NoCache(NoStoreNoCache)
    ensures body.Err? ==> resp.status == 500 && resp.body == ErrorJson(body.message)
                          && log == [] && sheet.grid == old(sheet.grid)
    ensures body.Ok? ==>
      var b := body.value;
      var id, title, date := TrimmedOrEmpty(b.id), TrimmedOrEmpty(b.title), TrimmedOrEmpty(b.date);
      var ev := NewEvent(id, title, date, StringOrEmpty(b.kind), Some(StringOrEmpty(b.description)));
      var idx := FindIndex(old(sheet.Data()), id);
      && (Rejection(id, title, date, b.kind).Some? ==>
            && resp.status == 400 && resp.body == ErrorJson(Rejection(id, title, date, b.kind).value)
            && log == [] && sheet.grid == old(sheet.grid))
      && (Rejection(id, title, date, b.kind).None? && fault.Some? ==>
            && resp.status == 500 && resp.body == ErrorJson(fault.value)
            && log == [StoreCall] && sheet.grid == old(sheet.grid))
      && (Rejection(id, title, date, b.kind).None? && fault.None? && idx == -1 ==>
            && resp.status == 404 && resp.body == ErrorJson(NotFoundMessage)
            && log == [StoreCall] && sheet.grid == old(sheet.grid))
      && (Rejection(id, title, date, b.kind).None? && fault.None? && idx >= 0 ==>
            var row := InsertedRow(ev, KeptCreatedAt(old(sheet.Data())[idx], now));
            && resp.status == 200 && resp.body == EventJson(ToEvent(row))
            && log == [StoreCall, Emit(ChangedUpdate(id))]
            && sheet.Data() == old(sheet.Data())[idx := row])
  {
    if body.Err? {
      return Response(500, ErrorJson(body.message), NoCache(NoStoreNoCache)), [];
    }
    var b := body.value;
    var id := TrimmedOrEmpty(b.id);
    var title := TrimmedOrEmpty(b.title);
    var date := TrimmedOrEmpty(b.date);
    var description := StringOrEmpty(b.description);
    var err := Rejection(id, title, date, b.kind);
    if err.Some? {
      return Response(400, ErrorJson(err.value), NoCache(NoStoreNoCache)), [];
    }
    ghost var before := sheet.Data();
    ghost var idx := FindIndex(before, id);
    var ev := NewEvent(id, title, date, b.kind.s, Some(description));
    assert ev == NewEvent(id, title, date, StringOrEmpty(b.kind), Some(StringOrEmpty(b.description)));
    var updated := sheet.UpdateEventById(ev, now, fault);
    log := [StoreCall];
    assert fault.None? && idx >= 0 ==>
      var row := InsertedRow(ev, KeptCreatedAt(before[idx], now));
      sheet.Data() == before[idx := row] && updated == Ok(Some(ToEvent(row)));
    if updated.Err? {
      return Response(500, ErrorJson(updated.message), NoCache(NoStoreNoCache)), log;
    }
    if updated.value.None? {
      return Response(404, ErrorJson(NotFoundMessage), NoCache(NoStoreNoCache)), log;
    }
    var _ := bus.Emit(ChangedUpdate(id), map[], throwing);
    EmitKeepsSet(old(bus.listeners), old(bus.listeners));
    log := log + [Emit(ChangedUpdate(id))];
    resp := Response(200, EventJson(updated.value.value), NoCache(NoStoreNoCache));
  }

  /** The id the bus is notified with is the trimmed one: padding around the id in the
      body does not reach the listeners. */
  lemma NotifiedIdIsTrimmed(raw: string)
    ensures TrimmedOrEmpty(Str(raw)) == Trim(raw)
    ensures TrimmedOrEmpty(Str(" " + raw + " ")) == Trim(raw)
  {
    assert Trim(" " + raw + " ") == Trim(raw) by { TrimPadded(raw); }
  }
}
