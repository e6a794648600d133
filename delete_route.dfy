/**
  `POST /api/events/delete` (app/api/events/delete/route.ts): trim the id, reject an
  empty one, delete the first row with that id, and answer `{ ok: true }` whether or not
  a row was found. The handler has no access to the bus, so it never notifies.
 */
module DeleteRoute {
  import opened Wrappers
  import opened Text
  import opened GSheets
  import opened Http

  /** The body's `id`; `(await req.json()) ?? {}` turns a `null` body into `{}`, whose
      `id` is missing. */
  datatype Body = Body(id: Value)

  const RequiredMessage := "id required"

  /** The id the handler works with: the trimmed string, or "" for anything else. */
  function RequestId(b: Body): string {
    TrimmedOrEmpty(b.id)
  }

  /** An id of white space only is rejected like a missing or non-string one, and an id
      that is kept has no surrounding white space left. */
  lemma {:induction false} BlankIdRejected(b: Body)
    ensures RequestId(b) == "" <==> !b.id.Str? || AllSpace(b.id.s)
    ensures Trim(RequestId(b)) == RequestId(b)
  {
    TrimmedOrEmptySpec(b.id);
  }

  /** `POST(req)`. Only the sheet is reachable from here, so nothing reaches the bus. */
  method Post(sheet: Sheet, body: Result<Body>, fault: Option<string>)
    returns (resp: Response, log: seq<Effect>)
    requires sheet.Valid()
    modifies sheet
    ensures sheet.Valid() && sheet.tabs == old(sheet.tabs)
    ensures resp.headers == NoCache(NoStoreMaxAge0)
    ensures Emits(log) == 0
    ensures body.Err? ==> resp.status == 500 && resp.body == ErrorJson(body.message)
                          && log == [] && sheet.grid == old(sheet.grid)
    ensures body.Ok? && RequestId(body.value) == "" ==>
              resp.status == 400 && resp.body == ErrorJson(RequiredMessage) && log == []
              && sheet.grid == old(sheet.grid)
    ensures body.Ok? && RequestId(body.value) != "" ==> log == [StoreCall]
    ensures body.Ok? && RequestId(body.value) != "" && fault.Some? ==>
              resp.status == 500 && resp.body == ErrorJson(fault.value) && sheet.grid == old(sheet.grid)
    ensures body.Ok? && RequestId(body.value) != "" && fault.None? ==>
              var idx := FindIndex(old(sheet.Data()), RequestId(body.value));
              && (idx == -1 ==> resp.status == 200 && resp.body == OkJson && sheet.grid == old(sheet.grid))
              && (idx >= 0 && SheetIdByTitle(sheet.tabs, sheet.name).Ok? ==>
                    && resp.status == 200 && resp.body == OkJson
                    && sheet.Data() == old(sheet.Data())[..idx] + old(sheet.Data())[idx + 1..])
              && (idx >= 0 && SheetIdByTitle(sheet.tabs, sheet.name).Err? ==>
                    && resp.status == 500
                    && resp.body == ErrorJson(SheetIdByTitle(sheet.tabs, sheet.name).message)
                    && sheet.grid == old(sheet.grid))
  {
    if body.Err? {
      return Response(500, ErrorJson(body.message), NoCache(NoStoreMaxAge0)), [];
    }
    var id := RequestId(body.value);
    if id == "" {
      return Response(400, ErrorJson(RequiredMessage), NoCache(NoStoreMaxAge0)), [];
    }
    ghost var before := sheet.Data();
    var deleted := sheet.DeleteEventById(id, fault);
    log := [StoreCall];
    ghost var idx := FindIndex(before, id);
    assert id == RequestId(body.value);
    if deleted.Err? {
      return Response(500, ErrorJson(deleted.message), NoCache(NoStoreMaxAge0)), log;
    }
    resp := Response(200, OkJson, NoCache(NoStoreMaxAge0));
  }
}
