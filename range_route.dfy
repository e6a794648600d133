/**
  `GET /api/events/range?from=…&to=…` (app/api/events/range/route.ts): trim both query
  parameters, require them, check their shape, swap them when `from > to`, and answer
  with the sheet's events in that range. The handler never notifies the bus.
 */
module RangeRoute {
  import opened Wrappers
  import opened Text
  import opened GSheets
  import opened Http

  const RequiredMessage := "from/to required"
  const ShapeMessage := "from/to must be YYYY-MM-DD"

  /** `(searchParams.get(k) || "").trim()`: a missing parameter reads as "". */
  function Param(p: Option<string>): string {
    Trim(p.GetOr(""))
  }

  /** A parameter reads as "" exactly when it is missing or white space only, padding
      around it does not matter, and what is read is already trimmed. */
  lemma {:induction false} ParamSpec(p: Option<string>, x: string)
    ensures Param(p) == "" <==> p.None? || AllSpace(p.value)
    ensures Trim(Param(p)) == Param(p)
    ensures Param(Some(" " + x + " ")) == Param(Some(x))
  {
    TrimmedOrEmptySpec(if p.Some? then Str(p.value) else Absent);
    TrimPadded(x);
  }

  /** The two checks, in order: the message of the first that fails, or None. */
  function Rejection(from: string, to: string): (err: Option<string>)
    ensures err.None? <==> IsDateShape(from) && IsDateShape(to)
    ensures err == Some(RequiredMessage) <==> from == "" || to == ""
    ensures err == Some(ShapeMessage) <==> from != "" && to != "" && !(IsDateShape(from) && IsDateShape(to))
  {
    if from == "" || to == "" then Some(RequiredMessage)
    else if !IsDateShape(from) || !IsDateShape(to) then Some(ShapeMessage)
    else None
  }

  /** The pair after `if (from > to) { swap }`: ordered, and the same two strings. */
  function Ordered(from: string, to: string): (p: (string, string))
    ensures LessEq(p.0, p.1)
    ensures multiset{p.0, p.1} == multiset{from, to}
    ensures LessEq(from, to) ==> p == (from, to)
  {
    LessAsymmetric(from, to);
    LessTotal(from, to);
    if Less(to, from) then (to, from) else (from, to)
  }

  /** Ordering is idempotent and does not depend on the order the bounds were given in. */
  lemma OrderedSymmetric(a: string, b: string)
    ensures Ordered(a, b) == Ordered(b, a)
    ensures Ordered(Ordered(a, b).0, Ordered(a, b).1) == Ordered(a, b)
  {
    LessEqTotalOrder(a, b, a);
  }

  /** `GET(req)`. `fault` is the error `listEventsInRange` throws, if it does. The bounds
      are swapped in place, as the handler's `let` variables are. */
  method Get(sheet: Sheet, fromParam: Option<string>, toParam: Option<string>, fault: Option<string>)
    returns (resp: Response, log: seq<Effect>)
    requires sheet.Valid()
    ensures resp.headers == NoCache(NoStoreMaxAge0)
    ensures Emits(log) == 0
    ensures Rejection(Param(fromParam), Param(toParam)).Some? ==>
              resp.status == 400 && resp.body == ErrorJson(Rejection(Param(fromParam), Param(toParam)).value)
              && log == []
    ensures Rejection(Param(fromParam), Param(toParam)).None? ==>
              var p := Ordered(Param(fromParam), Param(toParam));
              && log == [StoreCall]
              && (fault.Some? ==> resp.status == 500 && resp.body == ErrorJson(fault.value))
              && (fault.None? ==> resp.status == 200
                                  && resp.body == EventsJson(SortByDate(Collect(sheet.Data(), p.0, p.1))))
  {
    var from := Param(fromParam);
    var to := Param(toParam);
    var err := Rejection(from, to);
    if err.Some? {
      return Response(400, ErrorJson(err.value), NoCache(NoStoreMaxAge0)), [];
    }
    if Less(to, from) {
      var tmp := from;
      from := to;
      to := tmp;
    }
    assert (from, to) == Ordered(Param(fromParam), Param(toParam));
    var items := sheet.ListEventsInRange(from, to, fault);
    log := [StoreCall];
    if items.Err? {
      return Response(500, ErrorJson(items.message), NoCache(NoStoreMaxAge0)), log;
    }
    resp := Response(200, EventsJson(items.value), NoCache(NoStoreMaxAge0));
  }

  /** Reversed bounds list the same events as the ordered ones. */
  lemma ReversedBoundsSameAnswer(rows: seq<Row>, a: string, b: string)
    ensures var p, q := Ordered(a, b), Ordered(b, a);
            SortByDate(Collect(rows, p.0, p.1)) == SortByDate(Collect(rows, q.0, q.1))
  {
    OrderedSymmetric(a, b);
  }
}
