/**
  The browser-side store of lib/db.ts when no Supabase project is configured: the
  events live as one JSON array under the `localStorage` key `zoo.events.v1`. Parsing and
  serialising that JSON is not modelled; the stored item is either absent, unreadable,
  or a readable list of events.
 */
module Db {
  import opened Wrappers
  import opened Text
  import Http

  /** `EventType`: the five labels. */
  datatype EventType = Reservierung | Veranstaltung | Wartung | Reparatur | Sonstiges

  function Label(t: EventType): string {
    match t
    case Reservierung => "Reservierung"
    case Veranstaltung => "Veranstaltung"
    case Wartung => "Wartung"
    case Reparatur => "Reparatur"
    case Sonstiges => "Sonstiges"
  }

  function ParseEventType(s: string): Option<EventType> {
    if s == "Reservierung" then Some(Reservierung)
    else if s == "Veranstaltung" then Some(Veranstaltung)
    else if s == "Wartung" then Some(Wartung)
    else if s == "Reparatur" then Some(Reparatur)
    else if s == "Sonstiges" then Some(Sonstiges)
    else None
  }

  /** The union type, the routes' `TYPES` list and the labels agree: a string is a label
      exactly when the routes accept it, and labels read back as their type. */
  lemma LabelRoundTrip(t: EventType, s: string)
    ensures ParseEventType(Label(t)) == Some(t)
    ensures ParseEventType(s).Some? ==> Label(ParseEventType(s).value) == s
    ensures ParseEventType(s).Some? <==> Http.IsEventType(Http.Str(s))
  {
  }

  /** `TYPE_COLORS[t]`. */
  function Color(t: EventType): string {
    match t
    case Reservierung => "#22c55e"
    case Veranstaltung => "#38bdf8"
    case Wartung => "#eab308"
    case Reparatur => "#8b5cf6"
    case Sonstiges => "#f472b6"
  }

  predicate IsHexDigit(c: char) {
    ('0' <= c <= '9') || ('a' <= c <= 'f')
  }

  /** Every type has a colour of the form `#rrggbb`, and no two types share one. */
  lemma ColorsAreDistinctHex(t: EventType, u: EventType)
    ensures |Color(t)| == 7 && Color(t)[0] == '#'
    ensures forall i :: 1 <= i < 7 ==> IsHexDigit(Color(t)[i])
    ensures t != u ==> Color(t) != Color(u)
  {
  }

  /** `DBEvent`; a `null` (or missing) description is None. */
  datatype DBEvent = DBEvent(id: string, title: string, date: string, kind: EventType,
                             description: Option<string>, createdAt: string)

  /** `Pick<DBEvent, 'title'|'date'|'type'|'description'>`: what `insert` receives. An
      `undefined` description is None, like a `null` one. */
  datatype Draft = Draft(title: string, date: string, kind: EventType, description: Option<string>)

  /** The item stored under the key: `getItem` gives `null` or "" (Nothing), text that
      `JSON.parse` rejects (Unreadable), or a list of events. */
  datatype Stored = Nothing | Unreadable | Events(events: seq<DBEvent>)

  /** `lsRead()`: the stored list, or `[]` when there is none or it does not parse. */
  function LsRead(stored: Stored): seq<DBEvent> {
    if stored.Events? then stored.events else []
  }

  /** The range test `e.date >= fromISO && e.date <= toISO` in string order. */
  predicate InRange(e: DBEvent, from: string, to: string) {
    LessEq(from, e.date) && LessEq(e.date, to)
  }

  /** `all.filter(e => InRange(e))`. */
  function Filter(all: seq<DBEvent>, from: string, to: string): seq<DBEvent> {
    if all == [] then []
    else (if InRange(all[0], from, to) then [all[0]] else []) + Filter(all[1..], from, to)
  }

  /** `a` is `b` with some elements left out, the rest in their order. */
  predicate Subsequence(a: seq<DBEvent>, b: seq<DBEvent>)
    decreases |b|
  {
    if a == [] then true
    else if b == [] then false
    else (a[0] == b[0] && Subsequence(a[1..], b[1..])) || Subsequence(a, b[1..])
  }

  /** Exactly the stored events in the range are returned, each as often as it is stored. */
  lemma {:induction false} FilterCounts(all: seq<DBEvent>, from: string, to: string, e: DBEvent)
    ensures multiset(Filter(all, from, to))[e] == if InRange(e, from, to) then multiset(all)[e] else 0
  {
    if all != [] {
      FilterCounts(all[1..], from, to, e);
      assert all == [all[0]] + all[1..];
    }
  }

  lemma FilterCountsAll(all: seq<DBEvent>, from: string, to: string)
    ensures forall e :: multiset(Filter(all, from, to))[e] == if InRange(e, from, to) then multiset(all)[e] else 0
  {
    forall e ensures multiset(Filter(all, from, to))[e] == if InRange(e, from, to) then multiset(all)[e] else 0 {
      FilterCounts(all, from, to, e);
    }
  }

  lemma FilterMembers(all: seq<DBEvent>, from: string, to: string)
    ensures forall e :: e in Filter(all, from, to) <==> e in all && InRange(e, from, to)
  {
    forall e ensures e in Filter(all, from, to) <==> e in all && InRange(e, from, to) {
      FilterCounts(all, from, to, e);
    }
  }

  /** The result keeps the stored order: the range does not sort. */
  lemma {:induction false} FilterKeepsOrder(all: seq<DBEvent>, from: string, to: string)
    ensures Subsequence(Filter(all, from, to), all)
  {
    if all != [] {
      FilterKeepsOrder(all[1..], from, to);
      var rest := Filter(all[1..], from, to);
      if InRange(all[0], from, to) {
        assert ([all[0]] + rest)[1..] == rest;
      } else {
        assert [] + rest == rest;
      }
    }
  }

  /** When every stored event is in range the list comes back as stored, unsorted. */
  lemma {:induction false} FilterAllInRange(all: seq<DBEvent>, from: string, to: string)
    requires forall k :: 0 <= k < |all| ==> InRange(all[k], from, to)
    ensures Filter(all, from, to) == all
  {
    if all != [] {
      FilterAllInRange(all[1..], from, to);
      assert all == [all[0]] + all[1..];
    }
  }

  /** `localStorage`, as far as the key `zoo.events.v1` is concerned. */
  class LocalStore {
    var stored: Stored

    constructor (stored: Stored)
      ensures this.stored == stored
    {
      this.stored := stored;
    }

    /** `db.range(fromISO, toISO)` without Supabase: the stored events dated in the range,
        in stored order. */
    function Range(from: string, to: string): (r: seq<DBEvent>)
      reads this
      ensures forall e :: e in r <==> e in LsRead(stored) && InRange(e, from, to)
      ensures forall e :: multiset(r)[e] == if InRange(e, from, to) then multiset(LsRead(stored))[e] else 0
      ensures Subsequence(r, LsRead(stored))
    {
      var all := LsRead(stored);
      FilterMembers(all, from, to);
      FilterCountsAll(all, from, to);
      FilterKeepsOrder(all, from, to);
      Filter(all, from, to)
    }

    /** `db.insert(ev)` without Supabase: read the list, push the new item, write it back
        and return it. `id` and `now` stand for the generated id and the timestamp. */
    method Insert(ev: Draft, id: string, now: string) returns (item: DBEvent)
      modifies this
      ensures item == DBEvent(id, ev.title, ev.date, ev.kind, ev.description, now)
      ensures stored == Events(LsRead(old(stored)) + [item])
    {
      item := DBEvent(id, ev.title, ev.date, ev.kind, ev.description, now);
      var all := LsRead(stored);
      all := all + [item];
      stored := Events(all);
    }
  }

  /** After an insert the earlier items are unchanged and in place, the new one is last,
      and it is listed by every range that contains its date. */
  lemma InsertAppends(before: Stored, item: DBEvent, from: string, to: string)
    ensures var after := LsRead(Events(LsRead(before) + [item]));
            && |after| == |LsRead(before)| + 1
            && after[..|LsRead(before)|] == LsRead(before) && after[|LsRead(before)|] == item
            && (InRange(item, from, to) ==> item in Filter(after, from, to))
  {
    var after := LsRead(before) + [item];
    assert after[..|LsRead(before)|] == LsRead(before);
    FilterCounts(after, from, to, item);
  }
}
