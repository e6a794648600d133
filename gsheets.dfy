/**
  The row logic of lib/gsheets.ts over an in-memory sheet. The sheet is a grid of rows of
  cells; row 1 (grid index 0) holds the column headers `A1:F1` and every later row is
  one event `[id, title, date, type, description, created_at]`. The Google Sheets client,
  its JWT authentication and the environment checks are not modelled: each store call
  may instead fail as a whole, with an error message, leaving the sheet unchanged.
 */
module GSheets {
  import opened Wrappers
  import opened Text

  /** The cells of one sheet row as the API returns them; trailing empty cells are absent. */
  type Row = seq<string>

  /** `GSEvent`, with `description` always present. */
  datatype GSEvent = GSEvent(id: string, title: string, date: string, kind: string,
                             description: string, createdAt: string)

  /** `Omit<GSEvent, "created_at">`: what `insertEvent` and `updateEventById` receive. */
  datatype NewEvent = NewEvent(id: string, title: string, date: string, kind: string,
                               description: Option<string>)

  /** A tab of the spreadsheet as `spreadsheets.get` describes it. */
  datatype SheetMeta = SheetMeta(title: string, sheetId: Option<int>)

  /** Column `k` of a row, `undefined` (None) past its last cell. */
  function Cell(r: Row, k: nat): Option<string> {
    if k < |r| then Some(r[k]) else None
  }

  /* ---------------- listEventsInRange ---------------- */

  /** The loop's test: a row with a non-empty id whose date satisfies
      `date >= fromISO && date <= toISO` (false when the date cell is missing). */
  predicate Listed(r: Row, from: string, to: string) {
    && Cell(r, 0).Some? && Cell(r, 0).value != ""
    && Cell(r, 2).Some? && LessEq(from, Cell(r, 2).value) && LessEq(Cell(r, 2).value, to)
  }

  /** The record pushed for a listed row; `description || ""`. */
  function ToEvent(r: Row): GSEvent {
    GSEvent(Cell(r, 0).GetOr(""), Cell(r, 1).GetOr(""), Cell(r, 2).GetOr(""),
            Cell(r, 3).GetOr(""), Cell(r, 4).GetOr(""), Cell(r, 5).GetOr(""))
  }

  /** The listed rows, in sheet order, as records. */
  function Collect(rows: seq<Row>, from: string, to: string): seq<GSEvent> {
    if rows == [] then []
    else Collect(rows[..|rows| - 1], from, to)
         + (if Listed(rows[|rows| - 1], from, to) then [ToEvent(rows[|rows| - 1])] else [])
  }

  /** A record is collected exactly when some row of the sheet is listed and reads as it. */
  lemma {:induction false} CollectMembers(rows: seq<Row>, from: string, to: string, e: GSEvent)
    ensures e in Collect(rows, from, to) <==> exists r :: r in rows && Listed(r, from, to) && ToEvent(r) == e
  {
    if rows != [] {
      var init := rows[..|rows| - 1];
      CollectMembers(init, from, to, e);
      assert rows == init + [rows[|rows| - 1]];
      if e in Collect(init, from, to) {
        var r :| r in init && Listed(r, from, to) && ToEvent(r) == e;
        assert r in rows;
      }
    }
  }

  /** The rows the loop keeps, front to back: `rows.filter(r => Listed(r))`. */
  function ListedRows(rows: seq<Row>, from: string, to: string): seq<Row> {
    if rows == [] then []
    else (if Listed(rows[0], from, to) then [rows[0]] else []) + ListedRows(rows[1..], from, to)
  }

  /** One record per row, in row order. */
  function Records(rows: seq<Row>): seq<GSEvent> {
    seq(|rows|, k requires 0 <= k < |rows| => ToEvent(rows[k]))
  }

  /** Each listed row is kept as often as it occurs in the sheet, and no other row is kept. */
  lemma {:induction false} ListedRowsCounts(rows: seq<Row>, from: string, to: string, r: Row)
    ensures multiset(ListedRows(rows, from, to))[r] == if Listed(r, from, to) then multiset(rows)[r] else 0
  {
    if rows != [] {
      ListedRowsCounts(rows[1..], from, to, r);
      assert rows == [rows[0]] + rows[1..];
    }
  }

  /** Filtering the sheet with one more row at its end. */
  lemma {:induction false} ListedRowsSnoc(rows: seq<Row>, x: Row, from: string, to: string)
    ensures ListedRows(rows + [x], from, to)
         == ListedRows(rows, from, to) + (if Listed(x, from, to) then [x] else [])
  {
    if rows == [] {
      assert [] + [x] == [x];
    } else {
      assert (rows + [x])[1..] == rows[1..] + [x];
      ListedRowsSnoc(rows[1..], x, from, to);
    }
  }

  /** The collected records are those of the listed rows in sheet order, one per row:
      a row listed twice is reported twice, and nothing is reordered before the sort. */
  lemma {:induction false} CollectInSheetOrder(rows: seq<Row>, from: string, to: string)
    ensures Collect(rows, from, to) == Records(ListedRows(rows, from, to))
  {
    if rows != [] {
      var init, last := rows[..|rows| - 1], rows[|rows| - 1];
      CollectInSheetOrder(init, from, to);
      assert rows == init + [last];
      ListedRowsSnoc(init, last, from, to);
      var tail := if Listed(last, from, to) then [last] else [];
      var a := ListedRows(init, from, to);
      assert Records(a + tail) == Records(a) + Records(tail);
    }
  }

  /** Every collected record has a non-empty id and a date in `[from, to]`; a missing
      description reads as the empty string. */
  lemma {:induction false} CollectedInRange(rows: seq<Row>, from: string, to: string)
    ensures forall e :: e in Collect(rows, from, to) ==> e.id != "" && LessEq(from, e.date) && LessEq(e.date, to)
  {
    forall e | e in Collect(rows, from, to)
      ensures e.id != "" && LessEq(from, e.date) && LessEq(e.date, to)
    {
      CollectMembers(rows, from, to, e);
    }
  }

  /** The records sorted by date, stably: `out.sort((a, b) => a.date.localeCompare(b.date))`
      (an insertion sort; `Array.prototype.sort` is stable). */
  function SortByDate(s: seq<GSEvent>): (r: seq<GSEvent>)
    ensures multiset(r) == multiset(s)
  {
    if s == [] then []
    else
      assert s == [s[0]] + s[1..];
      InsertByDate(s[0], SortByDate(s[1..]))
  }

  predicate SortedByDate(s: seq<GSEvent>) {
    forall i, j :: 0 <= i < j < |s| ==> LessEq(s[i].date, s[j].date)
  }

  /** Puts `x` before the first element whose date is not earlier than its own. */
  function InsertByDate(x: GSEvent, t: seq<GSEvent>): (r: seq<GSEvent>)
    ensures multiset(r) == multiset(t) + multiset{x}
  {
    if t == [] then [x]
    else if LessEq(x.date, t[0].date) then [x] + t
    else
      assert t == [t[0]] + t[1..];
      [t[0]] + InsertByDate(x, t[1..])
  }

  /** No record of `s` is dated before `d`. */
  predicate NoneBefore(d: string, s: seq<GSEvent>) {
    forall i :: 0 <= i < |s| ==> LessEq(d, s[i].date)
  }

  lemma SortedCons(x: GSEvent, s: seq<GSEvent>)
    requires SortedByDate(s) && NoneBefore(x.date, s)
    ensures SortedByDate([x] + s)
  {
    var r := [x] + s;
    forall i, j | 0 <= i < j < |r| ensures LessEq(r[i].date, r[j].date) {
      if i > 0 { assert r[i] == s[i - 1] && r[j] == s[j - 1]; } else { assert r[j] == s[j - 1]; }
    }
  }

  lemma {:induction false} InsertKeepsBound(d: string, x: GSEvent, t: seq<GSEvent>)
    requires NoneBefore(d, t) && LessEq(d, x.date)
    ensures NoneBefore(d, InsertByDate(x, t))
  {
    if t != [] && !LessEq(x.date, t[0].date) {
      InsertKeepsBound(d, x, t[1..]);
      assert InsertByDate(x, t) == [t[0]] + InsertByDate(x, t[1..]);
    }
  }

  lemma {:induction false} InsertByDateSorted(x: GSEvent, t: seq<GSEvent>)
    requires SortedByDate(t)
    ensures SortedByDate(InsertByDate(x, t))
  {
    if t == [] {
    } else if LessEq(x.date, t[0].date) {
      forall j | 0 <= j < |t| ensures LessEq(x.date, t[j].date) {
        LessEqTotalOrder(x.date, t[0].date, t[j].date);
      }
      SortedCons(x, t);
    } else {
      InsertByDateSorted(x, t[1..]);
      LessEqTotalOrder(x.date, t[0].date, x.date);
      InsertKeepsBound(t[0].date, x, t[1..]);
      SortedCons(t[0], InsertByDate(x, t[1..]));
    }
  }

  /** The result of the sort is in ascending date order. */
  lemma {:induction false} SortByDateSorted(s: seq<GSEvent>)
    ensures SortedByDate(SortByDate(s))
  {
    if s != [] {
      SortByDateSorted(s[1..]);
      InsertByDateSorted(s[0], SortByDate(s[1..]));
    }
  }

  /** The records of one date, in order. */
  function OnDate(s: seq<GSEvent>, d: string): seq<GSEvent> {
    if s == [] then [] else (if s[0].date == d then [s[0]] else []) + OnDate(s[1..], d)
  }

  lemma {:induction false} InsertByDateStable(x: GSEvent, t: seq<GSEvent>, d: string)
    ensures OnDate(InsertByDate(x, t), d) == (if x.date == d then [x] else []) + OnDate(t, d)
  {
    if t == [] || LessEq(x.date, t[0].date) {
      assert ([x] + t)[1..] == t;
    } else {
      InsertByDateStable(x, t[1..], d);
      LessIrreflexive(x.date);
      assert x.date != t[0].date;
      var u := InsertByDate(x, t[1..]);
      assert InsertByDate(x, t) == [t[0]] + u;
      assert ([t[0]] + u)[1..] == u;
      assert OnDate([t[0]] + u, d) == (if t[0].date == d then [t[0]] else []) + OnDate(u, d);
      assert OnDate(t, d) == (if t[0].date == d then [t[0]] else []) + OnDate(t[1..], d);
      if x.date == d {
        assert OnDate([t[0]] + u, d) == OnDate(u, d) == [x] + OnDate(t[1..], d);
        assert OnDate(t, d) == OnDate(t[1..], d);
      } else {
        assert OnDate(u, d) == OnDate(t[1..], d);
      }
    }
  }

  /** The sort is stable: among records of the same date the sheet order is kept. */
  lemma {:induction false} SortByDateStable(s: seq<GSEvent>, d: string)
    ensures OnDate(SortByDate(s), d) == OnDate(s, d)
  {
    if s != [] {
      SortByDateStable(s[1..], d);
      InsertByDateStable(s[0], SortByDate(s[1..]), d);
    }
  }

  /* ---------------- getSheetIdByTitle ---------------- */

  /** The message `getSheetIdByTitle` throws with. */
  function TabNotFound(name: string): string {
    "No se encontró la pestaña \"" + name + "\" en la hoja"
  }

  /** `meta.data.sheets?.find(s => s.properties?.title === SHEET_NAME)`, then the id check
      `!sheetId && sheetId !== 0`, which lets 0 through and rejects a missing id. */
  function SheetIdByTitle(sheets: seq<SheetMeta>, name: string): Result<int> {
    if sheets == [] then Err(TabNotFound(name))
    else if sheets[0].title == name then
      match sheets[0].sheetId
      case Some(id) => Ok(id)
      case None => Err(TabNotFound(name))
    else SheetIdByTitle(sheets[1..], name)
  }

  /** The position of the first tab with the title, or the number of tabs when none has it. */
  function FirstTab(sheets: seq<SheetMeta>, name: string): (k: nat)
    ensures k <= |sheets|
    ensures k < |sheets| ==> sheets[k].title == name
    ensures forall j :: 0 <= j < k ==> sheets[j].title != name
  {
    if sheets == [] || sheets[0].title == name then 0
    else
      var k := FirstTab(sheets[1..], name);
      assert forall j :: 1 <= j <= k ==> sheets[j] == sheets[1..][j - 1];
      1 + k
  }

  /** `find` stops at the first tab with the title: the lookup succeeds exactly when there
      is such a tab and it has an id, and then yields that id. */
  lemma {:induction false} SheetIdByTitleFirstMatch(sheets: seq<SheetMeta>, name: string)
    ensures var k := FirstTab(sheets, name);
            SheetIdByTitle(sheets, name)
            == if k < |sheets| && sheets[k].sheetId.Some? then Ok(sheets[k].sheetId.value)
               else Err(TabNotFound(name))
  {
    if sheets != [] && sheets[0].title != name {
      SheetIdByTitleFirstMatch(sheets[1..], name);
    }
  }

  lemma SheetIdZeroAccepted(name: string, rest: seq<SheetMeta>)
    ensures SheetIdByTitle([SheetMeta(name, Some(0))] + rest, name) == Ok(0)
    ensures SheetIdByTitle([SheetMeta(name, None)] + rest, name).Err?
  {
  }

  /* ---------------- the row searches of delete and update ---------------- */

  /** `ids.findIndex(v => v === id)` over column A of the data rows: the first row whose
      first cell is `id`, or -1. */
  function FindIndex(rows: seq<Row>, id: string): (idx: int)
    ensures -1 <= idx < |rows|
    ensures idx == -1 <==> forall k :: 0 <= k < |rows| ==> Cell(rows[k], 0) != Some(id)
    ensures idx >= 0 ==> Cell(rows[idx], 0) == Some(id)
                         && forall k :: 0 <= k < idx ==> Cell(rows[k], 0) != Some(id)
  {
    if rows == [] then -1
    else if Cell(rows[0], 0) == Some(id) then 0
    else
      var i := FindIndex(rows[1..], id);
      assert forall k :: 1 <= k < |rows| ==> rows[k] == rows[1..][k - 1];
      if i == -1 then -1 else i + 1
  }

  /** The row `insertEvent` appends. */
  function InsertedRow(ev: NewEvent, createdAt: string): Row {
    [ev.id, ev.title, ev.date, ev.kind, ev.description.GetOr(""), createdAt]
  }

  /** `updateEventById`'s timestamp: the current row's `created_at` when non-empty,
      otherwise the time of the update. */
  function KeptCreatedAt(current: Row, now: string): (c: string)
    ensures Cell(current, 5).Some? && Cell(current, 5).value != "" ==> c == current[5]
    ensures Cell(current, 5).None? || Cell(current, 5).value == "" ==> c == now
    ensures c == now || (|current| > 5 && c == current[5])
  {
    if Cell(current, 5).Some? && Cell(current, 5).value != "" then current[5] else now
  }

  /** Written rows read back as the records the functions return. */
  lemma WrittenRowReadsBack(ev: NewEvent, createdAt: string)
    ensures ToEvent(InsertedRow(ev, createdAt))
         == GSEvent(ev.id, ev.title, ev.date, ev.kind, ev.description.GetOr(""), createdAt)
    ensures Cell(InsertedRow(ev, createdAt), 0) == Some(ev.id)
  {
  }

  /* ---------------- the sheet ---------------- */

  class Sheet {
    /** Every row of the tab, the header row first. */
    var grid: seq<Row>
    /** The tabs of the spreadsheet, as `spreadsheets.get` lists them. */
    var tabs: seq<SheetMeta>
    /** `SHEET_NAME`. */
    const name: string

    ghost predicate Valid()
      reads this
    {
      |grid| >= 1
    }

    /** The data rows, `A2:F`. */
    ghost function Data(): seq<Row>
      reads this
      requires Valid()
    {
      grid[1..]
    }

    constructor (header: Row, rows: seq<Row>, tabs: seq<SheetMeta>, name: string)
      ensures Valid() && grid == [header] + rows && Data() == rows
      ensures this.tabs == tabs && this.name == name
    {
      grid := [header] + rows;
      this.tabs := tabs;
      this.name := name;
    }

    /** `listEventsInRange(fromISO, toISO)`: collect the listed rows, then sort by date. */
    method ListEventsInRange(from: string, to: string, fault: Option<string>)
      returns (r: Result<seq<GSEvent>>)
      requires Valid()
      ensures fault.Some? ==> r == Err(fault.value)
      ensures fault.None? ==> r == Ok(SortByDate(Collect(Data(), from, to)))
    {
      if fault.Some? {
        return Err(fault.value);
      }
      var rows := grid[1..];
      var out: seq<GSEvent> := [];
      var i := 0;
      while i < |rows|
        invariant 0 <= i <= |rows|
        invariant out == Collect(rows[..i], from, to)
      {
        var row := rows[i];
        assert rows[..i + 1][..i] == rows[..i];
        if Cell(row, 0).Some? && Cell(row, 0).value != "" {
          if Cell(row, 2).Some? && !Less(Cell(row, 2).value, from) && !Less(to, Cell(row, 2).value) {
            out := out + [ToEvent(row)];
          }
        }
        i := i + 1;
      }
      assert rows[..i] == rows;
      r := Ok(SortByDate(out));
    }

    /** `insertEvent(ev)`: appends `[id, title, date, type, description ?? "", created_at]`
        below the last row and returns the record written. */
    method InsertEvent(ev: NewEvent, createdAt: string, fault: Option<string>) returns (r: Result<GSEvent>)
      requires Valid()
      modifies this
      ensures Valid() && tabs == old(tabs) && grid[0] == old(grid[0])
      ensures fault.Some? ==> r == Err(fault.value) && grid == old(grid)
      ensures fault.None? ==> Data() == old(Data()) + [InsertedRow(ev, createdAt)]
      ensures fault.None? ==> r == Ok(GSEvent(ev.id, ev.title, ev.date, ev.kind, ev.description.GetOr(""), createdAt))
    {
      if fault.Some? {
        return Err(fault.value);
      }
      grid := grid + [InsertedRow(ev, createdAt)];
      assert grid[1..] == old(grid)[1..] + [InsertedRow(ev, createdAt)];
      r := Ok(GSEvent(ev.id, ev.title, ev.date, ev.kind, ev.description.GetOr(""), createdAt));
    }

    /** `deleteEventById(id)`: locate the first row with that id in `A2:A`, look up the
        tab's sheet id, and delete the zero-based row range `[idx + 1, idx + 2)` of the
        whole tab, that is the 1-based row `idx + 2`. */
    method DeleteEventById(id: string, fault: Option<string>) returns (r: Result<bool>)
      requires Valid()
      modifies this
      ensures Valid() && tabs == old(tabs) && grid[0] == old(grid[0])
      ensures fault.Some? ==> r == Err(fault.value) && grid == old(grid)
      ensures fault.None? && FindIndex(old(Data()), id) == -1 ==> r == Ok(false) && grid == old(grid)
      ensures fault.None? && FindIndex(old(Data()), id) >= 0 && SheetIdByTitle(tabs, name).Err?
              ==> r == Err(SheetIdByTitle(tabs, name).message) && grid == old(grid)
      ensures fault.None? && FindIndex(old(Data()), id) >= 0 && SheetIdByTitle(tabs, name).Ok?
              ==> var idx := FindIndex(old(Data()), id);
                  r == Ok(true) && Data() == old(Data())[..idx] + old(Data())[idx + 1..]
    {
      if fault.Some? {
        return Err(fault.value);
      }
      var idx := FindIndex(grid[1..], id);
      if idx == -1 {
        return Ok(false);
      }
      var rowIndex := idx + 2;
      var sheetId := SheetIdByTitle(tabs, name);
      if sheetId.Err? {
        return Err(sheetId.message);
      }
      var startIndex, endIndex := rowIndex - 1, rowIndex;
      grid := grid[..startIndex] + grid[endIndex..];
      assert grid[1..] == old(grid)[1..][..idx] + old(grid)[1..][idx + 1..];
      r := Ok(true);
    }

    /** `updateEventById(ev)`: locate the first row with that id, read the row
        `A{idx+2}:F{idx+2}` for its `created_at`, overwrite that row and return it. */
    method UpdateEventById(ev: NewEvent, now: string, fault: Option<string>) returns (r: Result<Option<GSEvent>>)
      requires Valid()
      modifies this
      ensures Valid() && tabs == old(tabs) && grid[0] == old(grid[0])
      ensures fault.Some? ==> r == Err(fault.value) && grid == old(grid)
      ensures fault.None? && FindIndex(old(Data()), ev.id) == -1 ==> r == Ok(None) && grid == old(grid)
      ensures fault.None? && FindIndex(old(Data()), ev.id) >= 0
              ==> var idx := FindIndex(old(Data()), ev.id);
                  var row := InsertedRow(ev, KeptCreatedAt(old(Data())[idx], now));
                  && Data() == old(Data())[idx := row]
                  && r == Ok(Some(ToEvent(row)))
    {
      if fault.Some? {
        return Err(fault.value);
      }
      var idx := FindIndex(grid[1..], ev.id);
      if idx == -1 {
        return Ok(None);
      }
      var rowIndex := idx + 2;
      var current := grid[rowIndex - 1];
      var createdAt := KeptCreatedAt(current, now);
      var row := InsertedRow(ev, createdAt);
      grid := grid[rowIndex - 1 := row];
      assert grid[1..] == old(grid)[1..][idx := row];
      r := Ok(Some(GSEvent(ev.id, ev.title, ev.date, ev.kind, ev.description.GetOr(""), createdAt)));
    }
  }

  /** After a successful update the rewritten row still carries the original `created_at`
      whenever it had one, and reads back with the new fields. */
  lemma UpdatePreservesCreatedAt(rows: seq<Row>, ev: NewEvent, now: string)
    requires FindIndex(rows, ev.id) >= 0
    requires Cell(rows[FindIndex(rows, ev.id)], 5).Some? && rows[FindIndex(rows, ev.id)][5] != ""
    ensures var idx := FindIndex(rows, ev.id);
            var row := InsertedRow(ev, KeptCreatedAt(rows[idx], now));
            ToEvent(row).createdAt == rows[idx][5] && row[0] == ev.id
  {
  }

  /** A row whose `created_at` cell is missing or empty is stamped with the time of the
      update instead. */
  lemma UpdateStampsMissingCreatedAt(rows: seq<Row>, ev: NewEvent, now: string)
    requires FindIndex(rows, ev.id) >= 0
    requires Cell(rows[FindIndex(rows, ev.id)], 5).None? || rows[FindIndex(rows, ev.id)][5] == ""
    ensures var idx := FindIndex(rows, ev.id);
            var row := InsertedRow(ev, KeptCreatedAt(rows[idx], now));
            ToEvent(row).createdAt == now && row[0] == ev.id
  {
  }
}
