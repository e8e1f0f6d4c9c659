/**
 * The read-only reports of the backend over the sales sheet: the sales history with its
 * optional date bounds and row limit (`get_sales_history`) and the summary of one day
 * (`get_sales_summary`).
 */
module SalesReports {
  import opened Wrappers
  import opened SaleRecords
  import Seqs
  import SalesGrouping
  import PosBackend

  /** Python's truth value of an optional string parameter: None and "" are false. */
  predicate Given(s: Option<string>) {
    s.Some? && s.value != ""
  }

  /** Python's `a <= b` on strings: lexicographic by code point, a prefix first. */
  predicate StrLe(a: string, b: string) {
    if a == [] then true
    else if b == [] then false
    else if a[0] != b[0] then a[0] < b[0]
    else StrLe(a[1..], b[1..])
  }

  lemma {:induction false} StrLeReflexive(a: string)
    ensures StrLe(a, a)
  {
    if a != [] {
      StrLeReflexive(a[1..]);
    }
  }

  lemma {:induction false} StrLeAntisymmetric(a: string, b: string)
    requires StrLe(a, b) && StrLe(b, a)
    ensures a == b
  {
    if a != [] && b != [] {
      StrLeAntisymmetric(a[1..], b[1..]);
      assert a == [a[0]] + a[1..] && b == [b[0]] + b[1..];
    }
  }

  /** Python's `s[start:]`, where a negative start counts from the end and both are clamped. */
  function SliceFrom<T>(s: seq<T>, start: int): seq<T> {
    if start >= 0 then s[(if start <= |s| then start else |s|)..]
    else s[(if |s| + start >= 0 then |s| + start else 0)..]
  }

  /** `records[-limit:]` for a positive limit keeps the last `limit` rows, or all of them when there
      are fewer; for a negative limit it drops the first `-limit` rows. */
  lemma SliceFromLimit<T>(s: seq<T>, limit: int)
    ensures var r := SliceFrom(s, -limit);
      && (limit > 0 ==> |r| == (if limit <= |s| then limit else |s|))
      && (limit < 0 ==> |r| == (if -limit <= |s| then |s| + limit else 0))
      && s == s[..|s| - |r|] + r
  {
    var r := SliceFrom(s, -limit);
    assert s == s[..|s| - |r|] + s[|s| - |r|..];
  }

  function AfterFrom(dateFrom: string): SaleRow -> bool {
    (r: SaleRow) => StrLe(dateFrom, r.fecha)
  }

  function BeforeTo(dateTo: string): SaleRow -> bool {
    (r: SaleRow) => StrLe(r.fecha, dateTo)
  }

  /** The rows that pass the date bounds that are given, in sheet order. */
  function InRange(records: seq<SaleRow>, dateFrom: Option<string>, dateTo: Option<string>): seq<SaleRow> {
    var afterFrom := if Given(dateFrom) then Seqs.Filter(records, AfterFrom(dateFrom.value)) else records;
    if Given(dateTo) then Seqs.Filter(afterFrom, BeforeTo(dateTo.value)) else afterFrom
  }

  /** A row is in range exactly when it is a row of the sheet within both given bounds; the range
      keeps the sheet's order, and without bounds it is the whole sheet. */
  lemma InRangeSpec(records: seq<SaleRow>, dateFrom: Option<string>, dateTo: Option<string>)
    ensures var r := InRange(records, dateFrom, dateTo);
      && |r| <= |records|
      && (forall i :: 0 <= i < |r| ==>
            r[i] in records
            && (Given(dateFrom) ==> StrLe(dateFrom.value, r[i].fecha))
            && (Given(dateTo) ==> StrLe(r[i].fecha, dateTo.value)))
      && (forall i :: 0 <= i < |records| ==>
            ((Given(dateFrom) ==> StrLe(dateFrom.value, records[i].fecha)) &&
             (Given(dateTo) ==> StrLe(records[i].fecha, dateTo.value))) ==> records[i] in r)
      && (!Given(dateFrom) && !Given(dateTo) ==> r == records)
  {
    var afterFrom := if Given(dateFrom) then Seqs.Filter(records, AfterFrom(dateFrom.value)) else records;
    if Given(dateTo) {
      forall i | 0 <= i < |records| &&
            (Given(dateFrom) ==> StrLe(dateFrom.value, records[i].fecha)) &&
            StrLe(records[i].fecha, dateTo.value)
        ensures records[i] in InRange(records, dateFrom, dateTo)
      {
        var k :| 0 <= k < |afterFrom| && afterFrom[k] == records[i];
      }
    }
  }

  /** Filtering by the bounds distributes over concatenation; with InRangeSingle this fixes the
      range row by row: it keeps the sheet's order and multiplicity. */
  lemma InRangeAppend(a: seq<SaleRow>, b: seq<SaleRow>, dateFrom: Option<string>, dateTo: Option<string>)
    ensures InRange(a + b, dateFrom, dateTo) == InRange(a, dateFrom, dateTo) + InRange(b, dateFrom, dateTo)
  {
    if Given(dateFrom) {
      Seqs.FilterAppend(a, b, AfterFrom(dateFrom.value));
    }
    var fa := if Given(dateFrom) then Seqs.Filter(a, AfterFrom(dateFrom.value)) else a;
    var fb := if Given(dateFrom) then Seqs.Filter(b, AfterFrom(dateFrom.value)) else b;
    if Given(dateTo) {
      Seqs.FilterAppend(fa, fb, BeforeTo(dateTo.value));
    }
  }

  /** A single row is kept exactly when it is within both bounds that are given. */
  lemma InRangeSingle(row: SaleRow, dateFrom: Option<string>, dateTo: Option<string>)
    ensures InRange([row], dateFrom, dateTo) ==
      if (Given(dateFrom) ==> StrLe(dateFrom.value, row.fecha)) && (Given(dateTo) ==> StrLe(row.fecha, dateTo.value))
      then [row] else []
  {
  }

  /** The same day as both bounds selects exactly the rows of that day. */
  lemma InRangeOneDay(records: seq<SaleRow>, day: string)
    requires day != ""
    ensures forall i :: 0 <= i < |InRange(records, Some(day), Some(day))| ==>
      InRange(records, Some(day), Some(day))[i].fecha == day
    ensures forall i :: 0 <= i < |records| && records[i].fecha == day ==>
      records[i] in InRange(records, Some(day), Some(day))
  {
    var r := InRange(records, Some(day), Some(day));
    InRangeSpec(records, Some(day), Some(day));
    forall i | 0 <= i < |r| ensures r[i].fecha == day {
      StrLeAntisymmetric(day, r[i].fecha);
    }
    StrLeReflexive(day);
  }

  /** `get_sales_history`: the rows within the given date bounds, then, for a limit other than
      None and 0, `records[-limit:]`. */
  function SalesHistory(records: seq<SaleRow>, limit: Option<int>, dateFrom: Option<string>, dateTo: Option<string>): seq<SaleRow> {
    var r := InRange(records, dateFrom, dateTo);
    if limit.Some? && limit.value != 0 then SliceFrom(r, -limit.value) else r
  }

  /** The history is a suffix of the rows in range, in sheet order: all of them without a limit,
      the last `limit` of them for a positive limit. */
  lemma SalesHistorySpec(records: seq<SaleRow>, limit: Option<int>, dateFrom: Option<string>, dateTo: Option<string>)
    ensures var r := InRange(records, dateFrom, dateTo);
      var h := SalesHistory(records, limit, dateFrom, dateTo);
      && r == r[..|r| - |h|] + h
      && (limit.None? || limit.value == 0 ==> h == r)
      && (limit.Some? && limit.value > 0 ==> |h| == (if limit.value <= |r| then limit.value else |r|))
      && (limit.Some? && limit.value < 0 ==> |h| == (if -limit.value <= |r| then |r| + limit.value else 0))
  {
    var r := InRange(records, dateFrom, dateTo);
    if limit.Some? && limit.value != 0 {
      SliceFromLimit(r, limit.value);
    }
  }

  function OnDay(date: string): SaleRow -> bool {
    (r: SaleRow) => r.fecha == date
  }

  /** The figures of `get_sales_summary` (the day's rows are returned only when there are some). */
  datatype Summary = Summary(date: string, totalSales: nat, totalAmount: int, itemsSold: int, sales: seq<SaleRow>)

  /** `get_sales_summary`: the rows of one day (today's when no date is given), their number of
      distinct sales, their units and their amount. */
  function SalesSummary(records: seq<SaleRow>, date: Option<string>, today: string): Summary {
    var day := if date.None? then today else date.value;
    var daily := Seqs.Filter(records, OnDay(day));
    if daily == [] then Summary(day, 0, 0, 0, [])
    else Summary(day, |set id | id in Ids(daily)|, SumSubtotal(daily), SumCantidad(daily), daily)
  }

  /** The figures are those of the day's rows in both branches, and there are no sales exactly
      when the day has no rows; the number of sales is the number of groups of the day's rows. */
  lemma SalesSummarySpec(records: seq<SaleRow>, date: Option<string>, today: string)
    ensures var s := SalesSummary(records, date, today);
      var daily := Seqs.Filter(records, OnDay(s.date));
      && s.date == (if date.None? then today else date.value)
      && s.totalSales == |set id | id in Ids(daily)| == |SalesGrouping.Grouped(daily)|
      && s.totalAmount == SumSubtotal(daily)
      && s.itemsSold == SumCantidad(daily)
      && (s.totalSales == 0 <==> forall i :: 0 <= i < |records| ==> records[i].fecha != s.date)
  {
    var s := SalesSummary(records, date, today);
    var daily := Seqs.Filter(records, OnDay(s.date));
    Seqs.FirstSeenCardinality(Ids(daily));
    if daily == [] {
      assert (set id | id in Ids(daily)) == {};
    } else {
      assert Ids(daily)[0] in (set id | id in Ids(daily));
    }
  }

  /** A sale saved under a fresh id on the summarised day adds one sale, its total and its units to
      that day's summary. */
  lemma SummaryAfterSale(records: seq<SaleRow>, day: string, saleId: string, hora: string,
                         updates: seq<PosBackend.StockUpdate>, vendedor: string)
    requires saleId !in Ids(records)
    requires updates != []
    ensures var rows := PosBackend.SaleRows(saleId, day, hora, PosBackend.DetailsOf(updates), PosBackend.TotalOf(updates), vendedor);
      var before := SalesSummary(records, Some(day), day);
      var after := SalesSummary(records + rows, Some(day), day);
      && after.totalSales == before.totalSales + 1
      && after.totalAmount == before.totalAmount + PosBackend.TotalOf(updates)
      && after.itemsSold == before.itemsSold + PosBackend.UnitsOf(updates)
  {
    var rows := PosBackend.SaleRows(saleId, day, hora, PosBackend.DetailsOf(updates), PosBackend.TotalOf(updates), vendedor);
    var daily := Seqs.Filter(records, OnDay(day));
    Seqs.FilterAppend(records, rows, OnDay(day));
    Seqs.FilterAllOrNone(rows, OnDay(day));
    SumsAppend(daily, rows);
    IdsFresh(records, daily, saleId);
    PosBackend.SaleRowsSums(saleId, day, hora, updates, PosBackend.TotalOf(updates), vendedor);
    DistinctIdsFresh(daily, rows, saleId);
  }

  /** Rows taken from a sheet that does not hold an id do not hold it either. */
  lemma IdsFresh(records: seq<SaleRow>, rows: seq<SaleRow>, saleId: string)
    requires saleId !in Ids(records)
    requires forall k :: 0 <= k < |rows| ==> rows[k] in records
    ensures forall k :: 0 <= k < |rows| ==> rows[k].ventaId != saleId
  {
    forall k | 0 <= k < |rows| ensures rows[k].ventaId != saleId {
      var i :| 0 <= i < |records| && records[i] == rows[k];
      assert Ids(records)[i] == records[i].ventaId;
    }
  }

  /** Rows of a sale whose id occurs nowhere else add one distinct id. */
  lemma DistinctIdsFresh(rows: seq<SaleRow>, sale: seq<SaleRow>, saleId: string)
    requires sale != [] && forall k :: 0 <= k < |sale| ==> sale[k].ventaId == saleId
    requires forall k :: 0 <= k < |rows| ==> rows[k].ventaId != saleId
    ensures |set id | id in Ids(rows + sale)| == |set id | id in Ids(rows)| + 1
  {
    var ids := set id | id in Ids(rows);
    var all := rows + sale;
    assert (set id | id in Ids(all)) == ids + {saleId} by {
      forall id | id in Ids(all) ensures id in ids || id == saleId {
        var k :| 0 <= k < |all| && Ids(all)[k] == id;
        if k < |rows| {
          assert Ids(rows)[k] == id;
        }
      }
      assert Ids(all)[|rows|] == saleId;
      forall id | id in ids ensures id in Ids(all) {
        var k :| 0 <= k < |rows| && Ids(rows)[k] == id;
        assert Ids(all)[k] == id;
      }
    }
    assert saleId !in ids by {
      forall k | 0 <= k < |rows| ensures Ids(rows)[k] != saleId { }
    }
  }
}
