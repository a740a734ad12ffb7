/**
 * The dataset dashboard: the company list offered by the dropdown, and the
 * two callbacks that redraw the price and the volume chart for the chosen
 * company and date range. The dataset is read-only and sorted by date.
 */
module Dashboard {
  import opened Wrappers
  import opened Text
  import opened StrOrder

  /** One dataset row: its `date` label, the company `Name`, and the `close` and `volume` columns. */
  datatype Row<P, V> = Row(date: Date, name: string, close: P, volume: V)

  /** The order the load-time sort leaves the dataset in. */
  predicate DateSorted<P, V>(rows: seq<Row<P, V>>) {
    forall i, j :: 0 <= i < j < |rows| ==> LessEq(rows[i].date, rows[j].date)
  }

  predicate InWindow(date: Date, start: Date, end: Date) {
    LessEq(start, date) && LessEq(date, end)
  }

  /** A row condition the callbacks select by. */
  datatype Criterion =
    | Company(company: string)
    | Window(start: Date, end: Date)
    | CompanyInWindow(name: string, from: Date, to: Date)

  predicate Holds<P, V>(c: Criterion, r: Row<P, V>) {
    match c
    case Company(n) => r.name == n
    case Window(s, e) => InWindow(r.date, s, e)
    case CompanyInWindow(n, s, e) => r.name == n && InWindow(r.date, s, e)
  }

  /** The rows meeting `c`, in dataset order (a boolean-mask selection). */
  function Where<P, V>(rows: seq<Row<P, V>>, c: Criterion): (r: seq<Row<P, V>>)
    ensures |r| <= |rows|
    ensures forall i :: 0 <= i < |r| ==> Holds(c, r[i])
  {
    if rows == [] then []
    else (if Holds(c, rows[0]) then [rows[0]] else []) + Where(rows[1..], c)
  }

  /** A selection keeps each row meeting `c` as often as the dataset holds it, and no other row. */
  lemma {:induction false} WhereCounts<P, V>(rows: seq<Row<P, V>>, c: Criterion)
    ensures forall x :: multiset(Where(rows, c))[x] == (if Holds(c, x) then multiset(rows)[x] else 0)
  {
    if rows != [] {
      WhereCounts(rows[1..], c);
      assert rows == [rows[0]] + rows[1..];
    }
  }

  /** Every selected row is a dataset row. */
  lemma {:induction false} WhereFromRows<P, V>(rows: seq<Row<P, V>>, c: Criterion)
    ensures forall i :: 0 <= i < |Where(rows, c)| ==> Where(rows, c)[i] in rows
  {
    if rows != [] {
      WhereFromRows(rows[1..], c);
      var w, tail := Where(rows, c), Where(rows[1..], c);
      forall i | 0 <= i < |w|
        ensures w[i] in rows
      {
        if Holds(c, rows[0]) {
          assert w == [rows[0]] + tail;
          if i > 0 {
            assert w[i] == tail[i - 1] && tail[i - 1] in rows[1..];
          }
        } else {
          assert w == tail && w[i] in rows[1..];
        }
      }
    }
  }

  /** A selection keeps the dataset's date order. */
  lemma {:induction false} WhereKeepsOrder<P, V>(rows: seq<Row<P, V>>, c: Criterion)
    requires DateSorted(rows)
    ensures DateSorted(Where(rows, c))
  {
    if rows != [] {
      var tail := Where(rows[1..], c);
      WhereKeepsOrder(rows[1..], c);
      if Holds(c, rows[0]) {
        WhereFromRows(rows[1..], c);
        var w := Where(rows, c);
        assert w == [rows[0]] + tail;
        forall i, j | 0 <= i < j < |w|
          ensures LessEq(w[i].date, w[j].date)
        {
          assert w[j] == tail[j - 1];
          if i > 0 {
            assert w[i] == tail[i - 1];
          } else {
            assert tail[j - 1] in rows[1..];
            var k :| 0 <= k < |rows[1..]| && rows[1..][k] == tail[j - 1];
            assert rows[k + 1] == w[j];
          }
        }
      } else {
        assert Where(rows, c) == tail;
      }
    }
  }

  /** Selecting by `c` then by `d` is selecting by their conjunction `cd`. */
  lemma {:induction false} WhereTwice<P, V>(rows: seq<Row<P, V>>, c: Criterion, d: Criterion, cd: Criterion)
    requires forall x: Row<P, V> :: Holds(cd, x) <==> Holds(c, x) && Holds(d, x)
    ensures Where(Where(rows, c), d) == Where(rows, cd)
  {
    if rows != [] {
      var r := rows[0];
      WhereTwice(rows[1..], c, d, cd);
      assert Holds(cd, r) <==> Holds(c, r) && Holds(d, r);
      if Holds(c, r) {
        var w := Where(rows, c);
        assert w == [r] + Where(rows[1..], c);
        assert w[0] == r && w[1..] == Where(rows[1..], c);
      } else {
        assert Where(rows, c) == Where(rows[1..], c);
      }
    }
  }

  /** A selection no row meets is empty. */
  lemma {:induction false} WhereNone<P, V>(rows: seq<Row<P, V>>, c: Criterion)
    requires forall k :: 0 <= k < |rows| ==> !Holds(c, rows[k])
    ensures Where(rows, c) == []
  {
    if rows != [] {
      WhereNone(rows[1..], c);
    }
  }

  /** A selection that holds exactly on the positions `lo..hi` is that slice. */
  lemma {:induction false} WhereIsSlice<P, V>(rows: seq<Row<P, V>>, c: Criterion, lo: nat, hi: nat)
    requires lo <= hi <= |rows|
    requires forall k :: 0 <= k < |rows| ==> (Holds(c, rows[k]) <==> lo <= k < hi)
    ensures Where(rows, c) == rows[lo..hi]
  {
    if rows != [] {
      var tail := rows[1..];
      var lo', hi' := if lo > 0 then lo - 1 else 0, if hi > 0 then hi - 1 else 0;
      forall k | 0 <= k < |tail|
        ensures Holds(c, tail[k]) <==> lo' <= k < hi'
      {
        assert tail[k] == rows[k + 1];
      }
      WhereIsSlice(tail, c, lo', hi');
      if lo == 0 && hi > 0 {
        assert Holds(c, rows[0]);
        assert rows[0..hi] == [rows[0]] + tail[0..hi - 1];
      } else {
        assert !Holds(c, rows[0]);
        assert tail[lo'..hi'] == rows[lo..hi];
      }
    }
  }

  /** The number of leading rows dated before `start`: where label slicing from `start` begins. */
  function Before<P, V>(rows: seq<Row<P, V>>, start: Date): (n: nat)
    ensures n <= |rows|
    ensures forall k :: 0 <= k < n ==> Less(rows[k].date, start)
    ensures n < |rows| ==> !Less(rows[n].date, start)
  {
    if rows != [] && Less(rows[0].date, start) then 1 + Before(rows[1..], start) else 0
  }

  /** The number of leading rows dated on or before `end`: where label slicing up to `end` stops. */
  function NotAfter<P, V>(rows: seq<Row<P, V>>, end: Date): (n: nat)
    ensures n <= |rows|
    ensures forall k :: 0 <= k < n ==> LessEq(rows[k].date, end)
    ensures n < |rows| ==> !LessEq(rows[n].date, end)
  {
    if rows != [] && LessEq(rows[0].date, end) then 1 + NotAfter(rows[1..], end) else 0
  }

  /** Label slicing of the date index from `start` to `end`, empty when the bounds cross. */
  function SelectWindow<P, V>(rows: seq<Row<P, V>>, start: Date, end: Date): (r: seq<Row<P, V>>)
    ensures forall x :: x in r ==> x in rows
  {
    var lo, hi := Before(rows, start), NotAfter(rows, end);
    if lo <= hi then rows[lo..hi] else []
  }

  /** On the sorted dataset, label slicing keeps exactly the rows dated within `[start, end]`. */
  lemma SelectWindowIsWindow<P, V>(rows: seq<Row<P, V>>, start: Date, end: Date)
    requires DateSorted(rows)
    ensures SelectWindow(rows, start, end) == Where(rows, Window(start, end))
  {
    var lo, hi := Before(rows, start), NotAfter(rows, end);
    forall k | 0 <= k < |rows|
      ensures LessEq(start, rows[k].date) <==> lo <= k
      ensures LessEq(rows[k].date, end) <==> k < hi
    {
      NotLess(rows[k].date, start);
      if lo <= k && lo < |rows| {
        NotLess(rows[lo].date, start);
        LessEqTransitive(start, rows[lo].date, rows[k].date);
      }
      if hi <= k && hi < |rows| {
        NotLess(end, rows[hi].date);
        LessEqLessTransitive(end, rows[hi].date, rows[k].date);
        LessAsymmetric(end, rows[k].date);
      }
    }
    if lo <= hi {
      WhereIsSlice(rows, Window(start, end), lo, hi);
    } else {
      WhereIsSlice(rows, Window(start, end), 0, 0);
    }
  }

  /** The callbacks' selection: the date window, then the rows whose `Name` equals the company. */
  function FilteredRows<P, V>(rows: seq<Row<P, V>>, company: string, start: Date, end: Date): (r: seq<Row<P, V>>)
    ensures |r| <= |rows|
    ensures forall i :: 0 <= i < |r| ==> r[i].name == company
  {
    Where(SelectWindow(rows, start, end), Company(company))
  }

  /** On the sorted dataset the callbacks' rows are exactly the company's rows dated within
      `[start, end]`, each as often as in the dataset, in date order. */
  lemma FilteredRowsAreMatches<P, V>(rows: seq<Row<P, V>>, company: string, start: Date, end: Date)
    requires DateSorted(rows)
    ensures FilteredRows(rows, company, start, end) == Where(rows, CompanyInWindow(company, start, end))
    ensures forall x :: (multiset(FilteredRows(rows, company, start, end))[x]
      == if x.name == company && InWindow(x.date, start, end) then multiset(rows)[x] else 0)
    ensures DateSorted(FilteredRows(rows, company, start, end))
  {
    SelectWindowIsWindow(rows, start, end);
    WhereCounts(rows, CompanyInWindow(company, start, end));
    WhereTwice(rows, Window(start, end), Company(company), CompanyInWindow(company, start, end));
    WhereKeepsOrder(rows, CompanyInWindow(company, start, end));
  }

  /** Label slicing, as the model's leading-count positions compute it, selects nothing when the start is later than the end. */
  lemma SelectWindowCrossed<P, V>(rows: seq<Row<P, V>>, start: Date, end: Date)
    requires Less(end, start)
    ensures SelectWindow(rows, start, end) == []
  {
    var lo, hi := Before(rows, start), NotAfter(rows, end);
    if lo < hi {
      NotLess(rows[lo].date, start);
      LessEqTransitive(start, rows[lo].date, end);
      LessAsymmetric(end, start);
    }
  }

  /** A start later than the end yields no rows, and raises no error. */
  lemma CrossedWindowHasNoRows<P, V>(rows: seq<Row<P, V>>, company: string, start: Date, end: Date)
    requires Less(end, start)
    ensures FilteredRows(rows, company, start, end) == []
  {
    SelectWindowCrossed(rows, start, end);
  }

  /** A company with no row in the dataset yields no rows, and raises no error. */
  lemma UnknownCompanyHasNoRows<P, V>(rows: seq<Row<P, V>>, company: string, start: Date, end: Date)
    requires forall k :: 0 <= k < |rows| ==> rows[k].name != company
    ensures FilteredRows(rows, company, start, end) == []
  {
    var w := SelectWindow(rows, start, end);
    forall k | 0 <= k < |w|
      ensures !Holds(Company(company), w[k])
    {
      assert w[k] in rows;
    }
    WhereNone(w, Company(company));
  }

  function Dates<P, V>(rows: seq<Row<P, V>>): seq<Date> {
    seq(|rows|, i requires 0 <= i < |rows| => rows[i].date)
  }

  function Closes<P, V>(rows: seq<Row<P, V>>): seq<P> {
    seq(|rows|, i requires 0 <= i < |rows| => rows[i].close)
  }

  function Volumes<P, V>(rows: seq<Row<P, V>>): seq<V> {
    seq(|rows|, i requires 0 <= i < |rows| => rows[i].volume)
  }

  /** One chart trace: x values, y values, the trace type and an optional marker colour. */
  datatype ChartTrace<Y> = ChartTrace(x: seq<Date>, y: seq<Y>, kind: string, markerColor: Option<string>)

  /** A chart's layout: title text and placement, whether each axis is fixed, the y tick prefix and the colour cycle. */
  datatype ChartLayout = ChartLayout(title: string, titleX: real, titleAnchor: string,
                                     xFixed: bool, yFixed: bool, tickPrefix: Option<string>,
                                     colorway: seq<string>)

  datatype Chart<Y> = Chart(data: seq<ChartTrace<Y>>, layout: ChartLayout)

  const PriceLayout := ChartLayout("Closing Price of Stocks", 0.05, "left", true, true, Some("$"), ["#17b897"])
  const VolumeLayout := ChartLayout("Volume Traded", 0.05, "left", true, true, None, ["#636efa"])

  /** `update_price_chart`: `None` is "no update". A chart is drawn exactly when all three
      inputs are given and non-empty, and it is one line trace under the price layout. */
  function UpdatePriceChart<P, V>(rows: seq<Row<P, V>>, company: Option<string>,
                                  start: Option<Date>, end: Option<Date>): (r: Option<Chart<P>>)
    ensures r.None? <==> !Truthy(company) || !Truthy(start) || !Truthy(end)
    ensures r.Some? ==>
      r.value.layout == PriceLayout && |r.value.data| == 1 &&
      r.value.data[0].kind == "lines" && |r.value.data[0].x| == |r.value.data[0].y|
  {
    if !Truthy(company) || !Truthy(start) || !Truthy(end) then None
    else
      var f := FilteredRows(rows, company.value, start.value, end.value);
      Some(Chart([ChartTrace(Dates(f), Closes(f), "lines", None)], PriceLayout))
  }

  /** `update_volume_chart`: `None` is "no update". A chart is drawn exactly when all three
      inputs are given and non-empty, and it is one bar trace under the volume layout. */
  function UpdateVolumeChart<P, V>(rows: seq<Row<P, V>>, company: Option<string>,
                                   start: Option<Date>, end: Option<Date>): (r: Option<Chart<V>>)
    ensures r.None? <==> !Truthy(company) || !Truthy(start) || !Truthy(end)
    ensures r.Some? ==>
      r.value.layout == VolumeLayout && |r.value.data| == 1 &&
      r.value.data[0].kind == "bar" && r.value.data[0].markerColor == Some("#636efa") &&
      |r.value.data[0].x| == |r.value.data[0].y|
  {
    if !Truthy(company) || !Truthy(start) || !Truthy(end) then None
    else
      var f := FilteredRows(rows, company.value, start.value, end.value);
      Some(Chart([ChartTrace(Dates(f), Volumes(f), "bar", Some("#636efa"))], VolumeLayout))
  }

  /**
   * The price chart is withheld exactly when an input is missing or empty;
   * otherwise it has one trace whose points are, in date order, the date and
   * `close` of the company's rows within `[start, end]`, under a fixed layout.
   */
  lemma PriceChartPlotsMatches<P, V>(rows: seq<Row<P, V>>, company: Option<string>,
                                     start: Option<Date>, end: Option<Date>)
    requires DateSorted(rows)
    ensures UpdatePriceChart(rows, company, start, end).None? <==> !Truthy(company) || !Truthy(start) || !Truthy(end)
    ensures UpdatePriceChart(rows, company, start, end).Some? ==>
      var chart := UpdatePriceChart(rows, company, start, end).value;
      var m := Where(rows, CompanyInWindow(company.value, start.value, end.value));
      chart.layout == PriceLayout && |chart.data| == 1 &&
      |chart.data[0].x| == |chart.data[0].y| == |m| &&
      (forall k :: 0 <= k < |m| ==> chart.data[0].x[k] == m[k].date && chart.data[0].y[k] == m[k].close) &&
      (forall i, j :: 0 <= i < j < |m| ==> LessEq(chart.data[0].x[i], chart.data[0].x[j]))
  {
    if Truthy(company) && Truthy(start) && Truthy(end) {
      FilteredRowsAreMatches(rows, company.value, start.value, end.value);
    }
  }

  /** The same for the volume chart, with `volume` for y. */
  lemma VolumeChartPlotsMatches<P, V>(rows: seq<Row<P, V>>, company: Option<string>,
                                      start: Option<Date>, end: Option<Date>)
    requires DateSorted(rows)
    ensures UpdateVolumeChart(rows, company, start, end).None? <==> !Truthy(company) || !Truthy(start) || !Truthy(end)
    ensures UpdateVolumeChart(rows, company, start, end).Some? ==>
      var chart := UpdateVolumeChart(rows, company, start, end).value;
      var m := Where(rows, CompanyInWindow(company.value, start.value, end.value));
      chart.layout == VolumeLayout && |chart.data| == 1 &&
      |chart.data[0].x| == |chart.data[0].y| == |m| &&
      (forall k :: 0 <= k < |m| ==> chart.data[0].x[k] == m[k].date && chart.data[0].y[k] == m[k].volume) &&
      (forall i, j :: 0 <= i < j < |m| ==> LessEq(chart.data[0].x[i], chart.data[0].x[j]))
  {
    if Truthy(company) && Truthy(start) && Truthy(end) {
      FilteredRowsAreMatches(rows, company.value, start.value, end.value);
    }
  }

  /** The two charts update together and share their x axis. */
  lemma ChartsShareDates<P, V>(rows: seq<Row<P, V>>, company: Option<string>,
                               start: Option<Date>, end: Option<Date>)
    ensures UpdatePriceChart(rows, company, start, end).Some? <==> UpdateVolumeChart(rows, company, start, end).Some?
    ensures UpdatePriceChart(rows, company, start, end).Some? ==>
      UpdatePriceChart(rows, company, start, end).value.data[0].x == UpdateVolumeChart(rows, company, start, end).value.data[0].x
  {
  }

  /** Strictly increasing: sorted with no repeats. */
  predicate StrictlySorted(names: seq<string>) {
    forall i, j :: 0 <= i < j < |names| ==> Less(names[i], names[j])
  }

  /** Adds `name` to a strictly sorted list unless it is already there. */
  function InsertName(names: seq<string>, name: string): (r: seq<string>)
    requires StrictlySorted(names)
    ensures StrictlySorted(r)
    ensures forall n :: n in r <==> n in names || n == name
  {
    if names == [] then [name]
    else if name == names[0] then names
    else if Less(name, names[0]) then
      assert forall k :: 0 < k < |names| ==> Less(names[0], names[k]);
      forall k | 0 < k < |names| ensures Less(name, names[k]) {
        LessTransitive(name, names[0], names[k]);
      }
      [name] + names
    else
      var tail := InsertName(names[1..], name);
      LessTotal(name, names[0]);
      assert forall n :: n in tail ==> Less(names[0], n);
      [names[0]] + tail
  }

  /** The dropdown's companies: the dataset's names, sorted, each once. */
  function Companies<P, V>(rows: seq<Row<P, V>>): (r: seq<string>)
    ensures StrictlySorted(r)
    ensures forall n :: n in r <==> exists i :: 0 <= i < |rows| && rows[i].name == n
  {
    if rows == [] then []
    else
      var rest := Companies(rows[1..]);
      forall n | n in rest
        ensures exists i :: 0 <= i < |rows| && rows[i].name == n
      {
        var i :| 0 <= i < |rows[1..]| && rows[1..][i].name == n;
        assert rows[i + 1].name == n;
      }
      forall i | 1 <= i < |rows|
        ensures rows[i].name in rest
      {
        assert rows[1..][i - 1].name == rows[i].name;
      }
      InsertName(rest, rows[0].name)
  }
}
