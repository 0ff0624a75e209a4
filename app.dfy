/** The data rules of the Streamlit front end (system/03_scripts/app.py:144-285):
    composing the search keyword, drawing the ten-cell progress bar, putting the
    table's columns in the preferred order, and the "show 20 more" window over the
    collected rows, which lives in the session across reruns. Widgets, styling and
    file export are not modelled. */
module App {
  import opened Text
  import opened Records
  import opened Collector

  const PageSize: nat := 20
  const BarCells: nat := 10
  const FilledCell := '▓'
  const EmptyCell := '░'

  // ---------------------------------------------------------------------------
  // Search keyword

  /** Collection starts only when both the region and the industry are filled in;
      otherwise only a warning is shown. */
  predicate CanStart(region: string, industry: string)
  {
    region != "" && industry != ""
  }

  /** `f"{region} {industry} {others}".strip()` */
  function ComposeKeyword(region: string, industry: string, others: string): (r: string)
    ensures r == [] || (!IsSpace(r[0]) && !IsSpace(r[|r| - 1]))
  {
    Strip(region + " " + industry + " " + others)
  }

  predicate Trimmed(s: string)
  {
    s == [] || (!IsSpace(s[0]) && !IsSpace(s[|s| - 1]))
  }

  /** With trimmed terms the keyword is the terms separated by single spaces, and
      an empty extra term leaves no trailing space behind. */
  lemma KeywordOfTrimmedTerms(region: string, industry: string, others: string)
    requires region != [] && industry != [] && Trimmed(region) && Trimmed(industry) && Trimmed(others)
    ensures ComposeKeyword(region, industry, others) ==
            if others == [] then region + " " + industry else region + " " + industry + " " + others
  {
    var core := region + " " + industry;
    if others == [] {
      assert region + " " + industry + " " + others == [] + core + " ";
      StripPadded([], core, " ");
    } else {
      var whole := core + " " + others;
      assert region + " " + industry + " " + others == [] + whole + [];
      StripPadded([], whole, []);
    }
  }

  // ---------------------------------------------------------------------------
  // Progress bar

  /** `int((current / total) * 10 if total > 0 else 0)`, computed exactly. */
  function FilledCells(current: nat, total: nat): (n: nat)
    ensures total == 0 ==> n == 0
    ensures current <= total ==> n <= BarCells
    ensures total > 0 && current == total ==> n == BarCells
  {
    if total > 0 then (current * BarCells) / total else 0
  }

  /** `"▓" * pct + "░" * (10 - pct)`; a negative repeat count gives the empty string. */
  function ProgressBar(current: nat, total: nat): (r: string)
    ensures |r| == if FilledCells(current, total) <= BarCells then BarCells else FilledCells(current, total)
    ensures forall k | 0 <= k < |r| :: r[k] == if k < FilledCells(current, total) then FilledCell else EmptyCell
  {
    var filled := FilledCells(current, total);
    Repeat(FilledCell, filled) + Repeat(EmptyCell, if filled <= BarCells then BarCells - filled else 0)
  }

  /** The total as shown after the slash: "?" while it is unknown (zero). */
  function TotalLabel(total: nat): (r: string)
    ensures r == "?" <==> total == 0
  {
    if total > 0 then NatToString(total) else "?"
  }

  /** The filled count is the floor of ten times the completed fraction. */
  lemma FilledIsFloor(current: nat, total: nat)
    requires 0 < total && current <= total
    ensures FilledCells(current, total) * total <= current * BarCells < (FilledCells(current, total) + 1) * total
    ensures FilledCells(current, total) <= BarCells
  {
    var q := FilledCells(current, total);
    var a := current * BarCells;
    assert a == total * q + a % total;
    assert a <= total * BarCells;
  }

  /** A bar for `current <= total` always has ten cells: the filled ones first,
      then the empty ones; with the total unknown every cell is empty. */
  lemma BarShape(current: nat, total: nat)
    requires current <= total
    ensures |ProgressBar(current, total)| == BarCells
    ensures forall k | 0 <= k < BarCells ::
              ProgressBar(current, total)[k] == if k < FilledCells(current, total) then FilledCell else EmptyCell
    ensures total == 0 ==> ProgressBar(current, total) == Repeat(EmptyCell, BarCells)
  {
    if total > 0 {
      FilledIsFloor(current, total);
    }
  }

  /** More progress never empties a cell. */
  lemma FilledMonotone(a: nat, b: nat, total: nat)
    requires a <= b
    ensures FilledCells(a, total) <= FilledCells(b, total)
  {
    if total > 0 {
      DivMonotone(a * BarCells, b * BarCells, total);
    }
  }

  lemma DivMonotone(x: nat, y: nat, t: nat)
    requires x <= y && t > 0
    ensures x / t <= y / t
  {
    var qx, qy := x / t, y / t;
    assert x == t * qx + x % t;
    assert y == t * qy + y % t;
    ScaledLess(t, qx, qy + 1);
  }

  lemma ScaledLess(t: nat, x: nat, y: nat)
    requires t > 0 && t * x < t * y
    ensures x < y
  {
  }

  /** The progress callback, called once per event in the order of the events:
      bar `i` is drawn from event `i`. */
  method DrawBars(events: seq<ProgressEvent>) returns (bars: seq<string>)
    ensures |bars| == |events|
    ensures forall i | 0 <= i < |events| :: bars[i] == ProgressBar(events[i].current, events[i].total)
  {
    bars := [];
    for i := 0 to |events|
      invariant |bars| == i
      invariant forall j | 0 <= j < i :: bars[j] == ProgressBar(events[j].current, events[j].total)
    {
      bars := bars + [ProgressBar(events[i].current, events[i].total)];
    }
  }

  /** Every bar drawn during a run has exactly ten cells. */
  lemma RunBarsWhole(keyword: string, maxResults: nat, dir: Directory, date: string)
    ensures forall e | e in Collect(keyword, maxResults, dir, date).events :: |ProgressBar(e.current, e.total)| == BarCells
  {
    EventsWithinTotal(keyword, maxResults, dir, date);
    forall e | e in Collect(keyword, maxResults, dir, date).events
      ensures |ProgressBar(e.current, e.total)| == BarCells
    {
      BarShape(e.current, e.total);
    }
  }

  // ---------------------------------------------------------------------------
  // Column order

  /** The preferred column order: industry, company, website, phone, contact form,
      SNS, web catalog, address, remarks, collection date. */
  const PreferredColumns: seq<string> := ["業種", "企業名", "Webサイト", "電話番号", "問合せフォーム", "SNS", "Webカタログ", "住所", "備考", "収集日"]

  /** The columns of a table built from lead records, in the records' key order. */
  const RecordColumns: seq<string> := ["企業名", "業種", "住所", "電話番号", "Webサイト", "問合せフォーム", "SNS", "Webカタログ", "備考", "収集日"]

  function Elems(xs: seq<string>): set<string>
  {
    set x | x in xs
  }

  /** `[c for c in xs if c not in ys]` */
  function Without(xs: seq<string>, ys: seq<string>): seq<string>
  {
    if xs == [] then [] else (if xs[0] in ys then [] else [xs[0]]) + Without(xs[1..], ys)
  }

  /** `existing_cols + rest_cols`: the preferred columns that are present, in the
      preferred order, then the other columns in their original order. */
  function ReorderColumns(preferred: seq<string>, columns: seq<string>): (r: seq<string>)
    ensures |Filter(preferred, Elems(columns))| <= |r|
    ensures Subsequence(r[..|Filter(preferred, Elems(columns))|], preferred)
    ensures forall i | 0 <= i < |Filter(preferred, Elems(columns))| :: r[i] in columns
    ensures forall i | |Filter(preferred, Elems(columns))| <= i < |r| :: r[i] !in preferred
    ensures Subsequence(r[|Filter(preferred, Elems(columns))|..], columns)
  {
    var existing := Filter(preferred, Elems(columns));
    var rest := Without(columns, existing);
    FilterExactly(preferred, Elems(columns));
    FilterSubsequence(preferred, Elems(columns));
    WithoutExactly(columns, existing);
    WithoutSubsequence(columns, existing);
    assert forall x | x in existing :: x in columns by {
      forall x | x in existing ensures x in columns {
        assert x in Elems(columns);
      }
    }
    assert (existing + rest)[..|existing|] == existing && (existing + rest)[|existing|..] == rest;
    existing + rest
  }

  /** Dropping elements keeps the order of the others. */
  lemma {:induction false} WithoutSubsequence(xs: seq<string>, ys: seq<string>)
    ensures Subsequence(Without(xs, ys), xs)
    decreases |xs|
  {
    if xs != [] {
      WithoutSubsequence(xs[1..], ys);
      var w := Without(xs, ys);
      if xs[0] in ys {
        assert w == Without(xs[1..], ys);
      } else {
        assert w[0] == xs[0] && w[1..] == Without(xs[1..], ys);
      }
    }
  }

  lemma {:induction false} WithoutExactly(xs: seq<string>, ys: seq<string>)
    ensures forall x :: x in Without(xs, ys) <==> x in xs && x !in ys
    ensures Distinct(xs) ==> Distinct(Without(xs, ys))
    decreases |xs|
  {
    if xs != [] {
      WithoutExactly(xs[1..], ys);
      if Distinct(xs) {
        DistinctTail(xs);
      }
    }
  }

  /** In a sequence without repetitions every element occurs exactly once. */
  lemma {:induction false} DistinctCounts(xs: seq<string>, x: string)
    requires Distinct(xs)
    ensures multiset(xs)[x] == if x in xs then 1 else 0
    decreases |xs|
  {
    if xs != [] {
      assert xs == [xs[0]] + xs[1..];
      DistinctTail(xs);
      DistinctCounts(xs[1..], x);
    }
  }

  /** Reordering loses no column and adds none: the result is a permutation of the
      table's columns, without repetitions, whose preferred columns come first. */
  lemma ReorderIsPermutation(preferred: seq<string>, columns: seq<string>)
    requires Distinct(preferred) && Distinct(columns)
    ensures multiset(ReorderColumns(preferred, columns)) == multiset(columns)
    ensures Distinct(ReorderColumns(preferred, columns))
  {
    var existing := Filter(preferred, Elems(columns));
    var rest := Without(columns, existing);
    var r := existing + rest;
    FilterExactly(preferred, Elems(columns));
    WithoutExactly(columns, existing);
    assert Distinct(r) by {
      forall i, j | 0 <= i < j < |r| ensures r[i] != r[j] {
        if j < |existing| {
        } else if i >= |existing| {
          assert r[i] == rest[i - |existing|] && r[j] == rest[j - |existing|];
        } else {
          assert r[i] in existing && r[j] in rest;
        }
      }
    }
    forall x ensures multiset(r)[x] == multiset(columns)[x] {
      DistinctCounts(r, x);
      DistinctCounts(columns, x);
    }
    assert multiset(r) == multiset(columns);
  }

  /** When the table has exactly the preferred columns, in whatever order, the
      result is the preferred order. */
  lemma ReorderAllPreferred(preferred: seq<string>, columns: seq<string>)
    requires forall x | x in preferred :: x in Elems(columns)
    requires forall x | x in columns :: x in preferred
    ensures ReorderColumns(preferred, columns) == preferred
  {
    PreferredAllKept(preferred, Elems(columns));
    AllDropped(columns, preferred);
  }

  lemma {:induction false} AllDropped(xs: seq<string>, ys: seq<string>)
    requires forall x | x in xs :: x in ys
    ensures Without(xs, ys) == []
    decreases |xs|
  {
    if xs != [] {
      AllDropped(xs[1..], ys);
    }
  }

  /** For the columns a lead table actually has, the result is exactly the preferred order. */
  lemma RecordColumnsReordered()
    ensures ReorderColumns(PreferredColumns, RecordColumns) == PreferredColumns
  {
    SameColumnNames();
    ReorderAllPreferred(PreferredColumns, RecordColumns);
  }

  lemma {:induction false} PreferredAllKept(xs: seq<string>, keep: set<string>)
    requires forall x | x in xs :: x in keep
    ensures Filter(xs, keep) == xs
    decreases |xs|
  {
    if xs != [] {
      PreferredAllKept(xs[1..], keep);
      assert xs == [xs[0]] + xs[1..];
    }
  }

  /** The two column lists name the same ten columns. */
  lemma SameColumnNames()
    ensures forall x | x in PreferredColumns :: x in Elems(RecordColumns)
    ensures forall x | x in RecordColumns :: x in PreferredColumns
  {
    var p, r := PreferredColumns, RecordColumns;
    assert p[0] == r[1] && p[1] == r[0] && p[2] == r[4] && p[3] == r[3] && p[4] == r[5];
    assert p[5] == r[6] && p[6] == r[7] && p[7] == r[2] && p[8] == r[8] && p[9] == r[9];
    forall x | x in p ensures x in Elems(r) {
      var i :| 0 <= i < |p| && p[i] == x;
    }
    forall x | x in r ensures x in p {
      var i :| 0 <= i < |r| && r[i] == x;
    }
  }

  // ---------------------------------------------------------------------------
  // The results shown in the session

  /** The collected table: its column names and its rows. */
  datatype Table = Table(columns: seq<string>, rows: seq<LeadRecord>)

  /** What pressing the start button led to. */
  datatype StartOutcome = MissingTerms | NothingFound | Shown

  /** The session state `leads_df` and `visible_count`, which survive reruns. */
  class ResultsView {
    var table: Option<Table>
    var visibleCount: nat

    /** The window only ever grows by whole pages from one page. */
    ghost predicate Valid()
      reads this
    {
      visibleCount >= PageSize && visibleCount % PageSize == 0
    }

    /** The session's first run: no table yet, a window of 20 rows. */
    constructor ()
      ensures Valid() && table == None && visibleCount == PageSize
    {
      table := None;
      visibleCount := PageSize;
    }

    /** `min(visible_count, total_count)` */
    function CurrentVisible(): (n: nat)
      reads this
      requires table.Some?
      ensures n <= |table.value.rows| && n <= visibleCount
      ensures n == visibleCount || n == |table.value.rows|
      ensures Valid() ==> n >= Min(PageSize, |table.value.rows|)
    {
      Min(visibleCount, |table.value.rows|)
    }

    /** `df.iloc[:current_visible]`: the first rows of the table, as many as the window shows. */
    function DisplayedRows(): (shown: seq<LeadRecord>)
      reads this
      requires table.Some?
      ensures shown <= table.value.rows
      ensures |shown| == CurrentVisible()
    {
      table.value.rows[..CurrentVisible()]
    }

    /** The "show more" button is offered exactly when rows are hidden. */
    predicate LoadMoreOffered()
      reads this
      requires table.Some?
    {
      CurrentVisible() < |table.value.rows|
    }

    /** The number on the "show more" button: the rows not yet shown. */
    function Remaining(): (n: nat)
      reads this
      requires table.Some?
      ensures n == |table.value.rows| - |DisplayedRows()|
      ensures n > 0 <==> LoadMoreOffered()
    {
      |table.value.rows| - CurrentVisible()
    }

    /** Pressing "show more" widens the window by exactly 20 rows. */
    method LoadMore()
      requires Valid() && table.Some? && LoadMoreOffered()
      modifies this
      ensures Valid() && table == old(table)
      ensures visibleCount == old(visibleCount) + PageSize
      ensures |DisplayedRows()| == Min(old(|DisplayedRows()|) + PageSize, |table.value.rows|)
    {
      visibleCount := visibleCount + PageSize;
    }

    /** A non-empty result replaces the table, its columns (`columns`, in the
        records' key order) reordered into the preferred order, and resets the
        window to 20 rows; an empty result leaves all as it was. */
    method ShowResults(columns: seq<string>, results: seq<LeadRecord>)
      requires Valid()
      modifies this
      ensures Valid()
      ensures results == [] ==> table == old(table) && visibleCount == old(visibleCount)
      ensures results != [] ==>
        table == Some(Table(ReorderColumns(PreferredColumns, columns), results)) && visibleCount == PageSize
    {
      if results != [] {
        table := Some(Table(ReorderColumns(PreferredColumns, columns), results));
        visibleCount := PageSize;
      }
    }

    /** The start button (app.py:198-234): check the terms, compose the keyword,
        run the collection drawing one bar per progress event, and show what came back. */
    method Start(region: string, industry: string, others: string, count: nat, dir: Directory, date: string)
        returns (outcome: StartOutcome, bars: seq<string>)
      requires Valid() && 1 <= count <= 300
      modifies this
      ensures Valid()
      ensures outcome == MissingTerms <==> !CanStart(region, industry)
      ensures outcome != Shown ==> table == old(table) && visibleCount == old(visibleCount)
      ensures outcome == Shown ==>
        var run := Collect(ComposeKeyword(region, industry, others), count, dir, date);
        run.leads != [] && table == Some(Table(PreferredColumns, run.leads)) &&
        visibleCount == PageSize
      ensures CanStart(region, industry) ==>
        var run := Collect(ComposeKeyword(region, industry, others), count, dir, date);
        (outcome == Shown <==> run.leads != []) && |bars| == |run.events| &&
        forall i | 0 <= i < |bars| :: bars[i] == ProgressBar(run.events[i].current, run.events[i].total)
      ensures !CanStart(region, industry) ==> bars == []
      ensures forall b | b in bars :: |b| == BarCells
    {
      bars := [];
      if region == "" || industry == "" {
        outcome := MissingTerms;
        return;
      }
      var keyword := ComposeKeyword(region, industry, others);
      var results, events := CollectLeads(keyword, count, dir, date);
      bars := DrawBars(events);
      RunBarsWhole(keyword, count, dir, date);
      forall b | b in bars ensures |b| == BarCells {
        var j :| 0 <= j < |bars| && bars[j] == b;
        assert events[j] in events;
      }
      if results != [] {
        ShowResults(RecordColumns, results);
        RecordColumnsReordered();
        outcome := Shown;
      } else {
        outcome := NothingFound;
      }
    }
  }
}
