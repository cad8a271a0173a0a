/**
 * The dashboard views of streamlit_app.py, computed from the master table:
 * the corridor/month scope, the optional container-size and mode filters, the two
 * best-price pivots (minimum price per container, mode and supplier) with their
 * per-mode minimum highlighting, and the price trend per month and series.
 *
 * Widgets, rendering and charting are not modelled: the user's selections are
 * parameters and each view is returned as data.
 */
module Views {
  import opened Wrappers
  import opened Pricing
  import Ingestion

  // ---------------------------------------------------------------------------
  // Filters

  /** A pivot cell: container (row) and mode and supplier (column). */
  datatype CellKey = CellKey(container: string, mode: string, supplier: string)

  /** A trend point: the file month and the series label. */
  datatype Point = Point(month: string, series: string)

  /** The conditions the dashboard narrows the master table by. */
  datatype Criterion =
    | Everything
    | DestinationIs(dest: string)
    | MonthIs(month: string)
    | SupplierIs(supplier: string)
    | MonthIn(months: seq<string>)
    | ContainerIn(sizes: seq<string>)
    | ModeIn(modes: seq<string>)
    | CellIs(key: CellKey)
    | PointIs(point: Point, haz: bool)
    | Both(left: Criterion, right: Criterion)

  function KeyOf(q: Quote): CellKey
  {
    CellKey(q.container, q.mode, q.supplier)
  }

  /** The hazard tag that ends a series label. */
  function HazTag(haz: bool): string
  {
    if haz then "DG" else "NDG"
  }

  /** `Supplier | Container | Mode | DG` (or `NDG`): the legend entry of one trend series. */
  function SeriesLabel(q: Quote, haz: bool): string
  {
    q.supplier + " | " + q.container + " | " + q.mode + " | " + HazTag(haz)
  }

  function PointOf(q: Quote, haz: bool): Point
  {
    Point(q.month, SeriesLabel(q, haz))
  }

  predicate Matches(q: Quote, c: Criterion)
  {
    match c
    case Everything => true
    case DestinationIs(d) => q.destination == d
    case MonthIs(m) => q.month == m
    case SupplierIs(s) => q.supplier == s
    case MonthIn(ms) => q.month in ms
    case ContainerIn(sizes) => q.container in sizes
    case ModeIn(modes) => q.mode in modes
    case CellIs(k) => KeyOf(q) == k
    case PointIs(p, haz) => PointOf(q, haz) == p
    case Both(a, b) => Matches(q, a) && Matches(q, b)
  }

  /** A boolean-mask selection `df[mask]`: the matching quotes, in their original order. */
  function Filter(s: seq<Quote>, c: Criterion): (r: seq<Quote>)
    ensures |r| <= |s|
    ensures forall q :: q in r <==> q in s && Matches(q, c)
    ensures forall q :: multiset(r)[q] == if Matches(q, c) then multiset(s)[q] else 0
  {
    if s == [] then []
    else
      var init := Filter(s[..|s| - 1], c);
      var last := s[|s| - 1];
      assert s == s[..|s| - 1] + [last];
      assert multiset(s) == multiset(s[..|s| - 1]) + multiset{last};
      if Matches(last, c) then
        assert multiset(init + [last]) == multiset(init) + multiset{last};
        init + [last]
      else init
  }

  /** Selecting twice is selecting by both conditions. */
  lemma {:induction false} FilterBoth(s: seq<Quote>, a: Criterion, b: Criterion)
    ensures Filter(Filter(s, a), b) == Filter(s, Both(a, b))
    decreases |s|
  {
    if s != [] {
      var init := s[..|s| - 1];
      FilterBoth(init, a, b);
      var fa := Filter(s, a);
      if Matches(s[|s| - 1], a) {
        assert fa[..|fa| - 1] == Filter(init, a);
      }
    }
  }

  /** Selecting by no condition keeps everything. */
  lemma {:induction false} FilterEverything(s: seq<Quote>)
    ensures Filter(s, Everything) == s
    decreases |s|
  {
    if s != [] {
      FilterEverything(s[..|s| - 1]);
      assert s[..|s| - 1] + [s[|s| - 1]] == s;
    }
  }

  /** `if f_size:` -- an empty multiselect filters nothing. */
  function SizeFilter(sizes: seq<string>): Criterion
  {
    if sizes == [] then Everything else ContainerIn(sizes)
  }

  /** `if f_mode:` -- an empty multiselect filters nothing. */
  function ModeFilter(modes: seq<string>): Criterion
  {
    if modes == [] then Everything else ModeIn(modes)
  }

  /** A quote of the selected destination in the selected month. */
  predicate InCorridor(q: Quote, dest: string, month: string)
  {
    q.destination == dest && q.month == month
  }

  /** A quote of the selected supplier in the selected month. */
  predicate InCatalog(q: Quote, supplier: string, month: string)
  {
    q.supplier == supplier && q.month == month
  }

  /** A quote that passes the container-size and mode picks; an empty pick passes everything. */
  predicate Picked(q: Quote, sizes: seq<string>, modes: seq<string>)
  {
    (sizes == [] || q.container in sizes) && (modes == [] || q.mode in modes)
  }

  /** A quote the trend draws on: the destination, one of the months picked, and the same picks. */
  predicate InHistory(q: Quote, dest: string, months: seq<string>, sizes: seq<string>, modes: seq<string>)
  {
    q.destination == dest && q.month in months && Picked(q, sizes, modes)
  }

  /** `corridor_data`: the quotes of the selected destination in the selected month, each as often as in `df`. */
  function Scope(df: seq<Quote>, dest: string, month: string): (corridor: seq<Quote>)
    ensures forall q :: q in corridor <==> q in df && InCorridor(q, dest, month)
    ensures forall q :: multiset(corridor)[q] == if InCorridor(q, dest, month) then multiset(df)[q] else 0
  {
    var c := Both(DestinationIs(dest), MonthIs(month));
    assert forall q :: Matches(q, c) <==> InCorridor(q, dest, month);
    Filter(df, c)
  }

  /** The supplier catalog: every quote of one supplier in the selected month. */
  function Catalog(df: seq<Quote>, supplier: string, month: string): (catalog: seq<Quote>)
    ensures forall q :: q in catalog <==> q in df && InCatalog(q, supplier, month)
    ensures forall q :: multiset(catalog)[q] == if InCatalog(q, supplier, month) then multiset(df)[q] else 0
  {
    var c := Both(SupplierIs(supplier), MonthIs(month));
    assert forall q :: Matches(q, c) <==> InCatalog(q, supplier, month);
    Filter(df, c)
  }

  /** `narrowed`: the corridor data, narrowed by the container sizes and then by the modes picked. */
  method Narrow(corridor: seq<Quote>, sizes: seq<string>, modes: seq<string>) returns (narrowed: seq<Quote>)
    ensures narrowed == Filter(corridor, Both(SizeFilter(sizes), ModeFilter(modes)))
    ensures forall q :: q in narrowed <==> q in corridor && Picked(q, sizes, modes)
  {
    narrowed := corridor;
    FilterEverything(corridor);
    if |sizes| > 0 {
      narrowed := Filter(narrowed, ContainerIn(sizes));
    }
    ghost var bySize := narrowed;
    FilterEverything(bySize);
    if |modes| > 0 {
      narrowed := Filter(narrowed, ModeIn(modes));
    }
    FilterBoth(corridor, SizeFilter(sizes), ModeFilter(modes));
    MatchesSelection(sizes, modes);
  }

  /** The size and mode selections, spelled out. */
  lemma MatchesSelection(sizes: seq<string>, modes: seq<string>)
    ensures forall q :: Matches(q, Both(SizeFilter(sizes), ModeFilter(modes))) <==> Picked(q, sizes, modes)
  {
  }

  function HistoryCriterion(dest: string, months: seq<string>, sizes: seq<string>, modes: seq<string>): Criterion
  {
    Both(Both(Both(DestinationIs(dest), MonthIn(months)), SizeFilter(sizes)), ModeFilter(modes))
  }

  /**
   * `history_data`: the quotes of the selected destination in the months picked
   * for the trend, narrowed by the same size and mode selections.
   */
  method History(df: seq<Quote>, dest: string, months: seq<string>, sizes: seq<string>, modes: seq<string>)
    returns (history: seq<Quote>)
    ensures history == Filter(df, HistoryCriterion(dest, months, sizes, modes))
    ensures forall q :: q in history <==> q in df && InHistory(q, dest, months, sizes, modes)
  {
    history := Filter(df, DestinationIs(dest));
    history := Filter(history, MonthIn(months));
    FilterBoth(df, DestinationIs(dest), MonthIn(months));
    ghost var byMonth := history;
    FilterEverything(byMonth);
    if |sizes| > 0 {
      history := Filter(history, ContainerIn(sizes));
    }
    FilterBoth(df, Both(DestinationIs(dest), MonthIn(months)), SizeFilter(sizes));
    ghost var bySize := history;
    FilterEverything(bySize);
    if |modes| > 0 {
      history := Filter(history, ModeIn(modes));
    }
    FilterBoth(df, Both(Both(DestinationIs(dest), MonthIn(months)), SizeFilter(sizes)), ModeFilter(modes));
    MatchesHistory(dest, months, sizes, modes);
  }

  lemma MatchesHistory(dest: string, months: seq<string>, sizes: seq<string>, modes: seq<string>)
    ensures forall q :: Matches(q, HistoryCriterion(dest, months, sizes, modes)) <==>
      InHistory(q, dest, months, sizes, modes)
  {
    MatchesSelection(sizes, modes);
    forall q ensures Matches(q, HistoryCriterion(dest, months, sizes, modes)) <==>
      Matches(q, DestinationIs(dest)) && Matches(q, MonthIn(months))
      && Matches(q, Both(SizeFilter(sizes), ModeFilter(modes)))
    {
      var place := Both(DestinationIs(dest), MonthIn(months));
      assert Matches(q, Both(place, SizeFilter(sizes))) <==> Matches(q, place) && Matches(q, SizeFilter(sizes));
    }
  }

  /** For a month picked for the trend, the trend's quotes of that month are exactly the narrowed quotes. */
  lemma HistoryOfSelectedMonth(df: seq<Quote>, dest: string, month: string, months: seq<string>,
                               sizes: seq<string>, modes: seq<string>, q: Quote)
    requires month in months
    ensures (q in Filter(df, HistoryCriterion(dest, months, sizes, modes)) && q.month == month)
        <==> q in Filter(Scope(df, dest, month), Both(SizeFilter(sizes), ModeFilter(modes)))
  {
    MatchesHistory(dest, months, sizes, modes);
    MatchesSelection(sizes, modes);
  }

  // ---------------------------------------------------------------------------
  // Minimum prices

  /** `aggfunc='min'`: the lowest price among the quotes a criterion selects, None if it selects none. */
  function MinPrice(s: seq<Quote>, c: Criterion, haz: bool): (m: Option<real>)
    ensures m.None? <==> forall q :: q in s ==> !Matches(q, c)
    ensures m.Some? ==> exists q :: q in s && Matches(q, c) && CalcTotal(q, haz) == m.value
    ensures m.Some? ==> forall q :: q in s && Matches(q, c) ==> m.value <= CalcTotal(q, haz)
  {
    if s == [] then None
    else
      var init := s[..|s| - 1];
      var last := s[|s| - 1];
      assert s == init + [last];
      assert forall q :: q in init ==> q in s;
      var rest := MinPrice(init, c, haz);
      if !Matches(last, c) then rest
      else
        var p := CalcTotal(last, haz);
        if rest.None? || p < rest.value then Some(p) else rest
  }

  /**
   * `aggfunc='min'` over a grouping: `grid` has an entry for exactly the keys of the
   * quotes of `s`, each holding the lowest price among the quotes with that key.
   */
  ghost predicate Cheapest<K(!new)>(grid: map<K, real>, s: seq<Quote>, key: Quote -> K, haz: bool)
  {
    && (forall k :: k in grid <==> exists q :: q in s && key(q) == k)
    && (forall k :: k in grid ==> exists q :: q in s && key(q) == k && CalcTotal(q, haz) == grid[k])
    && (forall k, q :: k in grid && q in s && key(q) == k ==> grid[k] <= CalcTotal(q, haz))
  }

  function CellKeys(data: seq<Quote>): set<CellKey>
  {
    set q | q in data :: KeyOf(q)
  }

  /**
   * `data.pivot_table(index='Container', columns=['Mode', 'Supplier'], aggfunc='min')`:
   * a cell for every (container, mode, supplier) quoted, holding its cheapest price.
   */
  function BestPricePivot(data: seq<Quote>, haz: bool): (pivot: map<CellKey, real>)
    ensures Cheapest(pivot, data, KeyOf, haz)
  {
    map k | k in CellKeys(data) :: MinPrice(data, CellIs(k), haz).value
  }

  /**
   * `pivot` has a cell for exactly the (container, mode, supplier) triples quoted in
   * the corridor that month (the quotes `Scope` keeps, those `InCorridor`), holding
   * the lowest price among that cell's quotes.
   */
  ghost predicate CheapestInCorridor(pivot: map<CellKey, real>, df: seq<Quote>, dest: string, month: string, haz: bool)
  {
    Cheapest(pivot, Scope(df, dest, month), KeyOf, haz)
  }

  /** The comparison section: nothing when the corridor has no quote that month, else both pivots. */
  datatype Comparison = NoCorridorData | Grids(nonHaz: map<CellKey, real>, haz: map<CellKey, real>)

  /** The two best-price tables of the selected corridor and month, side by side. */
  function CompareView(df: seq<Quote>, dest: string, month: string): (v: Comparison)
    ensures v.NoCorridorData? <==> forall q :: q in df ==> !InCorridor(q, dest, month)
    ensures v.Grids? ==> v.nonHaz.Keys == v.haz.Keys
    ensures v.Grids? ==> CheapestInCorridor(v.nonHaz, df, dest, month, false)
    ensures v.Grids? ==> CheapestInCorridor(v.haz, df, dest, month, true)
  {
    var corridor := Scope(df, dest, month);
    if corridor == [] then NoCorridorData
    else
      assert corridor[0] in corridor;
      var nonHaz, haz := BestPricePivot(corridor, false), BestPricePivot(corridor, true);
      assert nonHaz.Keys == CellKeys(corridor) == haz.Keys;
      Grids(nonHaz, haz)
  }

  // ---------------------------------------------------------------------------
  // Highlighting

  /** A pivot column: a mode and a supplier. */
  datatype Column = Column(mode: string, supplier: string)

  /** One pivot row (a container) over the given columns; a missing cell is None. */
  function PivotRow(pivot: map<CellKey, real>, container: string, cols: seq<Column>): (row: seq<Option<real>>)
    ensures |row| == |cols|
    ensures forall i :: 0 <= i < |cols| ==>
      row[i] == if CellOf(container, cols[i]) in pivot then Some(pivot[CellOf(container, cols[i])]) else None
  {
    seq(|cols|, i requires 0 <= i < |cols| =>
      var k := CellOf(container, cols[i]);
      if k in pivot then Some(pivot[k]) else None)
  }

  function CellOf(container: string, col: Column): CellKey
  {
    CellKey(container, col.mode, col.supplier)
  }

  /**
   * In a pivot row, a cell is highlighted exactly when the pivot has it and no
   * cell of the same mode in that row holds a lower price.
   */
  lemma PivotRowFlagged(pivot: map<CellKey, real>, container: string, cols: seq<Column>, i: int)
    requires 0 <= i < |cols|
    ensures Flagged(PivotRow(pivot, container, cols), cols, i) <==>
      && CellOf(container, cols[i]) in pivot
      && forall j :: 0 <= j < |cols| && cols[j].mode == cols[i].mode && CellOf(container, cols[j]) in pivot ==>
           pivot[CellOf(container, cols[i])] <= pivot[CellOf(container, cols[j])]
  {
    var row := PivotRow(pivot, container, cols);
    var m := GroupMin(row, cols, cols[i].mode);
    if CellOf(container, cols[i]) in pivot {
      assert row[i].Some?;
      var j :| 0 <= j < |row| && cols[j].mode == cols[i].mode && row[j] == m;
      assert CellOf(container, cols[j]) in pivot;
    }
  }

  /** `row[mode].min()`: the lowest non-missing value among the cells of one mode, if any. */
  function GroupMin(row: seq<Option<real>>, cols: seq<Column>, mode: string): (m: Option<real>)
    requires |row| == |cols|
    ensures m.None? <==> forall i :: 0 <= i < |row| && cols[i].mode == mode ==> row[i].None?
    ensures m.Some? ==> exists i :: 0 <= i < |row| && cols[i].mode == mode && row[i] == m
    ensures m.Some? ==> forall i :: 0 <= i < |row| && cols[i].mode == mode && row[i].Some? ==> m.value <= row[i].value
  {
    if row == [] then None
    else
      var n := |row| - 1;
      var rest := GroupMin(row[..n], cols[..n], mode);
      if cols[n].mode != mode || row[n].None? then rest
      else if rest.None? || row[n].value < rest.value then row[n]
      else rest
  }

  /** A cell is highlighted when it holds the minimum of its mode's cells in its row. */
  predicate Flagged(row: seq<Option<real>>, cols: seq<Column>, i: int)
    requires |row| == |cols| && 0 <= i < |row|
  {
    row[i].Some? && GroupMin(row, cols, cols[i].mode) == row[i]
  }

  /** `row.index.get_level_values(0).unique()`: each value once, in order of first appearance. */
  function Distinct(xs: seq<string>): (d: seq<string>)
    ensures forall x :: x in d <==> x in xs
    ensures forall i, j :: 0 <= i < j < |d| ==> d[i] != d[j]
  {
    if xs == [] then []
    else
      var init := Distinct(xs[..|xs| - 1]);
      var last := xs[|xs| - 1];
      assert xs == xs[..|xs| - 1] + [last];
      if last in init then init else init + [last]
  }

  function ModesOf(cols: seq<Column>): (modes: seq<string>)
    ensures |modes| == |cols|
    ensures forall i :: 0 <= i < |cols| ==> modes[i] == cols[i].mode
  {
    seq(|cols|, i requires 0 <= i < |cols| => cols[i].mode)
  }

  /**
   * `highlight_min_per_mode`: for each mode with at least one value in the row,
   * flags every cell of that mode equal to the mode's minimum; ties are all flagged.
   */
  method HighlightMinPerMode(row: seq<Option<real>>, cols: seq<Column>) returns (flags: seq<bool>)
    requires |row| == |cols|
    ensures |flags| == |row|
    ensures forall i :: 0 <= i < |row| ==> (flags[i] <==> Flagged(row, cols, i))
  {
    var styles := new bool[|row|](_ => false);
    var modes := Distinct(ModesOf(cols));
    for k := 0 to |modes|
      invariant forall i :: 0 <= i < |row| ==> (styles[i] <==> cols[i].mode in modes[..k] && Flagged(row, cols, i))
    {
      var mode := modes[k];
      var minVal := GroupMin(row, cols, mode);
      if minVal.Some? {
        for i := 0 to |row|
          invariant forall j :: 0 <= j < |row| ==>
            (styles[j] <==> (cols[j].mode in modes[..k] && Flagged(row, cols, j))
                            || (j < i && cols[j].mode == mode && row[j] == minVal))
        {
          if cols[i].mode == mode && row[i] == minVal {
            styles[i] := true;
          }
        }
      } else {
        forall j | 0 <= j < |row| && cols[j].mode == mode ensures !Flagged(row, cols, j) {
          assert row[j].None?;
        }
      }
      assert modes[..k + 1] == modes[..k] + [mode];
    }
    forall i | 0 <= i < |row| ensures cols[i].mode in modes {
      assert ModesOf(cols)[i] == cols[i].mode;
    }
    assert modes[..|modes|] == modes;
    flags := styles[..];
  }

  /** Every mode with at least one value in the row has at least one highlighted cell. */
  lemma EveryModeHasAMinimum(row: seq<Option<real>>, cols: seq<Column>, j: int)
    requires |row| == |cols| && 0 <= j < |row| && row[j].Some?
    ensures exists i :: 0 <= i < |row| && cols[i].mode == cols[j].mode && Flagged(row, cols, i)
  {
    var m := GroupMin(row, cols, cols[j].mode);
    var i :| 0 <= i < |row| && cols[i].mode == cols[j].mode && row[i] == m;
    assert Flagged(row, cols, i);
  }

  /** Ties: two cells of one mode holding the same value are highlighted together or not at all. */
  lemma TiesFlaggedTogether(row: seq<Option<real>>, cols: seq<Column>, i: int, j: int)
    requires |row| == |cols| && 0 <= i < |row| && 0 <= j < |row|
    requires cols[i].mode == cols[j].mode && row[i] == row[j]
    ensures Flagged(row, cols, i) <==> Flagged(row, cols, j)
  {
  }

  // ---------------------------------------------------------------------------
  // Trend

  /** Labels are unambiguous as long as supplier, container and mode contain no '|'. */
  lemma SeriesLabelInjective(a: Quote, b: Quote, haz: bool)
    requires '|' !in a.supplier && '|' !in a.container && '|' !in a.mode
    requires '|' !in b.supplier && '|' !in b.container && '|' !in b.mode
    requires SeriesLabel(a, haz) == SeriesLabel(b, haz)
    ensures a.supplier == b.supplier && a.container == b.container && a.mode == b.mode
  {
    var tag := " | " + HazTag(haz);
    assert SeriesLabel(a, haz) == a.supplier + " | " + (a.container + " | " + (a.mode + tag));
    assert SeriesLabel(b, haz) == b.supplier + " | " + (b.container + " | " + (b.mode + tag));
    SplitAtFirstBar(a.supplier, a.container + " | " + (a.mode + tag), b.supplier, b.container + " | " + (b.mode + tag));
    SplitAtFirstBar(a.container, a.mode + tag, b.container, b.mode + tag);
    assert a.mode + " | " + HazTag(haz) == a.mode + tag;
    assert b.mode + " | " + HazTag(haz) == b.mode + tag;
    SplitAtFirstBar(a.mode, HazTag(haz), b.mode, HazTag(haz));
  }

  /** A part free of '|' is recovered from `part + " | " + rest`. */
  lemma SplitAtFirstBar(x: string, y: string, x': string, y': string)
    requires '|' !in x && '|' !in x'
    requires x + " | " + y == x' + " | " + y'
    ensures x == x' && y == y'
  {
    var s, s' := x + " | " + y, x' + " | " + y';
    FirstBar(x, y);
    FirstBar(x', y');
    assert |x| == |x'|;
    assert x == s[..|x|] && x' == s'[..|x'|];
    assert y == s[|x| + 3..] && y' == s'[|x'| + 3..];
  }

  /** In `part + " | " + rest`, the first '|' follows the part and a space. */
  lemma FirstBar(x: string, y: string)
    requires '|' !in x
    ensures (x + " | " + y)[|x| + 1] == '|'
    ensures forall i :: 0 <= i <= |x| ==> (x + " | " + y)[i] != '|'
  {
  }

  function Points(history: seq<Quote>, haz: bool): set<Point>
  {
    set q | q in history :: PointOf(q, haz)
  }

  /**
   * `history_data.pivot_table(index='Month_Label', columns='Series_Label', aggfunc='min')`:
   * a point for every (month, series) with a quote, holding the cheapest price;
   * a series without a quote in some month has no point there.
   */
  function TrendPivot(history: seq<Quote>, haz: bool): (trend: map<Point, real>)
    ensures Cheapest(trend, history, q => PointOf(q, haz), haz)
  {
    assert forall q, p :: Matches(q, PointIs(p, haz)) <==> PointOf(q, haz) == p;
    map p | p in Points(history, haz) :: MinPrice(history, PointIs(p, haz), haz).value
  }

  /**
   * `points` has a point for exactly the (month, series) pairs of the trend's
   * quotes (the quotes `InHistory`, by `MatchesHistory`), holding the lowest price
   * among that point's quotes.
   */
  ghost predicate CheapestPerPoint(points: map<Point, real>, df: seq<Quote>, dest: string, months: seq<string>,
                                   sizes: seq<string>, modes: seq<string>, haz: bool)
  {
    Cheapest(points, Filter(df, HistoryCriterion(dest, months, sizes, modes)), q => PointOf(q, haz), haz)
  }

  /**
   * The history holds exactly the quotes `InHistory`, and its trend pivot the cheapest
   * price per point of them.
   */
  lemma TrendOfHistory(df: seq<Quote>, dest: string, months: seq<string>, sizes: seq<string>, modes: seq<string>, haz: bool)
    ensures var history := Filter(df, HistoryCriterion(dest, months, sizes, modes));
      && (forall q :: q in history <==> q in df && InHistory(q, dest, months, sizes, modes))
      && (history == [] <==> forall q :: q in df ==> !InHistory(q, dest, months, sizes, modes))
      && CheapestPerPoint(TrendPivot(history, haz), df, dest, months, sizes, modes, haz)
  {
    var history := Filter(df, HistoryCriterion(dest, months, sizes, modes));
    MatchesHistory(dest, months, sizes, modes);
    assert forall q :: q in history <==> q in df && InHistory(q, dest, months, sizes, modes);
    if history != [] {
      assert history[0] in history;
    }
  }

  /** The corridor and the narrowed selection are empty exactly when no quote qualifies. */
  lemma NarrowedOfCorridor(df: seq<Quote>, dest: string, month: string, sizes: seq<string>, modes: seq<string>)
    ensures Scope(df, dest, month) == [] <==> forall q :: q in df ==> !InCorridor(q, dest, month)
    ensures var narrowed := Filter(Scope(df, dest, month), Both(SizeFilter(sizes), ModeFilter(modes)));
      && (narrowed == [] <==> forall q :: q in df && InCorridor(q, dest, month) ==> !Picked(q, sizes, modes))
      && (narrowed != [] ==> narrowed[0] in df && InCorridor(narrowed[0], dest, month) && Picked(narrowed[0], sizes, modes))
  {
    var corridor := Scope(df, dest, month);
    var narrowed := Filter(corridor, Both(SizeFilter(sizes), ModeFilter(modes)));
    MatchesSelection(sizes, modes);
    if corridor != [] {
      assert corridor[0] in corridor;
    }
    if narrowed != [] {
      assert narrowed[0] in narrowed;
    }
  }

  /** What the trend section shows. */
  datatype TrendView = NothingInCorridor | NoMatchingRates | NoHistory | Trend(points: map<Point, real>)

  /**
   * The trend section: shown only when the corridor has quotes that month and the
   * narrowed selection is not empty; then the trend of the months picked, or a
   * notice when they hold no matching quote.
   */
  function TrendSection(df: seq<Quote>, dest: string, month: string, months: seq<string>,
                        sizes: seq<string>, modes: seq<string>, haz: bool): (v: TrendView)
    ensures v.NothingInCorridor? <==> forall q :: q in df ==> !InCorridor(q, dest, month)
    ensures v.NoMatchingRates? <==>
      (exists q :: q in df && InCorridor(q, dest, month))
      && forall q :: q in df && InCorridor(q, dest, month) ==> !Picked(q, sizes, modes)
    ensures v.NoHistory? <==>
      (exists q :: q in df && InCorridor(q, dest, month) && Picked(q, sizes, modes))
      && forall q :: q in df ==> !InHistory(q, dest, months, sizes, modes)
    ensures month in months ==> !v.NoHistory?
    ensures v.Trend? ==> |v.points| > 0
    ensures v.Trend? ==> CheapestPerPoint(v.points, df, dest, months, sizes, modes, haz)
  {
    var corridor := Scope(df, dest, month);
    var narrowed := Filter(corridor, Both(SizeFilter(sizes), ModeFilter(modes)));
    NarrowedOfCorridor(df, dest, month, sizes, modes);
    if corridor == [] then NothingInCorridor
    else if narrowed == [] then NoMatchingRates
    else
      var history := Filter(df, HistoryCriterion(dest, months, sizes, modes));
      TrendOfHistory(df, dest, months, sizes, modes, haz);
      if history == [] then NoHistory
      else
        var trend := TrendPivot(history, haz);
        assert PointOf(history[0], haz) in trend;
        Trend(trend)
  }

  // ---------------------------------------------------------------------------
  // Filtered price listing

  /** Columns of the dashboard's table: the master table's, plus the two computed prices. */
  const DashboardColumns: seq<string> := Ingestion.OutputColumns + ["Price_NonHaz", "Price_Haz"]

  function PriceField(haz: bool): string
  {
    if haz then "Price_Haz" else "Price_NonHaz"
  }

  /** The columns the listing selects, as written: it names a "Validity_Internal" column. */
  function ListingColumnsAsWritten(haz: bool): seq<string>
  {
    ["Supplier", "Container", "Mode", "Carrier", "Transit_Days", "Validity_Internal", PriceField(haz)]
  }

  /** The columns the listing evidently means: the validity column the master table has. */
  function ListingColumns(haz: bool): seq<string>
  {
    ["Supplier", "Container", "Mode", "Carrier", "Transit_Days", "Validity", PriceField(haz)]
  }

  /**
   * `narrowed[columns]`: a KeyError (None) when a column is not in the table,
   * otherwise every narrowed quote with its price, in order.
   */
  function SelectListing(narrowed: seq<Quote>, columns: seq<string>, haz: bool): (r: Option<seq<(Quote, real)>>)
    ensures r.None? <==> exists c :: c in columns && c !in DashboardColumns
    ensures r.Some? ==> |r.value| == |narrowed|
    ensures r.Some? ==> forall i :: 0 <= i < |narrowed| ==> r.value[i] == (narrowed[i], CalcTotal(narrowed[i], haz))
  {
    if forall c :: c in columns ==> c in DashboardColumns then
      Some(seq(|narrowed|, i requires 0 <= i < |narrowed| => (narrowed[i], CalcTotal(narrowed[i], haz))))
    else None
  }

  /** As written, the listing raises a KeyError for every selection, so nothing after it is shown. */
  lemma ListingAsWrittenFails(narrowed: seq<Quote>, haz: bool)
    ensures SelectListing(narrowed, ListingColumnsAsWritten(haz), haz).None?
  {
    assert "Validity_Internal" in ListingColumnsAsWritten(haz);
    assert "Validity_Internal" !in DashboardColumns;
  }

  /** With the master table's own validity column, the listing holds every narrowed quote. */
  lemma ListingSelectsColumns(narrowed: seq<Quote>, haz: bool)
    ensures SelectListing(narrowed, ListingColumns(haz), haz).Some?
  {
    var cols := DashboardColumns;
    assert cols[0] == "Supplier" && cols[6] == "Container" && cols[8] == "Mode";
    assert cols[20] == "Carrier" && cols[18] == "Transit_Days" && cols[19] == "Validity";
    assert cols[22] == "Price_NonHaz" && cols[23] == "Price_Haz";
  }
}
