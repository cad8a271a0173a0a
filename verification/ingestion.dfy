/**
 * The ingestion flattener of price_list_prep_.py: every supplier workbook named
 * `<Supplier>-<YYYYMM>.xlsx` is read, its rows without a container type are
 * dropped, and each remaining row becomes one record per transport mode
 * (Barge, Road, Rail). The records are written as the master table only when
 * there is at least one.
 *
 * Reading the workbooks and writing the table are not modelled: a workbook is
 * given as its file name and the sheet that reading it produced (None when
 * reading it raised), and the outcome says what would be written.
 */
module Ingestion {
  import opened Wrappers

  /** One spreadsheet cell as pandas reads it; `Blank` is a missing value (NaN). */
  datatype Cell = Text(s: string) | Number(x: real) | Blank

  /** A sheet row, from column header to cell; a column the sheet lacks is absent. */
  type Row = map<string, Cell>

  /** The 'France' sheet after the header rows are skipped. */
  datatype Sheet = Sheet(columns: set<string>, rows: seq<Row>)

  /** A workbook found in the input folder: its base name and the sheet read from it. */
  datatype Workbook = Workbook(name: string, sheet: Option<Sheet>)

  /** The columns of a master-table line that are read from the row alone, whatever the mode. */
  datatype Shared = Shared(
    originCountry: Cell, originCity: Cell, destCountry: Cell, destination: Cell,
    container: Cell, incoterms: Cell, oCurr: Cell,
    seaCurr: Cell, seaBase: Cell, seaImo: Cell,
    dCurr: Cell, dCostNonHaz: Cell, dCostHaz: Cell,
    transitDays: Cell, validity: Cell, carrier: Cell, comments: Cell)

  /** O_Cost_NonHaz and O_Cost_Haz: read from the columns of the record's mode. */
  datatype OriginCosts = OriginCosts(nonHaz: Cell, haz: Cell)

  /** One line of the master table: one quote for one transport mode. */
  datatype Record = Record(supplier: string, fileMonth: string, mode: string, shared: Shared, origin: OriginCosts)

  /** What a run ends with: which message it stops on, or the table it writes. */
  datatype Outcome = NoInputFiles | NoData | Written(table: seq<Record>)

  /** The transport modes every retained row is flattened into, in this order. */
  const Modes: seq<string> := ["Barge", "Road", "Rail"]

  /** Column headers of the master table, in the order the records list them. */
  const OutputColumns: seq<string> := [
    "Supplier", "File_Month", "Origin_Country", "Origin_City", "Dest_Country",
    "Destination", "Container", "Incoterms", "Mode", "O_Curr", "O_Cost_NonHaz",
    "O_Cost_Haz", "Sea_Curr", "Sea_Base", "Sea_IMO", "D_Curr", "D_Cost_NonHaz",
    "D_Cost_Haz", "Transit_Days", "Validity", "Carrier", "Comments"]

  const ContainerTypeColumn: string := "Container Type"

  // ---------------------------------------------------------------------------
  // File names

  /** `pat` occurs somewhere in `s`. */
  ghost predicate Occurs(s: string, pat: string)
  {
    exists i :: OccursAt(s, pat, i)
  }

  predicate OccursAt(s: string, pat: string, i: int)
  {
    0 <= i <= |s| - |pat| && s[i..i + |pat|] == pat
  }

  /**
   * Python's `s.replace(pat, "")`: every occurrence, scanned left to right, removed.
   * A name without the pattern is left as it is; one with it gets shorter.
   */
  function RemoveAll(s: string, pat: string): (r: string)
    requires pat != []
    ensures !Occurs(s, pat) ==> r == s
    ensures Occurs(s, pat) ==> |r| <= |s| - |pat|
    ensures |r| <= |s|
    decreases |s|
  {
    if |s| < |pat| then s
    else if s[..|pat|] == pat then
      assert OccursAt(s, pat, 0);
      RemoveAll(s[|pat|..], pat)
    else
      var tail := s[1..];
      assert Occurs(tail, pat) ==> Occurs(s, pat) by {
        if Occurs(tail, pat) {
          var i :| OccursAt(tail, pat, i);
          assert s[i + 1..i + 1 + |pat|] == pat;
          assert OccursAt(s, pat, i + 1);
        }
      }
      assert Occurs(s, pat) ==> Occurs(tail, pat) by {
        if Occurs(s, pat) {
          var i :| OccursAt(s, pat, i);
          assert i != 0;
          assert tail[i - 1..i - 1 + |pat|] == pat;
          assert OccursAt(tail, pat, i - 1);
        }
      }
      assert [s[0]] + tail == s;
      [s[0]] + RemoveAll(tail, pat)
  }

  /** The file name without its ".xlsx" extension. */
  function StripExtension(name: string): string
  {
    RemoveAll(name, ".xlsx")
  }

  /**
   * A stem that does not itself contain ".xlsx" gets back exactly the stem, dots and
   * all ("C.H. Robinson-202601.xlsx" gives "C.H. Robinson-202601").
   */
  lemma {:induction false} StripExtensionOfStem(stem: string)
    requires !Occurs(stem, ".xlsx")
    ensures StripExtension(stem + ".xlsx") == stem
  {
    var s := stem + ".xlsx";
    if stem == [] {
      assert s[..5] == ".xlsx";
      assert s[5..] == [];
    } else {
      assert s[..5] != ".xlsx" by {
        if |stem| >= 5 {
          assert s[..5] == stem[..5];
          assert !OccursAt(stem, ".xlsx", 0);
        } else {
          assert s[|stem|] == '.';
          assert s[..5][|stem|] != ".xlsx"[|stem|];
        }
      }
      forall i ensures !OccursAt(stem[1..], ".xlsx", i) {
        if 0 <= i <= |stem| - 6 {
          assert stem[1..][i..i + 5] == stem[i + 1..i + 6];
          assert !OccursAt(stem, ".xlsx", i + 1);
        }
      }
      assert s[1..] == stem[1..] + ".xlsx";
      StripExtensionOfStem(stem[1..]);
      assert [stem[0]] + stem[1..] == stem;
    }
  }

  /** A stem without an 'x' cannot contain ".xlsx". */
  lemma NoExtensionWithoutX(stem: string)
    requires 'x' !in stem
    ensures !Occurs(stem, ".xlsx")
  {
    forall i | 0 <= i <= |stem| - 5 ensures !OccursAt(stem, ".xlsx", i) {
      assert stem[i..i + 5][1] == stem[i + 1] != 'x';
    }
  }

  /** A supplier name with dots keeps them: only the extension goes. */
  lemma StripExtensionExample()
    ensures StripExtension("C.H. Robinson-202601.xlsx") == "C.H. Robinson-202601"
  {
    var stem := "C.H. Robinson-202601";
    NoExtensionWithoutX(stem);
    StripExtensionOfStem(stem);
    assert stem + ".xlsx" == "C.H. Robinson-202601.xlsx";
  }

  /** Position of the last '-' of `s`, if any. */
  function LastHyphen(s: string): (i: Option<nat>)
    ensures i.None? <==> '-' !in s
    ensures i.Some? ==> i.value < |s| && s[i.value] == '-' && '-' !in s[i.value + 1..]
  {
    if s == [] then None
    else if s[|s| - 1] == '-' then Some(|s| - 1)
    else
      var i := LastHyphen(s[..|s| - 1]);
      assert i.Some? ==> s[i.value + 1..] == s[..|s| - 1][i.value + 1..] + [s[|s| - 1]];
      i
  }

  /** `filename.rsplit("-", 1)`: supplier and month, split at the last hyphen. */
  function SplitName(filename: string): (r: Option<(string, string)>)
    ensures r.None? <==> '-' !in filename
    ensures r.Some? ==> r.value.0 + "-" + r.value.1 == filename && '-' !in r.value.1
  {
    match LastHyphen(filename)
    case None => None
    case Some(i) =>
      assert filename[..i] + "-" + filename[i + 1..] == filename;
      Some((filename[..i], filename[i + 1..]))
  }

  /** The split is the only one whose month part has no hyphen. */
  lemma SplitNameUnique(supplier: string, month: string)
    requires '-' !in month
    ensures SplitName(supplier + "-" + month) == Some((supplier, month))
  {
    var s := supplier + "-" + month;
    var i := LastHyphen(s).value;
    assert s[|supplier|] == '-';
    assert s[..i] == supplier && s[i + 1..] == month;
  }

  /** The supplier part may itself contain hyphens; a name without one is not split. */
  lemma SplitNameExamples()
    ensures SplitName("ABC-Logistics-202601") == Some(("ABC-Logistics", "202601"))
    ensures SplitName("DSV-202601") == Some(("DSV", "202601"))
    ensures SplitName("DSV") == None
  {
    SplitNameUnique("ABC-Logistics", "202601");
    assert "ABC-Logistics" + "-" + "202601" == "ABC-Logistics-202601";
    SplitNameUnique("DSV", "202601");
    assert "DSV" + "-" + "202601" == "DSV-202601";
  }

  // ---------------------------------------------------------------------------
  // Rows

  /** `row.get(column, default)`: the cell when the column exists (even a blank one). */
  function Get(row: Row, column: string, default: Cell): (c: Cell)
    ensures column !in row ==> c == default
    ensures column in row ==> c == row[column]
  {
    if column in row then row[column] else default
  }

  predicate HasContainerType(row: Row)
  {
    ContainerTypeColumn in row && row[ContainerTypeColumn] != Blank
  }

  /**
   * `df[df['Container Type'].notna()]`: the rows with a container type, in order;
   * a row that occurs several times is kept as often as it occurs.
   */
  function KeepRows(rows: seq<Row>): (kept: seq<Row>)
    ensures |kept| <= |rows|
    ensures forall r :: r in kept <==> r in rows && HasContainerType(r)
    ensures forall r :: multiset(kept)[r] == if HasContainerType(r) then multiset(rows)[r] else 0
  {
    if rows == [] then []
    else
      var last := rows[|rows| - 1];
      var init := KeepRows(rows[..|rows| - 1]);
      assert rows == rows[..|rows| - 1] + [last];
      assert multiset(rows) == multiset(rows[..|rows| - 1]) + multiset{last};
      if HasContainerType(last) then
        assert multiset(init + [last]) == multiset(init) + multiset{last};
        init + [last]
      else init
  }

  /**
   * The rows a workbook contributes, or None when reading the sheet or selecting
   * its 'Container Type' column raises (the file is then only logged).
   */
  function Retained(sheet: Option<Sheet>): (r: Option<seq<Row>>)
    ensures r.None? <==> sheet.None? || ContainerTypeColumn !in sheet.value.columns
    ensures r.Some? ==> forall row :: row in r.value <==> row in sheet.value.rows && HasContainerType(row)
    ensures r.Some? ==> forall row ::
      multiset(r.value)[row] == (if HasContainerType(row) then multiset(sheet.value.rows)[row] else 0)
  {
    match sheet
    case None => None
    case Some(sh) =>
      if ContainerTypeColumn !in sh.columns then None else Some(KeepRows(sh.rows))
  }

  /** Origin-cost column of one mode, e.g. "Total Origin Costs per Container (Rail Pre-carriage) haz". */
  function OriginCostColumn(mode: string, haz: bool): string
  {
    "Total Origin Costs per Container (" + mode + " Pre-carriage) " + (if haz then "haz" else "non-haz")
  }

  /** The mode-independent columns of one row; an absent column takes its default. */
  function SharedFields(row: Row): Shared
  {
    Shared(
      originCountry := Get(row, "Place of Receipt\nCountry", Text("N/A")),
      originCity := Get(row, "Place of Receipt City/Port", Text("N/A")),
      destCountry := Get(row, "Place of Delivery\nCountry", Text("N/A")),
      destination := Get(row, "Place of Delivery\nCity", Text("N/A")),
      container := Get(row, ContainerTypeColumn, Text("N/A")),
      incoterms := Get(row, "Incoterms", Text("N/A")),
      oCurr := Get(row, "Origin Costs - Currency", Text("EUR")),
      seaCurr := Get(row, "Ocean Costs  - Currency", Text("USD")),
      seaBase := Get(row, "Total Ocean Costs per Container", Number(0.0)),
      seaImo := Get(row, "Ocean IMO Surcharge (when applicable)", Number(0.0)),
      dCurr := Get(row, "Destination Costs - Currency", Text("EUR")),
      dCostNonHaz := Get(row, "Total Destination Costs per Container non-haz", Number(0.0)),
      dCostHaz := Get(row, "Total Destination Costs per Container haz", Number(0.0)),
      transitDays := Get(row, "Transit Time (Days) POL to POD", Text("N/A")),
      validity := Get(row, "Price Validity", Text("N/A")),
      carrier := Get(row, "Carrier", Text("N/A")),
      comments := Get(row, "Comments", Text("")))
  }

  /** The origin costs of one row for one mode; absent columns give 0. */
  function OriginCostsOf(row: Row, mode: string): OriginCosts
  {
    OriginCosts(Get(row, OriginCostColumn(mode, false), Number(0.0)), Get(row, OriginCostColumn(mode, true), Number(0.0)))
  }

  /** The record one row yields for one mode. */
  function Entry(supplier: string, month: string, row: Row, mode: string): Record
  {
    Record(supplier, month, mode, SharedFields(row), OriginCostsOf(row, mode))
  }

  /** A column the sheet lacks takes its default: costs 0, currencies EUR/USD/EUR, descriptions "N/A", comments "". */
  lemma EntryDefaults(supplier: string, month: string, row: Row, mode: string)
    ensures var e := Entry(supplier, month, row, mode);
      && e.supplier == supplier && e.fileMonth == month && e.mode == mode
      && e.shared.container == Get(row, ContainerTypeColumn, Text("N/A"))
      && (OriginCostColumn(mode, false) !in row ==> e.origin.nonHaz == Number(0.0))
      && (OriginCostColumn(mode, true) !in row ==> e.origin.haz == Number(0.0))
      && ("Origin Costs - Currency" !in row ==> e.shared.oCurr == Text("EUR"))
      && ("Ocean Costs  - Currency" !in row ==> e.shared.seaCurr == Text("USD"))
      && ("Destination Costs - Currency" !in row ==> e.shared.dCurr == Text("EUR"))
      && ("Total Ocean Costs per Container" !in row ==> e.shared.seaBase == Number(0.0))
      && ("Ocean IMO Surcharge (when applicable)" !in row ==> e.shared.seaImo == Number(0.0))
      && ("Total Destination Costs per Container non-haz" !in row ==> e.shared.dCostNonHaz == Number(0.0))
      && ("Total Destination Costs per Container haz" !in row ==> e.shared.dCostHaz == Number(0.0))
      && ("Place of Receipt\nCountry" !in row ==> e.shared.originCountry == Text("N/A"))
      && ("Place of Receipt City/Port" !in row ==> e.shared.originCity == Text("N/A"))
      && ("Place of Delivery\nCountry" !in row ==> e.shared.destCountry == Text("N/A"))
      && ("Price Validity" !in row ==> e.shared.validity == Text("N/A"))
      && ("Place of Delivery\nCity" !in row ==> e.shared.destination == Text("N/A"))
      && ("Incoterms" !in row ==> e.shared.incoterms == Text("N/A"))
      && ("Transit Time (Days) POL to POD" !in row ==> e.shared.transitDays == Text("N/A"))
      && ("Carrier" !in row ==> e.shared.carrier == Text("N/A"))
      && ("Comments" !in row ==> e.shared.comments == Text(""))
  {
  }

  /** The records of one row: one per mode, in the order of `Modes`. */
  function RowRecords(supplier: string, month: string, row: Row): seq<Record>
  {
    [Entry(supplier, month, row, "Barge"), Entry(supplier, month, row, "Road"), Entry(supplier, month, row, "Rail")]
  }

  /**
   * The three records of one row are its modes in order, and they agree on
   * every column except the mode and the origin costs.
   */
  lemma RowRecordsShape(supplier: string, month: string, row: Row)
    ensures |RowRecords(supplier, month, row)| == |Modes|
    ensures forall k :: 0 <= k < |Modes| ==> RowRecords(supplier, month, row)[k] == Entry(supplier, month, row, Modes[k])
    ensures forall k :: 0 <= k < |Modes| ==>
      var e := RowRecords(supplier, month, row)[k];
      e.mode == Modes[k] && e.supplier == supplier && e.fileMonth == month && e.shared == SharedFields(row)
  {
  }

  /** The records of a sequence of retained rows, row after row. */
  function RowsRecords(supplier: string, month: string, rows: seq<Row>): (rs: seq<Record>)
    ensures |rs| == 3 * |rows|
  {
    if rows == [] then []
    else RowsRecords(supplier, month, rows[..|rows| - 1]) + RowRecords(supplier, month, rows[|rows| - 1])
  }

  lemma RowsRecordsPrefix(supplier: string, month: string, rows: seq<Row>, j: nat)
    requires j < |rows|
    ensures RowsRecords(supplier, month, rows[..j + 1])
         == RowsRecords(supplier, month, rows[..j]) + RowRecords(supplier, month, rows[j])
  {
    assert rows[..j + 1][..j] == rows[..j];
  }

  /** Record 3j+k comes from row j and mode k. */
  lemma {:induction false} RowsRecordsAt(supplier: string, month: string, rows: seq<Row>, j: nat, k: nat)
    requires j < |rows| && k < 3
    ensures RowsRecords(supplier, month, rows)[3 * j + k] == Entry(supplier, month, rows[j], Modes[k])
  {
    var init := rows[..|rows| - 1];
    RowRecordsShape(supplier, month, rows[|rows| - 1]);
    if j < |rows| - 1 {
      RowsRecordsAt(supplier, month, init, j, k);
      assert init[j] == rows[j];
    }
  }

  /** What the `try` block of one workbook obtains before its row loop. */
  datatype Batch = Batch(supplier: string, month: string, rows: seq<Row>)

  /**
   * The supplier, month and retained rows of one workbook; None when its name has
   * no hyphen (skipped) or when reading or filtering its sheet raises (logged).
   */
  function ParseWorkbook(wb: Workbook): (b: Option<Batch>)
    ensures b.None? <==> '-' !in StripExtension(wb.name) || Retained(wb.sheet).None?
    ensures b.Some? ==> b.value.supplier + "-" + b.value.month == StripExtension(wb.name)
    ensures b.Some? ==> '-' !in b.value.month
    ensures b.Some? ==> b.value.rows == Retained(wb.sheet).value
  {
    match SplitName(StripExtension(wb.name))
    case None => None
    case Some(parts) =>
      match Retained(wb.sheet)
      case None => None
      case Some(rows) => Some(Batch(parts.0, parts.1, rows))
  }

  /** The records one workbook contributes: three per retained row, none when it is skipped or fails. */
  function FileRecords(wb: Workbook): (rs: seq<Record>)
    ensures ParseWorkbook(wb).None? ==> rs == []
    ensures ParseWorkbook(wb).Some? ==> |rs| == 3 * |ParseWorkbook(wb).value.rows|
    ensures ParseWorkbook(wb).Some? ==>
      var b := ParseWorkbook(wb).value;
      forall j, k :: 0 <= j < |b.rows| && 0 <= k < 3 ==> rs[3 * j + k] == Entry(b.supplier, b.month, b.rows[j], Modes[k])
  {
    match ParseWorkbook(wb)
    case None => []
    case Some(b) =>
      var rs := RowsRecords(b.supplier, b.month, b.rows);
      forall j, k | 0 <= j < |b.rows| && 0 <= k < 3
        ensures rs[3 * j + k] == Entry(b.supplier, b.month, b.rows[j], Modes[k])
      {
        RowsRecordsAt(b.supplier, b.month, b.rows, j, k);
      }
      rs
  }

  /** `f(x0) + f(x1) + ...`: the pieces of a sequence, joined in order. */
  function Concat<T, U>(xs: seq<T>, f: T -> seq<U>): seq<U>
  {
    if xs == [] then [] else Concat(xs[..|xs| - 1], f) + f(xs[|xs| - 1])
  }

  lemma {:induction false} ConcatAppend<T, U>(a: seq<T>, b: seq<T>, f: T -> seq<U>)
    ensures Concat(a + b, f) == Concat(a, f) + Concat(b, f)
    decreases |b|
  {
    if b == [] {
      assert a + b == a;
    } else {
      var b' := b[..|b| - 1];
      assert (a + b)[..|a + b| - 1] == a + b';
      assert (a + b)[|a + b| - 1] == b[|b| - 1];
      ConcatAppend(a, b', f);
    }
  }

  /** The records of all workbooks, in the order the workbooks were found. */
  function AllRecords(files: seq<Workbook>): seq<Record>
  {
    Concat(files, FileRecords)
  }

  /** Processing distributes over the list of files. */
  lemma AllRecordsAppend(a: seq<Workbook>, b: seq<Workbook>)
    ensures AllRecords(a + b) == AllRecords(a) + AllRecords(b)
  {
    ConcatAppend(a, b, FileRecords);
  }

  lemma AllRecordsSingle(wb: Workbook)
    ensures AllRecords([wb]) == FileRecords(wb)
  {
    assert [wb][..0] == [];
    assert Concat([wb], FileRecords) == Concat([], FileRecords) + FileRecords(wb);
  }

  /** A file whose name has no hyphen, or whose sheet cannot be read, adds nothing and stops nothing. */
  lemma SkippedFileContributesNothing(before: seq<Workbook>, wb: Workbook, after: seq<Workbook>)
    requires '-' !in StripExtension(wb.name) || Retained(wb.sheet).None?
    ensures AllRecords(before + [wb] + after) == AllRecords(before) + AllRecords(after)
  {
    AllRecordsAppend(before + [wb], after);
    AllRecordsAppend(before, [wb]);
    AllRecordsSingle(wb);
  }

  /** The records of the first i + 1 files are those of the first i, then file i's. */
  lemma AllRecordsPrefix(files: seq<Workbook>, i: nat)
    requires i < |files|
    ensures AllRecords(files[..i + 1]) == AllRecords(files[..i]) + FileRecords(files[i])
  {
    assert files[..i + 1][..i] == files[..i];
    assert Concat(files[..i + 1], FileRecords) == Concat(files[..i], FileRecords) + FileRecords(files[i]);
  }

  /** Every record of one workbook carries a container type: rows without one never get this far. */
  lemma FileRecordsHaveContainer(wb: Workbook)
    ensures forall r :: r in FileRecords(wb) ==> r.shared.container != Blank
  {
    match ParseWorkbook(wb)
    case None =>
    case Some(b) =>
      var rs := RowsRecords(b.supplier, b.month, b.rows);
      forall r | r in rs ensures r.shared.container != Blank {
        var n :| 0 <= n < |rs| && rs[n] == r;
        RowsRecordsAt(b.supplier, b.month, b.rows, n / 3, n % 3);
        assert HasContainerType(b.rows[n / 3]);
      }
  }

  /** Every record of the master table carries a container type. */
  lemma {:induction false} AllRecordsHaveContainer(files: seq<Workbook>)
    ensures forall r :: r in AllRecords(files) ==> r.shared.container != Blank
    decreases |files|
  {
    if files != [] {
      AllRecordsHaveContainer(files[..|files| - 1]);
      FileRecordsHaveContainer(files[|files| - 1]);
      assert AllRecords(files) == AllRecords(files[..|files| - 1]) + FileRecords(files[|files| - 1]);
    }
  }

  // ---------------------------------------------------------------------------
  // Output

  /** `fillna(0)` on one cell. */
  function FillCell(c: Cell): (d: Cell)
    ensures d != Blank
    ensures c != Blank ==> d == c
    ensures c == Blank ==> d == Number(0.0)
  {
    if c.Blank? then Number(0.0) else c
  }

  /** The cells of one line that were read from the sheet, in the master table's column order. */
  function Cells(r: Record): seq<Cell>
  {
    var c := r.shared;
    [c.originCountry, c.originCity, c.destCountry, c.destination, c.container, c.incoterms,
     c.oCurr, r.origin.nonHaz, r.origin.haz, c.seaCurr, c.seaBase, c.seaImo,
     c.dCurr, c.dCostNonHaz, c.dCostHaz, c.transitDays, c.validity, c.carrier, c.comments]
  }

  predicate NoBlank(r: Record)
  {
    Blank !in Cells(r)
  }

  /**
   * `fillna(0)` on one line: each blank cell becomes the number 0 and every
   * other cell, and the supplier, month and mode, is kept.
   */
  function FillRecord(r: Record): (f: Record)
    ensures NoBlank(f)
    ensures NoBlank(r) ==> f == r
    ensures f.supplier == r.supplier && f.fileMonth == r.fileMonth && f.mode == r.mode
    ensures |Cells(f)| == |Cells(r)|
    ensures forall i :: 0 <= i < |Cells(r)| ==> Cells(f)[i] == if Cells(r)[i] == Blank then Number(0.0) else Cells(r)[i]
  {
    var cs := Cells(r);
    var filled := seq(|cs|, i requires 0 <= i < |cs| => FillCell(cs[i]));
    CellsOfWithCells(r, filled);
    WithOwnCells(r);
    assert NoBlank(r) ==> filled == cs;
    WithCells(r, filled)
  }

  /** The line `r` with its sheet cells replaced by `cs`, given in the order of `Cells`. */
  function WithCells(r: Record, cs: seq<Cell>): Record
    requires |cs| == 19
  {
    r.(shared := Shared(cs[0], cs[1], cs[2], cs[3], cs[4], cs[5], cs[6], cs[9], cs[10], cs[11],
                        cs[12], cs[13], cs[14], cs[15], cs[16], cs[17], cs[18]),
       origin := OriginCosts(cs[7], cs[8]))
  }

  lemma CellsOfWithCells(r: Record, cs: seq<Cell>)
    requires |cs| == 19
    ensures Cells(WithCells(r, cs)) == cs
  {
  }

  lemma WithOwnCells(r: Record)
    ensures WithCells(r, Cells(r)) == r
  {
  }

  /** `pd.DataFrame(records).fillna(0)`: every record kept, in order, with no missing value left. */
  function FillTable(rs: seq<Record>): (t: seq<Record>)
    ensures |t| == |rs|
    ensures forall i :: 0 <= i < |rs| ==> t[i] == FillRecord(rs[i]) && NoBlank(t[i])
  {
    seq(|rs|, i requires 0 <= i < |rs| => FillRecord(rs[i]))
  }

  /**
   * The row loop of one workbook: appends, row after row, the record of every
   * mode to `processed`.
   */
  method AppendRows(processed: seq<Record>, supplier: string, month: string, kept: seq<Row>)
    returns (result: seq<Record>)
    ensures result == processed + RowsRecords(supplier, month, kept)
  {
    result := processed;
    for j := 0 to |kept|
      invariant result == processed + RowsRecords(supplier, month, kept[..j])
    {
      RowsRecordsPrefix(supplier, month, kept, j);
      RowRecordsShape(supplier, month, kept[j]);
      ghost var before := result;
      for k := 0 to |Modes|
        invariant result == before + RowRecords(supplier, month, kept[j])[..k]
      {
        result := result + [Entry(supplier, month, kept[j], Modes[k])];
        assert RowRecords(supplier, month, kept[j])[..k + 1]
            == RowRecords(supplier, month, kept[j])[..k] + [Entry(supplier, month, kept[j], Modes[k])];
      }
      assert RowRecords(supplier, month, kept[j])[..|Modes|] == RowRecords(supplier, month, kept[j]);
    }
    assert kept[..|kept|] == kept;
  }

  /**
   * `prepare_master_data`: walks the workbooks, flattens every retained row of every
   * readable, well-named workbook into three records, and decides what is written.
   */
  method PrepareMasterData(files: seq<Workbook>) returns (out: Outcome)
    ensures files == [] <==> out == NoInputFiles
    ensures out == NoData <==> files != [] && AllRecords(files) == []
    ensures out.Written? ==> out.table == FillTable(AllRecords(files)) && out.table != []
  {
    if |files| == 0 {
      return NoInputFiles;
    }
    var processed: seq<Record> := [];
    for i := 0 to |files|
      invariant processed == AllRecords(files[..i])
    {
      var wb := files[i];
      AllRecordsPrefix(files, i);
      var filename := StripExtension(wb.name);
      var parts := SplitName(filename);
      if parts.Some? {
        var supplier, fileMonth := parts.value.0, parts.value.1;
        var rows := Retained(wb.sheet);
        if rows.Some? {
          assert ParseWorkbook(wb) == Some(Batch(supplier, fileMonth, rows.value));
          processed := AppendRows(processed, supplier, fileMonth, rows.value);
        }
      }
    }
    assert files[..|files|] == files;
    if |processed| > 0 {
      out := Written(FillTable(processed));
    } else {
      out := NoData;
    }
  }
}
