# Freight price lists: ingestion and dashboard model

This project models a small freight-procurement tool in Dafny. The tool has two parts.

- **Ingestion** (`price_list_prep_.py`). Every supplier workbook named
  `<Supplier>-<YYYYMM>.xlsx` is read.
  - Rows without a container type are dropped.
  - Each remaining row becomes three quotes, one per transport mode (Barge, Road, Rail).
  - Missing cells become 0, and the result is written as one master table.
- **Dashboard** (`streamlit_app.py`). It works on that table.
  - It converts every quote's three legs to an all-in EUR price with a static rate table, then rounds to cents.
  - It keeps the quotes of one destination corridor in one month.
  - It shows the cheapest price per container, mode and supplier twice: for non-dangerous goods and for dangerous goods.
  - In each pivot row, it highlights the cheapest supplier of every mode.
  - The user can narrow the quotes by container size and mode, and follow the cheapest price of each series month by month.

The modules:

- `wrappers.dfy` (`Wrappers`): the `Option` type, standing for Python's `None` and for an exception.
- `ingestion.dfy` (`Ingestion`): file names, row retention, flattening into records, blank filling.
  - `PrepareMasterData` is the run as a loop over the workbooks, proved against the specification function `AllRecords`.
  - `AppendRows` is the nested row/mode loop, with its own specification.
- `pricing.dfy` (`Pricing`): the `RATES` table, `calc_total`, and rounding to cents.
- `months.dfy` (`Months`): `format_month`, its inverse, and the label-to-code mapping.
- `views.dfy` (`Views`): covers the dashboard views:
  - the filters;
  - the best-price pivots and their per-mode highlighting (`HighlightMinPerMode` is the styling loop over a local array);
  - the trend pivot;
  - the price listing.

## Model

| member | source | states |
|---|---|---|
| Ingestion.RemoveAll | price_list_prep_.py:18 | `replace(".xlsx", "")`: a name without the pattern is unchanged; a name with it gets shorter by at least the pattern's length. `StripExtension` applies it to the extension; `StripExtensionOfStem` gives its exact result on a workbook name. |
| Ingestion.StripExtensionOfStem | price_list_prep_.py:18 | A name that does not itself contain `.xlsx` loses exactly its extension, dots in the supplier name included. |
| Ingestion.StripExtensionExample | price_list_prep_.py:18 | "C.H. Robinson-202601.xlsx" gives "C.H. Robinson-202601". |
| Ingestion.LastHyphen | price_list_prep_.py:23 | Finds the last hyphen of a name, or None when the name has no hyphen. |
| Ingestion.SplitName | price_list_prep_.py:20-25 | Fails exactly when the name has no hyphen. Otherwise it splits at the last hyphen: supplier, "-" and month give back the name, and the month has no hyphen. |
| Ingestion.SplitNameUnique | price_list_prep_.py:22-25 | Splitting `supplier-month`, with a month free of hyphens, gives back that supplier and month, even when the supplier contains hyphens. |
| Ingestion.SplitNameExamples | price_list_prep_.py:17-23 | "ABC-Logistics-202601" and "DSV-202601" split at the last hyphen; "DSV" is skipped. |
| Ingestion.KeepRows | price_list_prep_.py:33 | Keeps exactly the rows whose container type (`HasContainerType`) is present, each as many times as it occurs, and drops the others. |
| Ingestion.Retained | price_list_prep_.py:30-33 | Fails (the file is skipped) exactly when reading raised or the sheet has no 'Container Type' column. Otherwise it keeps exactly the rows with a container type, each as many times as it occurs. |
| Ingestion.EntryDefaults | price_list_prep_.py:38-71 | Each record (`Entry`, built from `SharedFields` and `OriginCostsOf` through `Get`) carries the file's supplier and month and its own mode. Each absent column takes its default: 0 for the six costs (O_Cost_NonHaz, O_Cost_Haz, Sea_Base, Sea_IMO, D_Cost_NonHaz, D_Cost_Haz), EUR/USD/EUR for the three currencies, "N/A" for the nine descriptive columns (the container type, read through `Get` with that default, and Origin_Country, Origin_City, Dest_Country, Destination, Incoterms, Transit_Days, Validity and Carrier), and "" for comments. |
| Ingestion.RowRecordsShape | price_list_prep_.py:35-37 | A row gives three records (`RowRecords`), Barge, Road and Rail in that order. They agree on everything except the mode and the origin costs. |
| Ingestion.RowsRecords | price_list_prep_.py:35-37 | Rows give three records each. |
| Ingestion.RowsRecordsAt | price_list_prep_.py:35-72 | Record `3*j+k` is row `j` flattened for mode `k`. |
| Ingestion.ParseWorkbook | price_list_prep_.py:18-33 | A workbook is skipped exactly when its stem has no hyphen, or reading or retention failed. Otherwise its supplier and month rebuild the stem, the month has no hyphen (the split is at the last one), and its rows are the retained rows. |
| Ingestion.FileRecords | price_list_prep_.py:20-77 | A skipped workbook contributes nothing. Any other contributes three records per retained row: record `3*j+k` is retained row `j` for mode `k`, with the workbook's supplier and month. |
| Ingestion.AllRecordsAppend | price_list_prep_.py:16 | The records of two lists of files (`AllRecords`) are the records of each list, in order. |
| Ingestion.SkippedFileContributesNothing | price_list_prep_.py:74-77 | A file that is skipped or fails leaves the records of the other files unchanged. |
| Ingestion.AllRecordsHaveContainer | price_list_prep_.py:32-33 | Every record has a container type. |
| Ingestion.FillRecord | price_list_prep_.py:81 | `fillna(0)` on one line (cell by cell through `FillCell`): each blank cell becomes the number 0, every other cell is kept, and so are supplier, month and mode. A filled line has no blank, and a line without blanks is unchanged. |
| Ingestion.FillTable | price_list_prep_.py:81 | Filling keeps the table's length and fills every line in place. |
| Ingestion.AppendRows | price_list_prep_.py:35-72 | The nested loop appends exactly the flattened records of the retained rows to what was processed before. |
| Ingestion.PrepareMasterData | price_list_prep_.py:6-85 | No input files ends on the first message. No records ends on the no-data message. Otherwise the written table is the filled records of all files in order, and it is not empty. |
| Pricing.Rate | streamlit_app.py:10 | `RATES.get(code, 1.0)`: positive; 1.0 for EUR and for any currency not in the table. |
| Pricing.Round2 | streamlit_app.py:63 | Rounding to cents gives a whole number of cents, at most half a cent from the exact value. |
| Pricing.Round2OfCents | streamlit_app.py:63 | Rounding leaves an amount already in cents unchanged. |
| Pricing.Round2Monotone | streamlit_app.py:63 | Rounding keeps the order of two amounts. |
| Pricing.CalcTotal | streamlit_app.py:53-63 | The price is a whole number of cents, within half a cent of `ExactTotal`: origin + ocean + destination (`OriginLeg`, `OceanLeg`, `DestinationLeg`), each converted with its own currency's rate. |
| Pricing.HazardDelta | streamlit_app.py:55-62 | The exact dangerous price exceeds the non-dangerous one by the converted IMO surcharge and the converted hazardous surcharges of both carriage legs, and by nothing else. |
| Pricing.HazardColumnsSelected | streamlit_app.py:55-61 | The non-dangerous price ignores IMO and the `_Haz` costs; the dangerous price ignores the `_NonHaz` costs. |
| Pricing.UnknownCurrenciesAtFaceValue | streamlit_app.py:56-62 | With currencies missing from the table, every leg is summed at face value. |
| Pricing.NonNegativeCostsGiveNonNegativePrice | streamlit_app.py:53-63 | Non-negative costs give a non-negative price. |
| Months.MonthNameRoundTrip | streamlit_app.py:97-99 | Every month abbreviation has three letters and leads back to its month number. |
| Months.FormatMonth | streamlit_app.py:97-99 | Succeeds exactly on valid codes (`ValidCode`: six digits, a year from 1000, a month that `MonthName` knows). The label is eight characters and ends with the code's year. |
| Months.FormatMonthRoundTrip | streamlit_app.py:104-109 | The label of a valid code gives the code back. |
| Months.FormatMonthInjective | streamlit_app.py:105 | Two valid codes with one label are the same code. |
| Months.MonthMapping | streamlit_app.py:104-109 | Fails exactly when some code is invalid. Otherwise every code is reachable through its label, and every label maps back to the code it was made from. |
| Months.FormatMonthExample | streamlit_app.py:96-99 | "202601" is shown as "Jan 2026". |
| Views.Filter | streamlit_app.py:132 | A boolean-mask selection keeps exactly the matching quotes, each as many times as it occurs, and never adds any. |
| Views.FilterBoth | streamlit_app.py:215-217 | Selecting by one condition and then another is selecting by both. |
| Views.FilterEverything | streamlit_app.py:215 | Selecting by no condition keeps the table as it is. |
| Views.Scope | streamlit_app.py:132 | The corridor data are exactly the quotes of the chosen destination and month, each as many times as in the table. |
| Views.Catalog | streamlit_app.py:193 | The catalog is exactly the quotes of the chosen supplier in the chosen month, each as many times as in the table. |
| Views.Narrow | streamlit_app.py:215-217 | The narrowed quotes are the corridor quotes whose size and mode were picked; an empty pick does not filter. |
| Views.MatchesSelection | streamlit_app.py:216-217 | The size and mode conditions (`SizeFilter`, `ModeFilter`), spelled out, with an empty pick matching everything. |
| Views.History | streamlit_app.py:263-270 | The history is exactly the quotes of the destination, in the picked months, passing the same size and mode picks. |
| Views.HistoryOfSelectedMonth | streamlit_app.py:263-270 | For a picked month, the history's quotes of that month are exactly the narrowed quotes. |
| Views.MinPrice | streamlit_app.py:146 | The minimum is None exactly when nothing matches. Otherwise it is the price of some matching quote, and no matching quote is cheaper. |
| Views.BestPricePivot | streamlit_app.py:146 | There is a cell for exactly the (container, mode, supplier) triples quoted. Each cell holds the price of one of its quotes, and none of its quotes is cheaper (`Cheapest` keyed by `KeyOf`). |
| Views.CompareView | streamlit_app.py:132-171 | The grids appear exactly when the corridor has a quote that month. Each grid has a cell for exactly the triples quoted in the corridor, holding the lowest price of that cell's quotes: non-dangerous prices in one grid, dangerous in the other. |
| Views.GroupMin | streamlit_app.py:154-156 | A mode's minimum in a row is None exactly when all its cells are missing. Otherwise it is one of its cells, and no cell of the mode is lower. |
| Views.Distinct | streamlit_app.py:151 | `unique()` keeps exactly the values present, each once. |
| Views.HighlightMinPerMode | streamlit_app.py:149-161 | A cell is highlighted exactly when it has a value equal to its mode's minimum in the row. |
| Views.EveryModeHasAMinimum | streamlit_app.py:153-160 | Every mode with a value in the row has a highlighted cell. |
| Views.PivotRowFlagged | streamlit_app.py:146-160 | In a pivot row (`PivotRow`), a cell is highlighted exactly when the pivot has it and no cell of the same mode in that row holds a lower price. |
| Views.TiesFlaggedTogether | streamlit_app.py:157-160 | Equal cells of one mode are highlighted together. |
| Views.SeriesLabelInjective | streamlit_app.py:273-284 | For `SeriesLabel` (ending in the `HazTag`): when supplier, container and mode contain no bar character, a series label determines all three. |
| Views.SplitAtFirstBar | streamlit_app.py:279-284 | A part free of bar characters is recovered from the part, a space-bar-space separator and the rest. |
| Views.TrendPivot | streamlit_app.py:290-297 | There is a point for exactly the (month, series) pairs with a quote. Each point holds the price of one of its quotes, and none is cheaper (`Cheapest` keyed by `PointOf`). |
| Views.NarrowedOfCorridor | streamlit_app.py:132-217 | The corridor is empty exactly when no quote is of that destination and month. The narrowed selection is empty exactly when none of those quotes passes the picks. |
| Views.TrendOfHistory | streamlit_app.py:263-297 | The history holds exactly the quotes that qualify for the trend (`InHistory`), so it is empty exactly when none does. Its trend pivot has a point for exactly the (month, series) pairs of qualifying quotes, holding the lowest price of each. |
| Views.TrendSection | streamlit_app.py:134-355 | The corridor notice appears exactly when the corridor is empty. The no-match notice appears exactly when the corridor has quotes but none passes the picks. The empty-history notice appears exactly when some do but no quote of the destination in the picked months passes them; with the viewed month picked, it cannot occur. A shown trend has a point for exactly each qualifying (month, series), holding the lowest price. |
| Views.SelectListing | streamlit_app.py:229-230 | A selection fails exactly when a named column is not in the table. Otherwise each narrowed quote is listed with its price, in the narrowed order (the sort by price is left out; see the sorting line under "## Left out"). |
| Views.ListingAsWrittenFails | streamlit_app.py:229-230 | As written, the listing's column selection fails for every input. |
| Views.ListingSelectsColumns | streamlit_app.py:229-230 | Selecting the master table's own `Validity` column succeeds. |

## Left out

- File discovery (`glob`), reading workbooks and writing the table are not modelled. Neither are the 'France' sheet name, the 39 skipped header rows or the printed messages. A workbook is given as its name and the sheet that reading produced; `None` stands for any exception while reading.
- The order in which `glob` lists files is taken as given by the caller.
- Reloading the master table as CSV (`load_data`, with `st.cache_data`) is not modelled, nor is pandas' type inference on it. The dashboard works on typed `Quote` values, and costs are exact reals.
- Pricing.CalcTotal: binary floating point is not modelled. Python's `round` on a double can round a near-tie the other way; the model rounds exact values half to even.
- Months.FormatMonth: treats as invalid every code that is not six digits with a year from 1000. `strptime` also accepts a one-digit month such as "20261".
- The trend pivot is keyed by month code rather than by the "Jan 2026" label. `Months.FormatMonthInjective` shows the two keyings agree.
- The picked labels turn back into codes through the same mapping (`Months.MonthMapping`).
- Ingestion.KeepRows, Ingestion.Retained, Views.Filter, Views.Scope, Views.Catalog: the contracts state which rows are kept and how often, not that the kept rows keep the table's order. Their definitions do keep the order, and `Views.FilterBoth` and `Views.Narrow` state equalities of whole sequences.
- Ingestion.Sheet: nothing requires every row to have a cell for every column of its sheet. pandas always gives such a cell (NaN when empty). The model also admits rows that lack a column, for which `row.get` takes its default.
- Sorting is left out: months in descending order, destinations, pivot axes, the listing by price, and the chart's month axis. The model states what each view contains, not its order.
- All rendering is left out: Streamlit widgets, layout, the logo, colours, number formats, the refresh timestamp and the Altair chart (`melt` and its encoding). The user's choices are parameters.
- The commented-out export helpers and the older views are not part of the running program.
- Views.TrendSection: assumes the listing above it does not raise, following the corrected column list (see Findings).

## Findings

| source | as written | input that shows it | evidently intended | confidence | as-written member | corrected member |
|---|---|---|---|---|---|---|
| streamlit_app.py:229-230 | The listing selects a `Validity_Internal` column, but the master table's column is `Validity` (price_list_prep_.py:68). Any non-empty narrowed selection raises a KeyError, so neither the listing nor the trend below it is shown. | Any destination and month with one quote that passes the size and mode picks | Select `Validity` | not executed | Views.ListingAsWrittenFails | Views.ListingSelectsColumns |
