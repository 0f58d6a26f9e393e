# ProducScan production calendar and rollups, in Dafny

ProducScan records every tyre-mandrel piece scanned at an inspection table
("mesa") and every defect logged against one. Everything it reports rests on
two rules. A shift rule assigns a time of day to shift "1", "2" or "3". A
labor-day rule moves the small hours to the previous day, because the night
shift started the day before. On top of these rules the application builds:

- the defect reports (grouped tables, day x shift pivots, top-5 lists);
- the cost charts and cost sheets (defect count x unit cost per mandrel,
  top-N rankings, family filters);
- the operator goal board, which pro-rates each table's goal to the time
  elapsed in the shift and classifies it into four bands;
- the production day export and the production report;
- the dashboard totals;
- the maintenance of the operator table, the login accounts and defect
  records, and the middleware that remembers a user's last page and checks
  the security stamp of a signed-in principal.

This project models that logic over in-memory sequences: a query's rows are
an input sequence, and a table is a `seq` field of a class whose methods
update it. Times are seconds of the day (0..86399) and dates are integer day
numbers. The present moment, the time zone, the database and every
spreadsheet are outside the model.

Modules, one per file:

- `ShiftCalendar`: the shift table, `ObtenerTurno` and `GetFechaProduccion`
  of the helper; the inline labor-day rule; the two "current shift"
  selectors.
- `Records`: the row shapes, the quantity parser and the three family
  normalisations.
- `LaborDays`: two-phase fetching (calendar window, then labor day).
- `DefectReports`: the defect queries and the Excel export pivot.
- `CostRollups`: cost per key and the top-N rankings.
- `CostSheets`: the three cost sheets.
- `CostChart`: the stacked bar chart of top mandrels per family.
- `GoalTracker`: the goal board.
- `ProductionReports`: the day export and the production report.
- `Dashboard`: the dashboard totals.
- `DefectEdit`: editing a defect record.
- `EmployeeRegistry`: the operator table.
- `Accounts`: the login accounts.
- `Session`: the last-view middleware and the cookie check.
- `Collections`, `Text`, `Sorting`, `KeyedTables`: generic sequence, string,
  stable-sort and keyed-table helpers.

LINQ `GroupBy`, `Distinct` and `Union` keep first-occurrence order.
`OrderBy`, `OrderByDescending` and `ThenBy` are a stable sort by a composite
comparison, so ties keep their input order.

The shift table in Helpers/ProduccionHelper.cs:8 starts shift 1 at 07:00:00.
07:10 belongs only to the inline labor-day rule
(Controllers/RegistrodeDefectosController.cs:1087-1092) and to the shift
selector of RegistrodeDefectosController (lines 42-48).

Every comparison that the database evaluates uses SQL Server's `=`:
trailing spaces are ignored and letters compare without regard to case
(`Text.IgualSql`). This covers each `Where`, `Contains` (SQL `IN`,
`Text.EnSql`), `Any` and `FirstOrDefaultAsync` applied to a table before
`ToList`, `ToDictionary` or `AsEnumerable`. Comparisons on rows already in
memory use C# `==`, which is exact.

Where the source is evidently wrong (see "## Findings"), the model has a
member for the code as written and a corrected one. The goal board
(`GoalTracker.InspeccionTM`) and its clock are modelled as written, beside
the corrected `GoalTracker.InspeccionTMCorregido`. The cost chart
(`CostChart.DefectosGrafica`, `CostChart.GetTopMandrilesPorDia`) is the
corrected chart, beside the as-written `CostChart.DefectosGraficaAsWritten`
and `CostChart.ListaDeTextoAsWritten`.

## Model

| member | source | states |
|---|---|---|
| ShiftCalendar.FirstMatch | Helpers/ProduccionHelper.cs:30-48 | the shift returned either is in the table and contains the time, or is the "Desconocido" fallback, and then no shift in the table contains the time |
| ShiftCalendar.GetFechaProduccion | Helpers/ProduccionHelper.cs:13-28 | the labor day is the event's calendar date or the day before |
| ShiftCalendar.ObtenerTurnoCases | Helpers/ProduccionHelper.cs:6-48 | [07:00:00, 15:44:59) is shift 1, [15:45:00, 23:49:59) is shift 2, from 23:50:00 or before 06:59:59 is shift 3, and any other second is "Desconocido" |
| ShiftCalendar.GapsAreUnknown | Helpers/ProduccionHelper.cs:36-47 | 06:59:59, 15:44:59 and 23:49:59 match no shift and get the fallback with offset 0, so 06:59:59 keeps its calendar date |
| ShiftCalendar.HelperLaborDay | Helpers/ProduccionHelper.cs:10-25 | the labor day is the previous date exactly when the time is before 06:59:59; otherwise it is the calendar date |
| ShiftCalendar.LateShiftKeepsDate | Helpers/ProduccionHelper.cs:10-25 | from 23:50:00 the time is in shift 3 but keeps its calendar date |
| ShiftCalendar.TurnosDisjoint | Helpers/ProduccionHelper.cs:6-44 | no second lies in two shifts of the table |
| ShiftCalendar.FirstMatchUnique | Helpers/ProduccionHelper.cs:30-48 | when exactly one shift contains the time, the first-match search returns it wherever it sits in the list |
| ShiftCalendar.ObtenerTurnoOrderIndependent | Helpers/ProduccionHelper.cs:6-44 | any reordering of the shift table gives the same shift for every time |
| ShiftCalendar.InlineLaborDay | Controllers/RegistrodeDefectosController.cs:1087-1092 | the inline rule's labor day is the calendar date or the day before |
| ShiftCalendar.LaborDayRulesDiffer | Controllers/RegistrodeDefectosController.cs:1087-1092 | the helper and the inline rule disagree exactly on 06:59:59 through 07:09:59, where the helper keeps the date and the inline rule takes the day before |
| ShiftCalendar.SelectorDesde0710 | Controllers/RegistrodeDefectosController.cs:42-48 | with no shift given, 07:10:00-15:44:59 is "1", 15:45:00-23:49:59 is "2" and every other time is "3" (both directions) |
| ShiftCalendar.SelectorDesde0700 | Controllers/PiezasEscaneadasController.cs:72-77 | the same selector with shift 1 from 07:00:00 (both directions) |
| ShiftCalendar.SelectorsDiffer | Controllers/PiezasEscaneadasController.cs:72-77 | the two selectors disagree exactly on 07:00:00-07:09:59, where one says "1" and the other "3" |
| ShiftCalendar.SelectorMatchesHelper | Controllers/PiezasEscaneadasController.cs:102-111 | the 07:00 selector names the helper's shift for every second except the three fallback seconds, which are the only ones the helper leaves unknown |
| ShiftCalendar.TurnoOrCurrent | Controllers/RegistrodeDefectosController.cs:39-48 | a non-empty requested shift is used as given; an empty one is replaced by the current shift |
| Records.PzPiezas | Controllers/PiezasEscaneadasController.cs:131 | a quantity that `int.TryParse` rejects counts 0; a valid one counts its Int32 value |
| Records.Inspeccion | Controllers/RegistrodeDefectosController.cs:1566 | the catalog keeps exactly the mandrels whose area equals "INSPECCION" under SQL `=` (so "Inspeccion " too), with their entries unchanged |
| Records.InspeccionVariante | Controllers/RegistrodeDefectosController.cs:1566 | a mandrel of area "Inspeccion " is kept, one of area "MOLDEO" is not |
| Records.FamiliaNormalizada | Controllers/RegistrodeDefectosController.cs:1569 | a null or blank family becomes "SIN FAMILIA" and any other is kept; the result is never blank |
| Records.FamiliaONull | Controllers/RegistrodeDefectosController.cs:1057 | only a null family becomes "SIN FAMILIA"; an empty one is kept |
| Records.FamiliaOVacia | Controllers/RegistrodeDefectosController.cs:1247 | a null family becomes "" |
| Records.FamiliaNormalisationsDiffer | Controllers/RegistrodeDefectosController.cs:1569 | the blank-aware and null-only normalisations differ exactly on a blank family; the null-only and empty-default ones differ exactly on null |
| Records.CostoOCero | Controllers/RegistrodeDefectosController.cs:1056 | a missing unit cost is 0 |
| Records.CostoDe | Controllers/RegistrodeDefectosController.cs:1384 | a mandrel missing from the catalog costs 0; otherwise its cost or 0 |
| LaborDays.HelperWindowExact | Controllers/RegistrodeDefectosController.cs:467-485 | fetching calendar dates [inicio-1, fin+1] and then keeping labor days in [inicio, fin] gives the same rows, in the same order, as filtering the whole table |
| LaborDays.HelperDaysMembers | Controllers/RegistrodeDefectosController.cs:467-485 | a row survives the two phases exactly when it is in the table and its labor day is in range |
| LaborDays.InlineWindowExact | Controllers/RegistrodeDefectosController.cs:1761-1797 | the same exactness for the inline labor-day rule |
| LaborDays.HelperDayCount | Controllers/RegistrodeDefectosController.cs:418-441 | the rows kept for one labor day number exactly the rows whose labor day it is |
| LaborDays.ChartRows | Controllers/RegistrodeDefectosController.cs:1087-1101 | the chart keeps exactly the rows whose inline labor day is in range |
| LaborDays.ChartWindowLoses | Controllers/RegistrodeDefectosController.cs:1062-1068 | the window [inicio-1, fin] loses exactly the rows dated fin+1 before 07:10, whose labor day is fin |
| LaborDays.ChartRowsAsWrittenSpec | Controllers/RegistrodeDefectosController.cs:1062-1101 | the source's fetch keeps exactly the rows of the corrected chart that are not dated after fin |
| LaborDays.ChartWindowCounterexample | Controllers/RegistrodeDefectosController.cs:1062-1068 | a defect at 00:30 on fin+1 has labor day fin, but the source's window drops it |
| DefectReports.DefectosDelRango | Controllers/RegistrodeDefectosController.cs:1479-1497 | exactly the table's defects whose labor day is in range, as a sub-multiset of the table |
| DefectReports.ObtenerDefectosFiltrados | Controllers/RegistrodeDefectosController.cs:418-447 | exactly the defects of that labor day and, unless no shift is given, that shift |
| DefectReports.SoloSiHayLista | Controllers/RegistrodeDefectosController.cs:683-687 | an empty selection list keeps every row; otherwise exactly the rows whose field is in the list |
| DefectReports.DefectosSeleccionadosMembers | Controllers/RegistrodeDefectosController.cs:677-687 | a defect is selected exactly when its labor day, shift, mandrel and code pass the four filters |
| DefectReports.GetDefectosAgrupadosSpec | Controllers/RegistrodeDefectosController.cs:689-700 | one row per (shift, mandrel, code - defect) key with its count of at least 1, counts summing to the selected defects, ordered by shift then mandrel |
| DefectReports.GetMandrilesSpec | Controllers/RegistrodeDefectosController.cs:462-495 | exactly the non-blank mandrels with a defect in range, ascending and without repeats |
| DefectReports.GetCodigosMembers | Controllers/RegistrodeDefectosController.cs:498-536 | an option is listed exactly when some defect in range with a non-blank code yields it |
| DefectReports.GetCodigosOrder | Controllers/RegistrodeDefectosController.cs:521-531 | the options have no repeats and are ordered by value |
| DefectReports.FamiliaIng | Controllers/RegistrodeDefectosController.cs:544-550 | an inspection mandrel's family is normalised; any other mandrel is "SIN FAMILIA" |
| DefectReports.GetFamiliasIngSpec | Controllers/RegistrodeDefectosController.cs:539-589 | exactly the families of defects in range, never blank, ascending and without repeats |
| DefectReports.EnRangoLaboral | Controllers/RegistrodeDefectosController.cs:728-738 | exactly the projected rows whose labor day is in range |
| DefectReports.ExportWindowMembers | Controllers/RegistrodeDefectosController.cs:713-738 | the export's fetch and filter keep exactly the projections of table rows whose labor day is in range |
| DefectReports.DefectosExportadosMembers | Controllers/RegistrodeDefectosController.cs:713-751 | the exported rows are exactly those that pass the range, shift, mandrel and code filters |
| DefectReports.DetalleSpec | Controllers/RegistrodeDefectosController.cs:753-772 | each detail row carries its key's count (at least 1), every defect has a row, and rows are ordered by date, shift, mandrel and code |
| DefectReports.ExportConservation | Controllers/RegistrodeDefectosController.cs:753-796 | the counts of the detail, per-day and per-shift tables each sum to the number of exported defects |
| DefectReports.PivotCell | Controllers/RegistrodeDefectosController.cs:929-940 | a pivot cell is the number of defects of that day and shift, 0 when there are none |
| DefectReports.DayTotal | Controllers/RegistrodeDefectosController.cs:777-785 | the per-day total is the number of defects of that day |
| DefectReports.DayIsThreeShifts | Controllers/RegistrodeDefectosController.cs:777-785 | when every shift is "1", "2" or "3", a day's count is the sum of its three shift counts |
| DefectReports.PivotPorDia | Controllers/RegistrodeDefectosController.cs:925-950 | one row per date in order, cells for shifts "1", "2" and "3" looked up with 0 for a missing cell, and Total Dia their sum |
| DefectReports.PivotDayMatchesDayTotal | Controllers/RegistrodeDefectosController.cs:925-950 | the pivot's three cells of a day add up to that day's total in the per-day table |
| DefectReports.FechasUnicasSpec | Controllers/RegistrodeDefectosController.cs:813 | the pivot's dates are exactly the defects' labor days, strictly ascending |
| DefectReports.GetTop5DefectosSpec | Controllers/RegistrodeDefectosController.cs:1474-1513 | at most 5 (code, defect) groups with their true counts, descending, and no group left out has a higher count than one kept |
| DefectReports.GetTop5MandrilesSpec | Controllers/RegistrodeDefectosController.cs:1517-1554 | the same for mandrels |
| CostRollups.Costeados | Controllers/RegistrodeDefectosController.cs:1274-1303 | one costed row per distinct key |
| CostRollups.CosteadosMembers | Controllers/RegistrodeDefectosController.cs:1274-1303 | a costed row's count is the number of its key's rows (at least 1) and its cost is count x unit cost |
| CostRollups.CosteadosTotal | Controllers/RegistrodeDefectosController.cs:1274-1303 | the costs of all groups sum to the rows' unit costs |
| CostRollups.TopPorCostoSpec | Controllers/RegistrodeDefectosController.cs:1400-1414 | the top n by cost has min(n, keys) rows with true counts and costs, descending cost, and nothing left out costs more than a row kept |
| CostRollups.TopPorPiezasSpec | Controllers/RegistrodeDefectosController.cs:1181 | the top n by count has the same properties for the count |
| CostRollups.RankingEquivalence | Controllers/RegistrodeDefectosController.cs:1412 | with one positive unit cost for every key, ranking by count and ranking by count x cost give the same list |
| CostRollups.RankingAtZeroCost | Controllers/RegistrodeDefectosController.cs:1412 | at zero cost, the cost ranking is the groups in first-occurrence order |
| CostRollups.RankingDiffersAtZeroCost | Controllers/RegistrodeDefectosController.cs:1181 | at zero cost the two rankings can put different keys first |
| CostRollups.DefectosConCosto | Controllers/RegistrodeDefectosController.cs:1252-1271 | over the whole table, exactly the defects whose helper labor day is in range and that pass the mandrel and code filters |
| CostRollups.AgruparConCostoFilas | Controllers/RegistrodeDefectosController.cs:1274-1303 | one row per (day, mandrel, code) with its count and count x unit cost, family `?? ""` for a catalogued mandrel and "SIN FAMILIA" with cost 0 otherwise, ordered by descending count |
| CostRollups.AgruparConCostoTotales | Controllers/RegistrodeDefectosController.cs:1274-1303 | the rows' counts sum to the filtered defects and their costs to the defects' unit costs |
| CostRollups.ExportarDefectosExcel | Controllers/RegistrodeDefectosController.cs:1311-1455 | one block per labor day that has defects |
| CostRollups.DiasLaboralesSpec | Controllers/RegistrodeDefectosController.cs:1345-1348 | the export's days are exactly the defects' labor days, strictly ascending |
| CostRollups.TopCodigosMandrilSpec | Controllers/RegistrodeDefectosController.cs:1400-1414 | at most 3 codes of a mandrel, with true counts and costs, in descending cost |
| CostRollups.TopMandrilesDiaSpec | Controllers/RegistrodeDefectosController.cs:1376-1395 | at most 5 mandrels of the day with true counts and costs, descending, none left out costlier, and an uncatalogued mandrel costs 0 |
| CostRollups.ExportarDefectosExcelFechas | Controllers/RegistrodeDefectosController.cs:1375 | block i is the block of the i-th labor day |
| CostRollups.ExportarDefectosExcelBloques | Controllers/RegistrodeDefectosController.cs:1345-1375 | every block is that of its own day, and blocks are in strictly ascending day order |
| CostRollups.ExportarDefectosExcelDias | Controllers/RegistrodeDefectosController.cs:1322-1348 | every block's day is in range and is the labor day of some table defect |
| CostRollups.ExportarDefectosExcelPorDia | Controllers/RegistrodeDefectosController.cs:1345-1375 | the blocks follow the sorted labor days one to one |
| CostRollups.ExportarDefectosExcelCompleto | Controllers/RegistrodeDefectosController.cs:1322-1375 | every defect whose labor day is in range has its day's block |
| CostRollups.DefectosPorMandrilBase | Controllers/RegistrodeDefectosController.cs:1559-1600 | exactly the defects whose labor day is in range and that pass the mandrel and code filters |
| CostRollups.FamiliaPorMandrilCases | Controllers/RegistrodeDefectosController.cs:1602-1619 | a catalogued mandrel's family is normalised; an uncatalogued one is "SIN FAMILIA" |
| CostRollups.FamilyFiltersDiffer | Controllers/RegistrodeDefectosController.cs:1683-1693 | the two family filters agree on catalogued mandrels; an uncatalogued one passes the count filter only when "SIN FAMILIA" is selected and never passes the cost filter |
| CostRollups.GetDefectosPorMandrilSpec | Controllers/RegistrodeDefectosController.cs:1559-1633 | one row per mandrel with its true count, descending, summing to the filtered defects |
| CostRollups.OrdenPorCostoSpec | Controllers/RegistrodeDefectosController.cs:1697-1712 | one row per key with true count and cost, descending cost, costs summing to the rows' unit costs |
| CostRollups.GetCostoPorMandrilSpec | Controllers/RegistrodeDefectosController.cs:1636-1716 | one row per mandrel with true count and cost, descending cost, summing to the filtered defects' costs |
| CostSheets.DefectosHojas | Controllers/RegistrodeDefectosController.cs:1761-1820 | exactly the defects whose inline labor day is in range |
| CostSheets.PiezasHojas | Controllers/RegistrodeDefectosController.cs:1768-1820 | exactly the scans whose inline labor day is in range |
| CostSheets.MandrilesOrdenadosSpec | Controllers/RegistrodeDefectosController.cs:2019-2020 | the mandrels of the rows, once each, strictly ascending |
| CostSheets.PorMandrilFila | Controllers/RegistrodeDefectosController.cs:2005-2064 | row i is the i-th mandrel, with its defect count (at least 1), production = scanned pieces + defects, and cost = count x unit cost (0 if uncatalogued) |
| CostSheets.PorMandrilOrden | Controllers/RegistrodeDefectosController.cs:2019-2020 | every defect's mandrel has a row, and rows are strictly ascending by mandrel |
| CostSheets.PorMandrilTotales | Controllers/RegistrodeDefectosController.cs:2005-2064 | the per-mandrel counts sum to the defects and the costs to the defects' unit costs |
| CostSheets.FamiliaIngenieria | Controllers/RegistrodeDefectosController.cs:1754 | a catalogued mandrel's family `?? "SIN FAMILIA"`; otherwise "SIN FAMILIA" |
| CostSheets.DiasInlineSpec | Controllers/RegistrodeDefectosController.cs:1826-1830 | the sheet's days are exactly the defects' inline labor days, strictly ascending |
| CostSheets.FilasDelDiaOrden | Controllers/RegistrodeDefectosController.cs:1886-1887 | a day's rows carry that day and are strictly ascending by mandrel |
| CostSheets.FilasDelDiaFila | Controllers/RegistrodeDefectosController.cs:1873-1920 | each row of a day carries the mandrel's family, its count that day, production = pieces that day + defects, and cost = count x unit cost |
| CostSheets.FilasDelDiaTotales | Controllers/RegistrodeDefectosController.cs:1873-1920 | a day's counts sum to the day's defects and its costs to their unit costs |
| CostSheets.FilasIngenieriaTotales | Controllers/RegistrodeDefectosController.cs:1873-1920 | over all days, counts and costs sum to those of the defects on those days |
| CostSheets.FilasIngenieriaOrden | Controllers/RegistrodeDefectosController.cs:1873-1920 | with ascending days, the rows are ordered by day then mandrel |
| CostSheets.FilasIngenieriaMember | Controllers/RegistrodeDefectosController.cs:1873-1920 | every row belongs to one of the days and is one of that day's rows |
| CostSheets.GenerarHojaIngenieriaOrden | Controllers/RegistrodeDefectosController.cs:1742-1925 | the engineering sheet is ordered by day then mandrel |
| CostSheets.GenerarHojaIngenieriaFila | Controllers/RegistrodeDefectosController.cs:1742-1925 | each row's day is in range, with the mandrel's family, its count that day, production and cost as above |
| CostSheets.GenerarHojaCodigosFilas | Controllers/RegistrodeDefectosController.cs:2134-2153 | one row per (day, mandrel, code, defect) with its count, in range, ordered by day, mandrel and code, counts summing to the defects |
| CostSheets.GenerarHojaCodigosCosto | Controllers/RegistrodeDefectosController.cs:2158 | the codes sheet's total cost is the sum of the defects' unit costs |
| CostSheets.HojasCuadran | Controllers/RegistrodeDefectosController.cs:1834 | the three sheets agree: their costs equal the engineering sheet's range total and their counts the number of defects |
| CostChart.Seleccionados | Controllers/RegistrodeDefectosController.cs:1051-1074 | exactly the defects whose mandrel matches a catalog name and, when the lists are given, a listed mandrel and a listed code, each under SQL `IN` |
| CostChart.SeleccionExacta | Controllers/RegistrodeDefectosController.cs:1065-1074 | when no defect spells a mandrel or code as a case or trailing-space variant of a catalog name or list entry, the selection is the exact in-memory one |
| CostChart.MandrilEnMinusculasFalla | Controllers/RegistrodeDefectosController.cs:1065-1116 | a defect "m-01" against catalog name "M-01" is selected and makes the chart fail |
| Text.EnSqlDeMiembro | Controllers/RegistrodeDefectosController.cs:1068-1074 | SQL `IN` accepts every exact member, and accepts only exact members when the value has no variant in the list |
| CostChart.DefectosGrafica | Controllers/RegistrodeDefectosController.cs:1077-1101 | the corrected chart's defects: exactly the selected defects whose inline labor day is in range |
| CostChart.DefectosGraficaAsWrittenSpec | Controllers/RegistrodeDefectosController.cs:1062-1101 | the source's chart holds exactly the corrected chart's defects not dated after fin, so it loses the early-morning defects of fin+1 |
| CostChart.TopPorFamilia | Controllers/RegistrodeDefectosController.cs:1122-1140 | the top lists are keyed by exactly the chart's families |
| CostChart.FamiliasGraficaSpec | Controllers/RegistrodeDefectosController.cs:1115-1119 | the families are exactly those of the defects, strictly ascending |
| CostChart.TopClavesSpec | Controllers/RegistrodeDefectosController.cs:1122-1140 | the top keys are at most n keys of the rows, in descending cost |
| CostChart.TopFamiliaMiembros | Controllers/RegistrodeDefectosController.cs:1122-1140 | at most 5 mandrels per family, each with a defect of that family |
| CostChart.TopFamiliaOrden | Controllers/RegistrodeDefectosController.cs:1122-1140 | a family's mandrels are in descending count x unit cost |
| CostChart.BloqueSpec | Controllers/RegistrodeDefectosController.cs:1144-1155 | a family's block holds exactly its top mandrels and no separator |
| CostChart.ConSeparadoresCount | Controllers/RegistrodeDefectosController.cs:1144-1155 | one separator per family |
| CostChart.ConSeparadoresBarras | Controllers/RegistrodeDefectosController.cs:1144-1155 | the bars are exactly the (family, top mandrel) pairs |
| CostChart.ConSeparadoresSpec | Controllers/RegistrodeDefectosController.cs:1144-1155 | one separator per family, exactly the (family, top mandrel) bars, and a separator last |
| CostChart.EtiquetasConSeparadores | Controllers/RegistrodeDefectosController.cs:1144-1152 | the label loop builds the blocks with a separator after each family |
| CostChart.ConstruirEtiquetas | Controllers/RegistrodeDefectosController.cs:1144-1155 | after the trailing separator is removed, there is one separator fewer than families and the same bars |
| CostChart.QuitarUltimo | Controllers/RegistrodeDefectosController.cs:1154-1155 | removing the trailing separator removes one separator and no bar |
| CostChart.DefectosPorEtiqueta | Controllers/RegistrodeDefectosController.cs:1158-1186 | one entry per label, holding that label's code list |
| CostChart.CodigosDeMandrilSpec | Controllers/RegistrodeDefectosController.cs:1172-1183 | at most 3 codes of a mandrel, with true counts and costs, descending count, no repeats |
| CostChart.CodigosUnicos | Controllers/RegistrodeDefectosController.cs:1189-1193 | exactly the codes in some label's list, without repeats |
| CostChart.PrimeroCon | Controllers/RegistrodeDefectosController.cs:1210 | the first entry with the code, or none when no entry has it |
| CostChart.ConstruirDatasets | Controllers/RegistrodeDefectosController.cs:1196-1219 | one dataset per code with one value per label, each the cell of that code in that label's list |
| CostChart.PrimeroConUnico | Controllers/RegistrodeDefectosController.cs:1210-1211 | with distinct codes, the first match's cost is the code's total cost in the list |
| CostChart.StackHeight | Controllers/RegistrodeDefectosController.cs:1196-1219 | a bar's stacked height over all datasets is the cost of its listed codes |
| CostChart.EtiquetasGraficaSpec | Controllers/RegistrodeDefectosController.cs:1144-1155 | one separator fewer than families, and the bars are exactly the (family, top mandrel) pairs |
| CostChart.GraficaDe | Controllers/RegistrodeDefectosController.cs:1144-1219 | the labels and, per unique code, the per-label costs |
| CostChart.GetTopMandrilesPorDia | Controllers/RegistrodeDefectosController.cs:1045-1228 | the corrected chart (labor-day window, codes looked up by each bar's (family, mandrel) pair): empty when no selected defect is in range; fails exactly when a selected defect's mandrel is not an exact catalog key (the `mandrilInfo[d.Mandrel]` lookup); otherwise the labels and datasets above |
| CostChart.GraficaStack | Controllers/RegistrodeDefectosController.cs:1196-1219 | each bar of the finished chart stacks to the cost of its label's codes |
| CostChart.FirstSep | Controllers/RegistrodeDefectosController.cs:1168 | the first " - " at or after i, or none when there is none |
| CostChart.Split | Controllers/RegistrodeDefectosController.cs:1168-1169 | splitting always gives at least one piece |
| CostChart.SplitEtiqueta | Controllers/RegistrodeDefectosController.cs:1144-1170 | a label "family - mandrel" splits back into its parts when neither part holds " - " |
| CostChart.ListaDeTextoAgrees | Controllers/RegistrodeDefectosController.cs:1158-1186 | for such labels, the source's lookup by label text finds the same list as the lookup by label |
| CostChart.SplitCounterexample | Controllers/RegistrodeDefectosController.cs:1168-1170 | a family "A - B" makes the label "A - B - M" read back as mandrel "B", which the catalog lookup does not find, while the bar itself has a well-defined (empty) list |
| GoalTracker.TurnoWindow | Controllers/PiezasEscaneadasController.cs:117-152 | fetching [dia-1, dia+1] and then filtering by labor day and shift keeps exactly the rows of that labor day and shift |
| GoalTracker.PiezasDelTurno | Controllers/PiezasEscaneadasController.cs:117-133 | exactly the scans of that labor day and shift |
| GoalTracker.DefectosDelTurno | Controllers/PiezasEscaneadasController.cs:136-152 | exactly the defects of that labor day and shift |
| GoalTracker.ClavesDeSumas | Controllers/PiezasEscaneadasController.cs:125-133 | the piece groups have exactly the (mesa, TM) keys of the scans, in first-occurrence order |
| GoalTracker.ClavesDeConteos | Controllers/PiezasEscaneadasController.cs:144-152 | the defect groups have exactly the keys of the defects |
| GoalTracker.ClavesUnion | Controllers/PiezasEscaneadasController.cs:155-157 | the union lists every key with scans or defects exactly once |
| GoalTracker.NumeroMesa | Controllers/PiezasEscaneadasController.cs:169-170 | the number formed by the mesa's digits when it fits an Int32, otherwise 0 |
| GoalTracker.MetaDeSpec | Controllers/PiezasEscaneadasController.cs:173-176 | the goal of the first table with that number, 1800 when it has none or no table matches |
| GoalTracker.NumeroEmpleado | Controllers/PiezasEscaneadasController.cs:214-215 | the employee number of a user with that name, "0000" when none has it |
| GoalTracker.UltimaPieza | Controllers/PiezasEscaneadasController.cs:230-234 | the key's scan with the latest date and time (the first such on ties), or none when the key has no scan |
| GoalTracker.UltimoMandril | Controllers/PiezasEscaneadasController.cs:230-234 | the mandrel of the key's latest scan, "N/A" when it has none |
| GoalTracker.InicioTurno | Controllers/PiezasEscaneadasController.cs:179-182 | shift 1 starts at 07:00, shift 2 at 15:45, any other at 23:50 |
| GoalTracker.Acotar | Controllers/PiezasEscaneadasController.cs:184-186 | the elapsed time is clamped to [0, 8 h], unchanged inside that range |
| GoalTracker.TranscurridoAsWritten | Controllers/PiezasEscaneadasController.cs:179-186 | the source's elapsed time on the same day's clock: 0 before the shift's start time, the time since the start during the first 8 h, and 8 h after that |
| GoalTracker.Transcurrido | Controllers/PiezasEscaneadasController.cs:179-186 | the corrected elapsed time is within [0, 8 h] and agrees with the source except for shift 3 before 07:00 |
| GoalTracker.TurnoTresTrasMedianoche | Controllers/PiezasEscaneadasController.cs:179-186 | for shift 3 after midnight the source gives 0 and the corrected value is the time since 23:50 |
| GoalTracker.MinutosTranscurridos | Controllers/PiezasEscaneadasController.cs:179-186 | the clamping by reassignment computes the source's elapsed time: within [0, 8 h], and 0 before the shift's start time |
| GoalTracker.TruncDivBounds | Controllers/PiezasEscaneadasController.cs:188 | truncating division brackets the exact quotient from the side of zero |
| GoalTracker.MetaEsperadaBounds | Controllers/PiezasEscaneadasController.cs:188 | the expected output lies between 0 and the goal, is 0 at the start and the whole goal at 8 h |
| GoalTracker.MetaEsperadaMonotone | Controllers/PiezasEscaneadasController.cs:188 | the expected output never decreases as time passes |
| GoalTracker.Clasificar | Controllers/PiezasEscaneadasController.cs:193-212 | each band holds exactly when the total is in its interval around the expected output (bands of width 100), so the bands are exclusive and exhaustive |
| GoalTracker.ClasificarMonotone | Controllers/PiezasEscaneadasController.cs:193-212 | a higher total or a lower expectation never gives a worse band |
| GoalTracker.EstadoTextoInjective | Controllers/PiezasEscaneadasController.cs:193-212 | distinct bands have distinct texts and colours |
| GoalTracker.FilaDeSpec | Controllers/PiezasEscaneadasController.cs:161-245 | for any elapsed time within the shift, a card's good pieces are its key's sum, bad pieces its count, total their sum, expected output within the goal, band from total and expected output |
| GoalTracker.FilasTM | Controllers/PiezasEscaneadasController.cs:159-249 | one card per union key, in the union's order |
| GoalTracker.MesaOrden | Controllers/PiezasEscaneadasController.cs:252-256 | the sort key is the number of the mesa's digits, Int32.MaxValue when they do not parse |
| GoalTracker.DiaDeLaVista | Controllers/PiezasEscaneadasController.cs:98-99 | a given date is used; otherwise today's labor day, which is today or yesterday |
| GoalTracker.FilasTMDistintas | Controllers/PiezasEscaneadasController.cs:159-249 | cards are distinct, each is the card of its key, and the keys are exactly the union |
| GoalTracker.FilasTMConservation | Controllers/PiezasEscaneadasController.cs:159-249 | good pieces over the cards sum to the shift's scanned pieces and bad pieces to its defects |
| GoalTracker.TableroOrden | Controllers/PiezasEscaneadasController.cs:252-256 | the sort is a permutation of the cards in ascending mesa order |
| GoalTracker.TableroSpec | Controllers/PiezasEscaneadasController.cs:155-256 | for any elapsed time within the shift, the board has exactly one card per key, with correct cards, conserved totals and ascending mesa order |
| GoalTracker.InspeccionTMSpec | Controllers/PiezasEscaneadasController.cs:93-268 | the action is the board of the chosen labor day and of the requested shift (the current shift when none is requested), with the source's elapsed time and the Int32 parse of each card's employee number |
| GoalTracker.ParseInt32 | Controllers/PiezasEscaneadasController.cs:216 | `int.Parse` of the photo number: a value within Int32, or failure |
| GoalTracker.ParseInt64 | Controllers/RegistrodeUsersController.cs:50 | parses exactly the numbers that the registry's numeric test accepts, to values within Int64 |
| GoalTracker.ParseWider | Controllers/PiezasEscaneadasController.cs:216 | a number that parses as Int32 parses to the same value as Int64 |
| GoalTracker.ConNumerosDeFoto | Controllers/PiezasEscaneadasController.cs:214-216 | the cards, unchanged, when every card's number parses; failure exactly when some card's number does not |
| GoalTracker.FilasTMNumeros | Controllers/PiezasEscaneadasController.cs:214-215 | each card carries the employee number of its key's TM |
| GoalTracker.TableroFalla | Controllers/PiezasEscaneadasController.cs:159-256 | the board fails exactly when some (mesa, TM) of the shift has a TM whose employee number (or "0000") the parse rejects |
| GoalTracker.NumeroEmpleadoEsNumerico | Controllers/PiezasEscaneadasController.cs:214-215 | when every stored number passes the registry's test, so does every number a card shows, the "0000" default included |
| GoalTracker.TableroNoFalla | Controllers/PiezasEscaneadasController.cs:159-256 | with registry-valid stored numbers, the Int64 parse of the board never fails |
| GoalTracker.InspeccionTMCorregidoNoFalla | Controllers/PiezasEscaneadasController.cs:93-268 | with registry-valid stored numbers, the corrected board is always shown |
| GoalTracker.InspeccionTMCorregidoCoincide | Controllers/PiezasEscaneadasController.cs:93-268 | except in shift 3 before 07:00, a board the source shows is exactly the corrected board |
| GoalTracker.SinNumeroAlFinal | Controllers/PiezasEscaneadasController.cs:252-256 | a mesa without a parseable number sorts after every other |
| GoalTracker.NightShiftCounterexample | Controllers/PiezasEscaneadasController.cs:179-188 | at 03:00 on shift 3 the source's elapsed time is 0, while 3 h 10 min have passed |
| GoalTracker.NumeroLargoFalla | Controllers/PiezasEscaneadasController.cs:214-216 | the registry's stored form of n passes its numeric test exactly when n fits Int64, and the board's Int32 parse of it fails exactly when n exceeds Int32 |
| GoalTracker.NumeroLargoCounterexample | Controllers/PiezasEscaneadasController.cs:216 | the stored form of 12345678901 passes the registry's test and fails the board's parse |
| GoalTracker.NightShiftBands | Controllers/PiezasEscaneadasController.cs:188-212 | there the source expects 0 pieces and shows 100 pieces as over-production, where 712 are expected and 100 is off target |
| ProductionReports.DiaExportado | Controllers/PiezasEscaneadasController.cs:452-453 | a given date is used; otherwise the calendar date of now |
| ProductionReports.ExportDefaultDay | Controllers/PiezasEscaneadasController.cs:452-453 | the export's default day differs from the board's default labor day exactly before 06:59:59 |
| ProductionReports.ClavesDe3Sumas | Controllers/PiezasEscaneadasController.cs:456-468 | the scan groups have exactly the (mesa, mandrel, shift) keys of the scans |
| ProductionReports.ClavesDe3Conteos | Controllers/PiezasEscaneadasController.cs:471-483 | the defect groups have exactly the keys of the defects |
| ProductionReports.ClavesUnion3 | Controllers/PiezasEscaneadasController.cs:486-488 | every key with scans or defects exactly once |
| ProductionReports.ParesDelDia | Controllers/PiezasEscaneadasController.cs:491-494 | exactly the (mesa, mandrel) pairs that have scans or defects, once each |
| ProductionReports.ParesDeUnion | Controllers/PiezasEscaneadasController.cs:486-494 | grouping the union by pair gives exactly the pairs with records |
| ProductionReports.FilaDiaDe | Controllers/PiezasEscaneadasController.cs:495-509 | each shift column holds that shift's pieces and defects; TurnoN = good + bad and TotalDia = TotalProduccion + TotalDefectos = Turno1 + Turno2 + Turno3 |
| ProductionReports.PivotBase | Controllers/PiezasEscaneadasController.cs:491-528 | one row per pair in union order, each the row of its pair |
| ProductionReports.PivotSpec | Controllers/PiezasEscaneadasController.cs:491-535 | the sorted pivot has one correct row per pair with records, ordered by mesa number then mandrel |
| ProductionReports.PivotProduccionTurno | Controllers/PiezasEscaneadasController.cs:495-509 | a shift's production column sums to that shift's scanned pieces |
| ProductionReports.PivotDefectosTurno | Controllers/PiezasEscaneadasController.cs:495-509 | a shift's defect column sums to that shift's defects |
| ProductionReports.PivotFilasCuadran | Controllers/PiezasEscaneadasController.cs:495-509 | every pivot row's totals add up |
| ProductionReports.MesasDeLista | Controllers/PiezasEscaneadasController.cs:543-549 | the mesas of the pivot, once each |
| ProductionReports.SumaDeBloques | Controllers/PiezasEscaneadasController.cs:543-549 | summing a column block by block gives the column's total |
| ProductionReports.SumarBloque | Controllers/PiezasEscaneadasController.cs:603-637 | the inner loop computes the mesa's block totals and adds its rows to the running totals |
| ProductionReports.ExportTotales | Controllers/PiezasEscaneadasController.cs:562-673 | the nested loops give each mesa's totals and, as grand totals, the per-shift sums over the whole pivot |
| ProductionReports.ExportGeneralesSpec | Controllers/PiezasEscaneadasController.cs:562-673 | each grand total is that shift's scanned pieces or defects for the day |
| ProductionReports.ExportTotalDia | Controllers/PiezasEscaneadasController.cs:562-673 | the TotalDia column sums to the six grand totals |
| ProductionReports.BloquesSuman | Controllers/PiezasEscaneadasController.cs:629-634 | the mesa blocks' day totals sum to the pivot's TotalDia column |
| ProductionReports.TotalMesaCuadra | Controllers/PiezasEscaneadasController.cs:621-634 | a mesa block's day total is its three shifts and is production plus defects |
| ProductionReports.TurnoDelReporte | Controllers/PiezasEscaneadasController.cs:968-983 | a requested shift is used; none means the current shift from 07:00 |
| ProductionReports.RegistrosDelReporte | Controllers/PiezasEscaneadasController.cs:986-1001 | exactly the scans of the labor day that pass the shift filter (skipped for blank or "Todos") and the mesa filter, trimmed and case-insensitive |
| ProductionReports.DefectosDelReporte | Controllers/PiezasEscaneadasController.cs:1004-1019 | exactly the defects that pass the same filters |
| ProductionReports.GrupoDe | Controllers/PiezasEscaneadasController.cs:1044-1125 | a group's pieces are its valid scans' quantities, its mandrel sub-totals sum to them, and its defects are counted by trimmed, lower-cased mesa and shift |
| ProductionReports.GruposProduccion | Controllers/PiezasEscaneadasController.cs:1044-1125 | one group per (mesa, shift) of the valid scans, in first-occurrence order |
| ProductionReports.SoloDefectos | Controllers/PiezasEscaneadasController.cs:1141-1178 | a defects-only group carries its own key |
| ProductionReports.AgregadosNuevos | Controllers/PiezasEscaneadasController.cs:1133-1180 | every appended group is a defects-only group for a defect key |
| ProductionReports.AgregadosCubren | Controllers/PiezasEscaneadasController.cs:1133-1180 | afterwards every defect key has a group, matched ignoring case |
| ProductionReports.AgregadosDistintos | Controllers/PiezasEscaneadasController.cs:1133-1180 | no appended group matches an earlier one ignoring case |
| ProductionReports.AgregarSoloDefectos | Controllers/PiezasEscaneadasController.cs:1128-1180 | the loop over distinct defect keys appends exactly the missing defects-only groups |
| ProductionReports.SoloDefectosNoVacios | Controllers/PiezasEscaneadasController.cs:1135-1178 | an appended group has 0 pieces and at least one defect |
| ProductionReports.TurnoOrden | Controllers/PiezasEscaneadasController.cs:1188 | the shift sort key is within Int32 |
| ProductionReports.ReporteProduccion | Controllers/PiezasEscaneadasController.cs:955-1200 | the action's groups are those of the report specification |
| ProductionReports.PiezasDelReporte | Controllers/PiezasEscaneadasController.cs:1044-1180 | the groups' pieces sum to the valid scans' pieces |
| ProductionReports.ReportePiezasTotal | Controllers/PiezasEscaneadasController.cs:1182-1189 | so do those of the sorted report |
| ProductionReports.ReporteClavesUnicas | Controllers/PiezasEscaneadasController.cs:1044-1189 | no two groups of the report share a key |
| ProductionReports.ReporteCubreDefectos | Controllers/PiezasEscaneadasController.cs:1128-1189 | every defect's (mesa, shift) has a group in the report |
| ProductionReports.ReporteEnOrden | Controllers/PiezasEscaneadasController.cs:1182-1189 | the report is ordered by mesa number then shift number |
| ProductionReports.ReporteDefectosTotal | Controllers/PiezasEscaneadasController.cs:1044-1189 | when no mesa or shift is spelled in two cases, the groups' defects sum to the number of defects |
| Dashboard.Producciones | Controllers/PiezasEscaneadasController.cs:1351-1356 | exactly the scans of the labor day |
| Dashboard.Defectos | Controllers/PiezasEscaneadasController.cs:1359-1364 | exactly the defects of the labor day |
| Dashboard.ResumenDe | Controllers/PiezasEscaneadasController.cs:1367-1379 | every category count is at most the number of defects; Uncured and PrintIllegible are 0 exactly when every defect has a code they exclude |
| Dashboard.CategoriasAnidadas | Controllers/PiezasEscaneadasController.cs:1376-1379 | Uncured <= Vulcanization <= MaterialLub <= PrintIllegible <= totalDefectos |
| Dashboard.ExcluirMas | Controllers/PiezasEscaneadasController.cs:1376-1379 | excluding more codes removes exactly the defects with those codes |
| Dashboard.PrintIllegibleDiferencia | Controllers/PiezasEscaneadasController.cs:1376 | PrintIllegible leaves out exactly the 17a, 17b and 21 defects |
| Dashboard.MaterialLubDiferencia | Controllers/PiezasEscaneadasController.cs:1377 | MaterialLub leaves out the 54 defects as well |
| Dashboard.VulcanizationDiferencia | Controllers/PiezasEscaneadasController.cs:1378 | Vulcanization leaves out the 59, 46 and 24 defects as well |
| Dashboard.UncuredDiferencia | Controllers/PiezasEscaneadasController.cs:1379 | Uncured leaves out the 23 defects as well |
| Dashboard.DashboardTotales | Controllers/PiezasEscaneadasController.cs:1351-1369 | the totals are the labor day's scanned pieces and defects, and their sum |
| Dashboard.ProduccionPorTurnoSpec | Controllers/PiezasEscaneadasController.cs:1404-1412 | one entry per trimmed shift with that shift's pieces, summing to all pieces, in ascending shift order |
| DefectEdit.Editado | Controllers/RegistrodeDefectosController.cs:209-245 | Id and Fecha are kept, Codigo and Defecto take the chosen values, and every other field takes the form's value |
| DefectEdit.Diferencias | Controllers/RegistrodeDefectosController.cs:209-245 | at most one change per compared field |
| DefectEdit.DiferenciasExactas | Controllers/RegistrodeDefectosController.cs:209-245 | exactly the fields whose values differ are listed, once each, with old and new values |
| DefectEdit.TodosLosCampos | Controllers/RegistrodeDefectosController.cs:211-245 | the seven compared fields are all the editable fields |
| DefectEdit.CambiosListados | Controllers/RegistrodeDefectosController.cs:209-245 | a field is listed exactly when it changed |
| DefectEdit.SinCambiosSiIguales | Controllers/RegistrodeDefectosController.cs:209-251 | the change list is empty exactly when the record is unchanged |
| DefectEdit.EditarDosVeces | Controllers/RegistrodeDefectosController.cs:209-245 | editing twice with the same form is editing once, and the second edit lists no change |
| DefectEdit.Escribir | Controllers/RegistrodeDefectosController.cs:211-245 | writing one field sets it and leaves the other fields, Id and Fecha alone |
| DefectEdit.RegistroDefecto.constructor | Models/RegistrodeDefecto.cs:1-28 | a new record object holds the given row |
| DefectEdit.RegistroDefecto.Comparar | Controllers/RegistrodeDefectosController.cs:211-245 | one field block: writes the field and lists it when it changed |
| DefectEdit.RegistroDefecto.Actualizar | Controllers/RegistrodeDefectosController.cs:209-245 | the record becomes the edited row and the change list is the difference |
| DefectEdit.Seleccion | Controllers/RegistrodeDefectosController.cs:200-202 | the selection splits exactly when it contains a '|' |
| DefectEdit.SeleccionDeUnir | Controllers/RegistrodeDefectosController.cs:200-202 | a "code|defect" value splits back into the trimmed code and defect |
| DefectEdit.LogDeEdicion | Controllers/RegistrodeDefectosController.cs:251-264 | one "Actualizar Defecto" entry with the changes when something changed, none otherwise |
| DefectEdit.Buscar | Controllers/RegistrodeDefectosController.cs:204-206 | a record with the Id, or none when none has it |
| DefectEdit.BuscarPrimero | Controllers/RegistrodeDefectosController.cs:204-206 | the lookup finds the first record with the Id |
| DefectEdit.Contexto.Indice | Controllers/RegistrodeDefectosController.cs:204-206 | the loop finds the position of the record the lookup returns |
| DefectEdit.Contexto.EditarDefecto | Controllers/RegistrodeDefectosController.cs:193-272 | an empty or unsplittable selection or an unknown Id fails with nothing changed; otherwise only that record is edited and one log entry is added when something changed |
| EmployeeRegistry.Normalizar | Controllers/RegistrodeUsersController.cs:44-47 | the result starts with "00", ends with the input, and equals the input when it already starts with "00" |
| EmployeeRegistry.NormalizarIdempotente | Controllers/RegistrodeUsersController.cs:44-47 | normalising twice is normalising once |
| EmployeeRegistry.NormalizadoSiEmpiezaConCeros | Controllers/RegistrodeUsersController.cs:44-47 | a number is unchanged exactly when it starts with "00" |
| EmployeeRegistry.NombreEnMayusculas | Controllers/RegistrodeUsersController.cs:65 | the name is upper-cased character by character |
| EmployeeRegistry.NumeroConEspacioEsDuplicado | Controllers/RegistrodeUsersController.cs:50-57 | a stored number with a trailing space passes the numeric test when the number does, and the database finds it as a duplicate |
| EmployeeRegistry.AgregarValido | Controllers/RegistrodeUsersController.cs:56-67 | adding a row with a new Id and an unused number keeps Ids and numbers unique |
| EmployeeRegistry.ReemplazarValido | Controllers/RegistrodeUsersController.cs:95-106 | replacing a row under its Id by a number no other Id uses keeps them unique |
| EmployeeRegistry.MismoNumeroNoEsDuplicado | Controllers/RegistrodeUsersController.cs:95-101 | re-saving a row with its own number is not a duplicate |
| EmployeeRegistry.QuitarValido | Controllers/RegistrodeUsersController.cs:116-126 | removing a row keeps the table valid and removes exactly that Id |
| EmployeeRegistry.TablaUsers.Create | Controllers/RegistrodeUsersController.cs:39-74 | invalid model, null number, non-Int64 number and a number already stored under SQL `=` fail, in that order, with nothing written; otherwise the normalised, upper-cased row is added and the table stays valid |
| EmployeeRegistry.TablaUsers.Edit | Controllers/RegistrodeUsersController.cs:78-113 | the same checks, with a duplicate check under SQL `=` that skips the row's own Id, then an unknown Id fails; otherwise that row is replaced |
| EmployeeRegistry.TablaUsers.Delete | Controllers/RegistrodeUsersController.cs:116-126 | an unknown Id fails with nothing changed; otherwise exactly that row is removed |
| Accounts.Editado | Controllers/UsuariosController.cs:76-79 | the name and role are replaced, the hash only when a non-blank password was typed, and Id, FechaAlta and SecurityStamp are kept |
| Accounts.NombreVarianteUsado | Controllers/UsuariosController.cs:43 | a name equal to a stored one under SQL `=` (other case, trailing spaces) counts as taken |
| Accounts.CrearValido | Controllers/UsuariosController.cs:43-49 | adding an account with a new Id and an unused name keeps Ids and names unique |
| Accounts.EditarValido | Controllers/UsuariosController.cs:70-79 | renaming to a name no other Id holds keeps them unique |
| Accounts.MismoNombrePermitido | Controllers/UsuariosController.cs:70-74 | keeping one's own name is never a duplicate |
| Accounts.EliminarValido | Controllers/UsuariosController.cs:123 | deleting keeps the table valid, and afterwards neither the name nor the Id exists |
| Accounts.TablaUsuarios.Crear | Controllers/UsuariosController.cs:41-54 | a name already stored under SQL `=` fails with nothing changed; otherwise exactly the bound model is added, password unused, and names stay unique |
| Accounts.TablaUsuarios.Editar | Controllers/UsuariosController.cs:65-86 | an unknown Id, then a name another Id holds under SQL `=`, fail with nothing changed; otherwise exactly that row is edited and names stay unique |
| Accounts.TablaUsuarios.EliminarConfirmado | Controllers/UsuariosController.cs:97-127 | an unknown Id fails; the signed-in account is refused; otherwise exactly that row is removed |
| Session.SeRegistraPorListas | Program.cs:79-94 | a request is recorded exactly when it is a GET with a non-blank path that has none of the excluded prefixes and none of the excluded fragments |
| Session.PrefijoExcluido | Program.cs:81-87 | a path with an excluded prefix is never recorded |
| Session.FragmentoExcluido | Program.cs:88-94 | a path containing an excluded fragment anywhere is never recorded |
| Session.Sesion.RegistrarVista | Program.cs:97-100 | a recordable request stores its exact path; any other leaves the session unchanged |
| Session.SoloGetConRuta | Program.cs:79-80 | only a GET with a non-empty path is recorded |
| Session.CuentaDe | Program.cs:29 | an account whose name equals the principal's under SQL `=`, or none exactly when the name is null or no account matches |
| Session.CuentaUnica | Program.cs:29 | with names unique under SQL `=`, the lookup returns the only matching account |
| Session.RechazadoSiiSinCuentaOStampDistinto | Program.cs:29-35 | with names unique under SQL `=`, a principal is accepted exactly when an account's name equals its name under SQL `=` and that account's stamp equals the claim |
| Session.EliminadoEsRechazado | Program.cs:29-35 | after an account is deleted, every principal with its name is rejected |
| Session.RenombradoEsRechazado | Program.cs:29-35 | after an account is renamed to a name not equal to the old one under SQL `=`, a principal with the old name is rejected |
| Session.RenombradoIgualSqlSigueAceptado | Program.cs:29-35 | after a rename to a case or trailing-space variant of the old name, the principal with the old name and stamp is still accepted |
| Text.SinEspaciosFinales | Controllers/UsuariosController.cs:43 | a prefix of the input that does not end in a space, and only spaces are removed |
| Text.IgualSqlSii | Controllers/UsuariosController.cs:43 | SQL `=` holds exactly when the strings without trailing spaces are equal ignoring case |
| Text.EspacioFinalIgnorado | Program.cs:29 | a trailing space changes nothing that SQL `=` sees |
| Text.ParseEspacioFinal | Controllers/RegistrodeUsersController.cs:50 | integer parsing ignores a trailing space: the result is unchanged |
| Text.DecimalValueLeadingZero | Controllers/RegistrodeUsersController.cs:44-47 | a leading zero does not change a numeral's value |
| KeyedTables.IndexOf | Controllers/UsuariosController.cs:67 | the position of the first row with the key, or none exactly when no row has it |
| KeyedTables.RemoveAtUnique | Controllers/UsuariosController.cs:123 | removing a row keeps keys unique and leaves exactly the rows with other keys |

## Left out

- The database, EF Core, `SaveChanges` and its exceptions: fetched rows are input sequences and tables are sequence fields. A failed save (the catch in `EditarDefecto`) is not modelled.
- The present moment and the time zone are parameters (`hoy`, `ahora`). Times are whole seconds; sub-second parts of `TimeOnly` are ignored. So the model misses a quirk of the inclusive shift selectors (ShiftCalendar.SelectorDesde0710, ShiftCalendar.SelectorDesde0700; Controllers/RegistrodeDefectosController.cs:45-47, Controllers/PiezasEscaneadasController.cs:104-109): at 15:44:59.5 or 23:49:59.5 no range matches and they return "3".
- Strings: `StartsWith(string)` (Program.cs:81-87, Controllers/RegistrodeUsersController.cs:44 and 83) compares by the current culture in the source and ordinally here. Trimming and blankness use the ASCII whitespace characters. Upper- and lower-casing are ASCII only. `char.IsDigit` accepts ASCII digits only.
- String ordering uses ordinal comparison. The source uses the culture's comparer in LINQ `OrderBy` and the database collation in SQL.
- Sums are unbounded integers. Int32 overflow of a sum of quantities is not modelled.
- Null text columns of scan and defect rows are not modelled: each is a string, and the model covers rows whose text is present. Where the source tells null from "", the model does not capture it:
  - `GroupBy` keeps a null key apart from "" (the shift chart at Controllers/PiezasEscaneadasController.cs:1405, and DefectReports.GetTop5MandrilesSpec and DefectReports.GetDefectosAgrupadosSpec).
  - Looking up a null Mandrel in the catalog (`TryGetValue`, `ContainsKey`, the indexer) throws (Controllers/RegistrodeDefectosController.cs:578, 1282, 1384, 1609, 1688, 2064).
  - `NuMesa.Trim()` and `Mesa.Where(char.IsDigit)` throw on a null mesa.
  - The goal board shows "N/A" for a null latest Mandrel; the model shows "N/A" only for a key without scans.
- Records.Catalogo is a map from MandrilNombre: the source builds it with `ToDictionary` (Controllers/RegistrodeDefectosController.cs:1059, 1249, 1319), which throws on a duplicate or null MandrilNombre. The model covers only catalogs with distinct, non-null names.
- Text.IgualSql: the database collation is not part of the source; SQL Server's default case-insensitive collation is assumed. Case folding is ASCII only, and accent and other non-ASCII rules are not modelled.
- Costs, FPY, scrap, percentages and the "$0.00 USD" text are computed in `double` in the source. Costs here are exact reals; the rest is left out.
- Spreadsheet layout, styles and block placement are left out. Only the numbers written to the sheets are modelled.
- Shifts other than "1", "2" and "3" have no pivot column, and their rows add nothing to the pivot. The model keeps that behaviour.
- The report's sub-lists (Mandriles detail, TeamMembers, DefectosPorTM, DefectosPorMandrel, DefectosPorDefecto) are left out. The mesa drop-down (`mesasDisponibles`) is left out too.
- The dashboard's per-mesa, per-TM and per-mandrel charts (PiezasEscaneadasController.cs:1415-1485) are left out.
- InspeccionTMTV (PiezasEscaneadasController.cs:271-446) runs the same code as InspeccionTM, so it is not modelled separately.
- The employee photo file lookup (`File.Exists`, Controllers/PiezasEscaneadasController.cs:218-227) is I/O and is left out. The `int.Parse` before it is modelled (GoalTracker.ParseInt32; see "## Findings").
- CostChart.DefectosGrafica: models the evidently intended labor-day window; the source's fetch stops at fin and is CostChart.DefectosGraficaAsWritten (see "## Findings").
- CostChart.GetTopMandrilesPorDia: models the corrected chart, with the labor-day window above and each bar's codes looked up by its (family, mandrel) pair. The source's label-text lookup is CostChart.ListaDeTextoAsWritten (see "## Findings").
- Session.RenombradoEsRechazado: promised only for a new name not equal to the old one under SQL `=`. A rename to a case or trailing-space variant keeps the principal accepted, which Session.RenombradoIgualSqlSigueAceptado states.
- GoalTracker.MetaEsperadaBounds: `(meta / 480.0) * minutos` in double is modelled as exact integer arithmetic, meta x seconds / 28800 truncated toward zero.
- ProductionReports.ReporteDefectosTotal: defect conservation is proved only when no mesa or shift is spelled in two different cases. Production groups count defects ignoring case, and defects-only groups count exactly.
- SignalR broadcasts, LogService logging, the Log row's timestamp and its Detalles text are left out.
- SHA-256 password hashing is a function parameter (`hash`).
- Database identity ids are a parameter (`idNuevo`), required to be unused.
- ModelState validation is a boolean parameter (`modeloValido`).
- Cookie sign-in and sign-out are not modelled; the model only states when a principal is rejected.
- Accounts.TablaUsuarios.EliminarConfirmado: the SecurityStamp reset before removal (UsuariosController.cs:113) is not modelled, because the row is removed in the same save.
- Actions outside the selected logic are left out: raw SQL reports, logs, mandrel CRUD, DataTables paging and the remaining chart endpoints of RegistrodeDefectosController.
- The export's default date is the calendar date of now, not the labor day. The model keeps this (ProductionReports.DiaExportado), and ProductionReports.ExportDefaultDay shows where it differs from the goal board.

## Findings

| source | as written | input that shows it | evidently intended | confidence | as-written member | corrected member |
|---|---|---|---|---|---|---|
| Controllers/RegistrodeDefectosController.cs:1062-1063 | `GetTopMandrilesPorDia` fetches calendar dates [inicio-1, fin] before applying the inline labor-day rule | a defect dated fin+1 at 00:30, whose labor day is fin | fetch [inicio-1, fin+1], as every other labor-day query does | not executed | LaborDays.ChartWindowCounterexample | LaborDays.ChartRows |
| Controllers/RegistrodeDefectosController.cs:1144-1170 | labels are built as "family - mandrel" and read back with `Split(" - ")[1]` | a family named "A - B" and mandrel "M": the label reads back as mandrel "B", which `mandrilInfo[mandril]` does not hold, so the request throws | look up a bar's codes by its (family, mandrel) pair | not executed | CostChart.SplitCounterexample | CostChart.DefectosPorEtiqueta |
| Controllers/PiezasEscaneadasController.cs:180-188 | elapsed time is `now - 23:50`, clamped to [0, 480] minutes, even for shift 3 after midnight | shift "3" at 03:00: elapsed 0, so the expected output is 0 and 100 pieces show as over-production | add 24 h for shift 3 before 07:00 (3 h 10 min elapsed, 712 of 1800 expected) | not executed | GoalTracker.NightShiftCounterexample | GoalTracker.Transcurrido |
| Controllers/PiezasEscaneadasController.cs:216 | the photo number is read with `int.Parse`, while the registry accepts any number within Int64 (Controllers/RegistrodeUsersController.cs:50) | employee number "12345678901", stored as "0012345678901": the parse throws and the whole board fails | read the number in the registry's Int64 range, so no stored number breaks the board | not executed | GoalTracker.NumeroLargoCounterexample | GoalTracker.InspeccionTMCorregidoNoFalla |
