/**
 * The production dashboard (PiezasEscaneadasController.Dashboard): the
 * labor day's scans and defects, good pieces, defects and their total, the
 * four nested defect categories, and the good pieces per shift.
 */
module Dashboard {
  import opened Collections
  import opened Text
  import opened Sorting
  import opened ShiftCalendar
  import opened Records
  import opened LaborDays
  import GoalTracker
  import ProductionReports

  // ---------------------------------------------------------------------
  // The labor day's rows
  // ---------------------------------------------------------------------

  /** `producciones`: fetch calendar days dia - 1 .. dia + 1, keep the helper's labor day dia. */
  function Producciones(tabla: seq<Pieza>, dia: Date): (r: seq<Pieza>)
    ensures r == KeepHelperDays(tabla, PzFecha, PzHora, dia, dia)
    ensures forall p :: p in r <==> p in tabla && GetFechaProduccion(p.fecha, p.hora) == dia
  {
    HelperWindowExact(tabla, PzFecha, PzHora, dia, dia);
    assert forall p :: (p in KeepHelperDays(tabla, PzFecha, PzHora, dia, dia)
                        <==> p in tabla && GetFechaProduccion(p.fecha, p.hora) == dia) by {
      forall p ensures p in KeepHelperDays(tabla, PzFecha, PzHora, dia, dia)
                       <==> p in tabla && GetFechaProduccion(p.fecha, p.hora) == dia {
        HelperDaysMembers(tabla, PzFecha, PzHora, dia, dia, p);
      }
    }
    KeepHelperDays(FetchDates(tabla, PzFecha, dia - 1, dia + 1), PzFecha, PzHora, dia, dia)
  }

  /** `defectos`: the same two-phase filter on the defect table. */
  function Defectos(tabla: seq<Defecto>, dia: Date): (r: seq<Defecto>)
    ensures r == KeepHelperDays(tabla, DefFecha, DefHora, dia, dia)
    ensures forall d :: d in r <==> d in tabla && GetFechaProduccion(d.fecha, d.hora) == dia
  {
    HelperWindowExact(tabla, DefFecha, DefHora, dia, dia);
    assert forall d :: (d in KeepHelperDays(tabla, DefFecha, DefHora, dia, dia)
                        <==> d in tabla && GetFechaProduccion(d.fecha, d.hora) == dia) by {
      forall d ensures d in KeepHelperDays(tabla, DefFecha, DefHora, dia, dia)
                       <==> d in tabla && GetFechaProduccion(d.fecha, d.hora) == dia {
        HelperDaysMembers(tabla, DefFecha, DefHora, dia, dia, d);
      }
    }
    KeepHelperDays(FetchDates(tabla, DefFecha, dia - 1, dia + 1), DefFecha, DefHora, dia, dia)
  }

  // ---------------------------------------------------------------------
  // Totals and defect categories
  // ---------------------------------------------------------------------

  /** Defect codes left out of each category, as the four literal arrays list them. */
  const PrintIllegibleExcluidos: seq<string> := ["17a", "17b", "21"]
  const MaterialLubExcluidos: seq<string> := ["17a", "17b", "21", "54"]
  const VulcanizationExcluidos: seq<string> := ["17a", "17b", "21", "54", "59", "46", "24"]
  const UncuredExcluidos: seq<string> := ["17a", "17b", "21", "54", "59", "46", "24", "23"]

  /** `!excluidos.Contains(d.CodigodeDefecto)`. */
  function FueraDe(excluidos: seq<string>): Defecto -> bool
  {
    (d: Defecto) => d.codigo !in excluidos
  }

  /** DashboardResumenViewModel's counts (the percentages are not modelled). */
  datatype Resumen = Resumen(
    totalBuenas: int, totalDefectos: int, totalPiezas: int,
    printIllegible: nat, materialLub: nat, vulcanization: nat, uncured: nat)

  /**
   * The summary of a labor day's scans and defects. Each per-category
   * count is a count of defects, so none exceeds the defect total, and a
   * category is empty exactly when every defect's code is one it excludes.
   */
  function ResumenDe(prods: seq<Pieza>, defs: seq<Defecto>): (r: Resumen)
    ensures r.printIllegible <= r.totalDefectos && r.materialLub <= r.totalDefectos
    ensures r.vulcanization <= r.totalDefectos && r.uncured <= r.totalDefectos
    ensures r.uncured == 0 <==> forall d :: d in defs ==> d.codigo in UncuredExcluidos
    ensures r.printIllegible == 0 <==> forall d :: d in defs ==> d.codigo in PrintIllegibleExcluidos
  {
    var buenas := SumOf(prods, PzPiezas);
    Resumen(buenas, |defs|, buenas + |defs|,
      CountIf(defs, FueraDe(PrintIllegibleExcluidos)),
      CountIf(defs, FueraDe(MaterialLubExcluidos)),
      CountIf(defs, FueraDe(VulcanizationExcluidos)),
      CountIf(defs, FueraDe(UncuredExcluidos)))
  }

  /** The dashboard for a date, or for the helper's labor day of now. */
  function DashboardDe(tablaPiezas: seq<Pieza>, tablaDefectos: seq<Defecto>, fecha: Option<Date>,
                       hoy: Date, ahora: TimeOfDay): Resumen
  {
    var dia := GoalTracker.DiaDeLaVista(fecha, hoy, ahora);
    ResumenDe(Producciones(tablaPiezas, dia), Defectos(tablaDefectos, dia))
  }

  /** Each category excludes more codes than the one before it: the counts are nested. */
  lemma {:induction false} CategoriasAnidadas(prods: seq<Pieza>, defs: seq<Defecto>)
    ensures var r := ResumenDe(prods, defs);
      r.uncured <= r.vulcanization <= r.materialLub <= r.printIllegible <= r.totalDefectos
  {
    CountIfMonotone(defs, FueraDe(UncuredExcluidos), FueraDe(VulcanizationExcluidos));
    CountIfMonotone(defs, FueraDe(VulcanizationExcluidos), FueraDe(MaterialLubExcluidos));
    CountIfMonotone(defs, FueraDe(MaterialLubExcluidos), FueraDe(PrintIllegibleExcluidos));
  }

  /** `d.CodigodeDefecto` is one of `codigos`. */
  function CodigoEn(codigos: seq<string>): Defecto -> bool
  {
    (d: Defecto) => d.codigo in codigos
  }

  /**
   * Counting the defects outside a longer exclusion list: the count under
   * the shorter list, less the defects whose code only the longer list
   * adds.
   */
  lemma ExcluirMas(defs: seq<Defecto>, corta: seq<string>, agregados: seq<string>)
    requires forall c :: c in agregados ==> c !in corta
    ensures CountIf(defs, FueraDe(corta))
         == CountIf(defs, FueraDe(corta + agregados)) + CountIf(defs, CodigoEn(agregados))
  {
    CountIfSplit(defs, FueraDe(corta + agregados), FueraDe(corta), CodigoEn(agregados));
  }

  /** What separates the defects from the print-illegible category: codes 17a, 17b and 21. */
  lemma PrintIllegibleDiferencia(prods: seq<Pieza>, defs: seq<Defecto>)
    ensures var r := ResumenDe(prods, defs);
      r.totalDefectos - r.printIllegible == CountIf(defs, CodigoEn(["17a", "17b", "21"]))
  {
    ExcluirMas(defs, [], PrintIllegibleExcluidos);
    assert [] + PrintIllegibleExcluidos == PrintIllegibleExcluidos;
    CountIfAll(defs, FueraDe([]));
  }

  /** What separates print-illegible from material/lubricant: code 54. */
  lemma MaterialLubDiferencia(prods: seq<Pieza>, defs: seq<Defecto>)
    ensures var r := ResumenDe(prods, defs);
      r.printIllegible - r.materialLub == CountIf(defs, CodigoEn(["54"]))
  {
    var agregados := ["54"];
    assert forall c :: c in agregados ==> c !in PrintIllegibleExcluidos by {
      assert "54" !in PrintIllegibleExcluidos;
    }
    assert PrintIllegibleExcluidos + agregados == MaterialLubExcluidos;
    ExcluirMas(defs, PrintIllegibleExcluidos, agregados);
  }

  /** What separates material/lubricant from vulcanization: codes 59, 46 and 24. */
  lemma VulcanizationDiferencia(prods: seq<Pieza>, defs: seq<Defecto>)
    ensures var r := ResumenDe(prods, defs);
      r.materialLub - r.vulcanization == CountIf(defs, CodigoEn(["59", "46", "24"]))
  {
    var agregados := ["59", "46", "24"];
    assert forall c :: c in agregados ==> c !in MaterialLubExcluidos by {
      assert "59" !in MaterialLubExcluidos && "46" !in MaterialLubExcluidos && "24" !in MaterialLubExcluidos;
    }
    assert MaterialLubExcluidos + agregados == VulcanizationExcluidos;
    ExcluirMas(defs, MaterialLubExcluidos, agregados);
  }

  /** What separates vulcanization from uncured: code 23. */
  lemma UncuredDiferencia(prods: seq<Pieza>, defs: seq<Defecto>)
    ensures var r := ResumenDe(prods, defs);
      r.vulcanization - r.uncured == CountIf(defs, CodigoEn(["23"]))
  {
    var agregados := ["23"];
    assert forall c :: c in agregados ==> c !in VulcanizationExcluidos by {
      assert "23" !in VulcanizationExcluidos;
    }
    assert VulcanizationExcluidos + agregados == UncuredExcluidos;
    ExcluirMas(defs, VulcanizationExcluidos, agregados);
  }

  /**
   * The totals of the day: good pieces are the parsed quantities of the
   * labor day's scans (an unparsable quantity adds 0), defects are the
   * labor day's defect rows, and the total is their sum.
   */
  lemma DashboardTotales(tablaPiezas: seq<Pieza>, tablaDefectos: seq<Defecto>, dia: Date)
    ensures var r := ResumenDe(Producciones(tablaPiezas, dia), Defectos(tablaDefectos, dia));
      && r.totalBuenas == SumOf(KeepHelperDays(tablaPiezas, PzFecha, PzHora, dia, dia), PzPiezas)
      && r.totalDefectos == CountIf(tablaDefectos, DelDia(DefFecha, DefHora, dia))
      && r.totalPiezas == r.totalBuenas + r.totalDefectos
  {
    HelperDayCount(tablaDefectos, DefFecha, DefHora, dia);
  }

  // ---------------------------------------------------------------------
  // Production per shift
  // ---------------------------------------------------------------------

  /** `r.Turno?.Trim()`. */
  function TurnoTrim(p: Pieza): string { Trim(p.turno) }

  /** OrderBy(int.TryParse(Turno) ? n : int.MaxValue). */
  predicate TurnoAntes(a: (string, int), b: (string, int))
  {
    ProductionReports.TurnoOrden(a.0) < ProductionReports.TurnoOrden(b.0)
  }

  function ClaveDeTurno(g: (string, int)): real { ProductionReports.TurnoOrden(g.0) as real }

  /** `produccionPorTurno`: good pieces grouped by trimmed shift, in shift-number order. */
  function ProduccionPorTurno(prods: seq<Pieza>): seq<(string, int)>
  {
    SortBy(GroupSums(prods, TurnoTrim, PzPiezas), TurnoAntes)
  }

  /**
   * The shift chart: one bar per shift, each holding that shift's good
   * pieces (0 for a shift with no scans), the bars adding up to the good
   * pieces of the day, in ascending shift number.
   */
  lemma ProduccionPorTurnoSpec(prods: seq<Pieza>)
    ensures var r := ProduccionPorTurno(prods);
      && DistinctKeys(r)
      && (forall t :: LookupOrZero(r, t) == SumKey(prods, TurnoTrim, t, PzPiezas))
      && SumOf(r, GroupValue) == SumOf(prods, PzPiezas)
      && Ascending(r, ClaveDeTurno)
  {
    var g := GroupSums(prods, TurnoTrim, PzPiezas);
    var r := SortBy(g, TurnoAntes);
    GroupSumsDistinctKeys(prods, TurnoTrim, PzPiezas);
    forall t ensures LookupOrZero(r, t) == SumKey(prods, TurnoTrim, t, PzPiezas) {
      LookupPermutation(g, r, t);
      LookupGroupSums(prods, TurnoTrim, PzPiezas, t);
    }
    DistinctKeysReorderedGroups(g, r);
    GroupSumsTotal(prods, TurnoTrim, PzPiezas);
    SumOfPermutation(r, g, GroupValue);
    SortAscending(g, TurnoAntes, ClaveDeTurno);
  }
}
