/**
 * The production reports of one labor day:
 *
 *  - ExportProduccionDiaLaboral: a pivot with one row per (mesa, mandril)
 *    and, for each of the shifts "1", "2" and "3", the good pieces scanned
 *    and the defects logged, then per-mesa block totals and per-shift grand
 *    totals accumulated in nested loops while the sheet is written;
 *  - ReporteProduccion: one group per (mesa, turno) with its pieces and its
 *    defects, to which the (mesa, turno) pairs that only have defects are
 *    appended in a loop;
 *  - Dashboard: the day's totals and the nested defect categories.
 */
module ProductionReports {
  import opened Collections
  import opened Text
  import opened Sorting
  import opened ShiftCalendar
  import opened Records
  import opened LaborDays
  import GoalTracker

  // ---------------------------------------------------------------------
  // ExportProduccionDiaLaboral: the (mesa, mandril) x turno pivot
  // ---------------------------------------------------------------------

  /** The (NuMesa, Mandrel, Turno) grouping key, untrimmed. */
  type Clave3 = (string, string, string)

  /** A pivot row's key. */
  type MesaMandril = (string, string)

  function PzClave3(p: Pieza): Clave3 { (p.nuMesa, p.mandrel, p.turno) }
  function DefClave3(d: Defecto): Clave3 { (d.nuMesa, d.mandrel, d.turno) }
  function ParDe(k: Clave3): MesaMandril { (k.0, k.1) }
  function ClaveDe3(g: (Clave3, int)): Clave3 { g.0 }

  /** The shifts the pivot has columns for; any other Turno value has none. */
  predicate TurnoDeColumna(t: string) { t == "1" || t == "2" || t == "3" }

  /** A row of the pivot, with the fourteen columns of the source's anonymous type. */
  datatype FilaDia = FilaDia(
    mesa: string, mandril: string,
    turno1: int, turno2: int, turno3: int,
    totalProduccion: int, totalDefectos: int, totalDia: int,
    turno1Produccion: int, turno1Defectos: int,
    turno2Produccion: int, turno2Defectos: int,
    turno3Produccion: int, turno3Defectos: int)

  function ParFila(f: FilaDia): MesaMandril { (f.mesa, f.mandril) }

  /** The good-pieces column of shift `t`. */
  function ProduccionDe(f: FilaDia, t: string): int
  {
    if t == "1" then f.turno1Produccion
    else if t == "2" then f.turno2Produccion
    else if t == "3" then f.turno3Produccion
    else 0
  }

  /** The defects column of shift `t`. */
  function DefectosDe(f: FilaDia, t: string): int
  {
    if t == "1" then f.turno1Defectos
    else if t == "2" then f.turno2Defectos
    else if t == "3" then f.turno3Defectos
    else 0
  }

  /** The labor day exported: the requested date, or today's calendar date. */
  function DiaExportado(fecha: Option<Date>, hoy: Date): (r: Date)
    ensures fecha.Some? ==> r == fecha.value
    ensures fecha.None? ==> r == hoy
  {
    if fecha.Some? then fecha.value else hoy
  }

  /** The whole table's scans whose helper labor day is `dia` (no date window). */
  function PiezasDelDia(tabla: seq<Pieza>, dia: Date): seq<Pieza>
  {
    KeepHelperDays(tabla, PzFecha, PzHora, dia, dia)
  }

  function DefectosDelDia(tabla: seq<Defecto>, dia: Date): seq<Defecto>
  {
    KeepHelperDays(tabla, DefFecha, DefHora, dia, dia)
  }

  /** `producciones`: good pieces per (mesa, mandril, turno). */
  function Producciones3(prods: seq<Pieza>): seq<(Clave3, int)>
  {
    GroupSums(prods, PzClave3, PzPiezas)
  }

  /** `defectos`: defects per (mesa, mandril, turno). */
  function Defectos3(defs: seq<Defecto>): seq<(Clave3, int)>
  {
    GroupCounts(defs, DefClave3)
  }

  lemma ClavesDe3Sumas(prods: seq<Pieza>)
    ensures Map(Producciones3(prods), ClaveDe3) == KeysOf(prods, PzClave3)
  {
  }

  lemma ClavesDe3Conteos(defs: seq<Defecto>)
    ensures Map(Defectos3(defs), ClaveDe3) == KeysOf(defs, DefClave3)
  {
  }

  /** `union`: the (mesa, mandril, turno) keys with scans, then those with only defects. */
  function ClavesUnion3(prods: seq<Pieza>, defs: seq<Defecto>): (r: seq<Clave3>)
    ensures NoDuplicates(r)
    ensures forall k :: k in r <==>
      (exists p :: p in prods && PzClave3(p) == k) || (exists d :: d in defs && DefClave3(d) == k)
  {
    ClavesDe3Sumas(prods);
    ClavesDe3Conteos(defs);
    Union(Map(Producciones3(prods), ClaveDe3), Map(Defectos3(defs), ClaveDe3))
  }

  /** (mesa, mandril) has a scan or a defect among the rows. */
  predicate ParConRegistros(prods: seq<Pieza>, defs: seq<Defecto>, mm: MesaMandril)
  {
    (exists p :: p in prods && (p.nuMesa, p.mandrel) == mm) || (exists d :: d in defs && (d.nuMesa, d.mandrel) == mm)
  }

  /** The pivot's row keys: `union.GroupBy(u => new { u.Mesa, u.Mandril })`. */
  function ParesDelDia(prods: seq<Pieza>, defs: seq<Defecto>): (r: seq<MesaMandril>)
    ensures NoDuplicates(r)
    ensures forall mm :: mm in r <==> ParConRegistros(prods, defs, mm)
  {
    ParesDeUnion(prods, defs);
    KeysOf(ClavesUnion3(prods, defs), ParDe)
  }

  lemma ParesDeUnion(prods: seq<Pieza>, defs: seq<Defecto>)
    ensures forall mm :: mm in KeysOf(ClavesUnion3(prods, defs), ParDe) <==> ParConRegistros(prods, defs, mm)
  {
    forall mm ensures mm in KeysOf(ClavesUnion3(prods, defs), ParDe) <==> ParConRegistros(prods, defs, mm) {
      if mm in KeysOf(ClavesUnion3(prods, defs), ParDe) {
        ParDeUnionConRegistros(prods, defs, mm);
      }
      if ParConRegistros(prods, defs, mm) {
        ParConRegistrosEnUnion(prods, defs, mm);
      }
    }
  }

  lemma ParDeUnionConRegistros(prods: seq<Pieza>, defs: seq<Defecto>, mm: MesaMandril)
    requires mm in KeysOf(ClavesUnion3(prods, defs), ParDe)
    ensures ParConRegistros(prods, defs, mm)
  {
    var u := ClavesUnion3(prods, defs);
    var k :| k in u && ParDe(k) == mm;
    if p :| p in prods && PzClave3(p) == k {
      assert (p.nuMesa, p.mandrel) == mm;
    } else {
      var d :| d in defs && DefClave3(d) == k;
      assert (d.nuMesa, d.mandrel) == mm;
    }
  }

  lemma ParConRegistrosEnUnion(prods: seq<Pieza>, defs: seq<Defecto>, mm: MesaMandril)
    requires ParConRegistros(prods, defs, mm)
    ensures mm in KeysOf(ClavesUnion3(prods, defs), ParDe)
  {
    var u := ClavesUnion3(prods, defs);
    if p :| p in prods && (p.nuMesa, p.mandrel) == mm {
      assert PzClave3(p) in u && ParDe(PzClave3(p)) == mm;
    } else {
      var d :| d in defs && (d.nuMesa, d.mandrel) == mm;
      assert DefClave3(d) in u && ParDe(DefClave3(d)) == mm;
    }
  }

  /**
   * One pivot row: each shift's good pieces (the FirstOrDefault of its
   * group, or 0) and defects, the shift totals and the day totals.
   */
  function FilaDiaDe(prods: seq<Pieza>, defs: seq<Defecto>, mm: MesaMandril): (r: FilaDia)
    ensures ParFila(r) == mm
    ensures forall t :: TurnoDeColumna(t) ==>
      ProduccionDe(r, t) == SumKey(prods, PzClave3, (mm.0, mm.1, t), PzPiezas)
    ensures forall t :: TurnoDeColumna(t) ==>
      DefectosDe(r, t) == CountKey(defs, DefClave3, (mm.0, mm.1, t))
    ensures r.turno1 == r.turno1Produccion + r.turno1Defectos
    ensures r.turno2 == r.turno2Produccion + r.turno2Defectos
    ensures r.turno3 == r.turno3Produccion + r.turno3Defectos
    ensures r.totalProduccion == r.turno1Produccion + r.turno2Produccion + r.turno3Produccion
    ensures r.totalDefectos == r.turno1Defectos + r.turno2Defectos + r.turno3Defectos
    ensures r.totalDia == r.turno1 + r.turno2 + r.turno3
    ensures r.totalDia == r.totalProduccion + r.totalDefectos
  {
    var (m, md) := mm;
    var ps, ds := Producciones3(prods), Defectos3(defs);
    LookupGroupSums(prods, PzClave3, PzPiezas, (m, md, "1"));
    LookupGroupSums(prods, PzClave3, PzPiezas, (m, md, "2"));
    LookupGroupSums(prods, PzClave3, PzPiezas, (m, md, "3"));
    LookupGroupCounts(defs, DefClave3, (m, md, "1"));
    LookupGroupCounts(defs, DefClave3, (m, md, "2"));
    LookupGroupCounts(defs, DefClave3, (m, md, "3"));
    var b1, b2, b3 := LookupOrZero(ps, (m, md, "1")), LookupOrZero(ps, (m, md, "2")), LookupOrZero(ps, (m, md, "3"));
    var m1, m2, m3 := LookupOrZero(ds, (m, md, "1")), LookupOrZero(ds, (m, md, "2")), LookupOrZero(ds, (m, md, "3"));
    var tp, td := b1 + b2 + b3, m1 + m2 + m3;
    FilaDia(m, md, b1 + m1, b2 + m2, b3 + m3, tp, td, tp + td, b1, m1, b2, m2, b3, m3)
  }

  /** OrderBy(number in the mesa label).ThenBy(Mandril), the latter ordinal. */
  predicate FilaAntes(a: FilaDia, b: FilaDia)
  {
    var ma, mb := GoalTracker.MesaOrden(a.mesa), GoalTracker.MesaOrden(b.mesa);
    ma < mb || (ma == mb && StrLess(a.mandril, b.mandril))
  }

  /** The pivot of a day's scans and defects, in sheet order. */
  function Pivot(prods: seq<Pieza>, defs: seq<Defecto>): seq<FilaDia>
  {
    SortBy(PivotBase(prods, defs), FilaAntes)
  }

  /** The rows ExportProduccionDiaLaboral writes for `fecha` (or today). */
  function ExportProduccionDiaLaboral(tablaPiezas: seq<Pieza>, tablaDefectos: seq<Defecto>,
                                      fecha: Option<Date>, hoy: Date): seq<FilaDia>
  {
    var dia := DiaExportado(fecha, hoy);
    Pivot(PiezasDelDia(tablaPiezas, dia), DefectosDelDia(tablaDefectos, dia))
  }

  lemma FilaAntesStrict(filas: seq<FilaDia>)
    ensures StrictOrderOn(filas, FilaAntes)
  {
    forall a | a in filas ensures !FilaAntes(a, a) {
      StrLessIrreflexive(a.mandril);
    }
    forall a, b, c | a in filas && b in filas && c in filas && FilaAntes(a, b) && FilaAntes(b, c)
      ensures FilaAntes(a, c)
    {
      if StrLess(a.mandril, b.mandril) && StrLess(b.mandril, c.mandril) {
        StrLessTransitive(a.mandril, b.mandril, c.mandril);
      }
    }
  }

  /** The unsorted pivot, in row-key order. */
  function PivotBase(prods: seq<Pieza>, defs: seq<Defecto>): (b: seq<FilaDia>)
    ensures Map(b, ParFila) == ParesDelDia(prods, defs)
    ensures forall f :: f in b ==> f == FilaDiaDe(prods, defs, ParFila(f))
  {
    Map(ParesDelDia(prods, defs), mm => FilaDiaDe(prods, defs, mm))
  }

  /**
   * The pivot: one row for each (mesa, mandril) that has a scan or a defect
   * on the day, in any shift; no pair twice; each row is that pair's row;
   * rows in ascending mesa number, then mandril.
   */
  lemma PivotSpec(prods: seq<Pieza>, defs: seq<Defecto>)
    ensures var r := Pivot(prods, defs);
      && (forall mm :: mm in Map(r, ParFila) <==> ParConRegistros(prods, defs, mm))
      && NoDuplicates(Map(r, ParFila))
      && (forall f :: f in r ==> f == FilaDiaDe(prods, defs, ParFila(f)))
      && SortedBy(r, FilaAntes)
  {
    var b := PivotBase(prods, defs);
    var r := Pivot(prods, defs);
    assert r == SortBy(b, FilaAntes);
    PivotBaseKeys(prods, defs);
    KeysOfReordering(b, r, ParFila);
    forall f | f in r ensures f == FilaDiaDe(prods, defs, ParFila(f)) {
      assert f in multiset(r);
    }
    FilaAntesStrict(b);
    SortSorted(b, FilaAntes);
  }

  /** The unsorted pivot has no two rows with the same key. */
  lemma PivotBaseKeys(prods: seq<Pieza>, defs: seq<Defecto>)
    ensures NoDuplicates(PivotBase(prods, defs))
    ensures forall x, y :: x in PivotBase(prods, defs) && y in PivotBase(prods, defs) && ParFila(x) == ParFila(y) ==> x == y
  {
    var b := PivotBase(prods, defs);
    var kb := Map(b, ParFila);
    forall i, j | 0 <= i < j < |b| ensures b[i] != b[j] {
      assert kb[i] != kb[j];
    }
  }

  /** `p => p.Turno == t`, the rows of shift t. */
  predicate DelTurno(t: string, p: Pieza) { p.turno == t }
  predicate DefectoDelTurno(t: string, d: Defecto) { d.turno == t }

  /**
   * A shift's good-pieces column adds up, over the whole pivot, to the good
   * pieces of every scan of that shift. `col` is the column read.
   */
  lemma PivotProduccionTurno(prods: seq<Pieza>, defs: seq<Defecto>, t: string, col: FilaDia -> int)
    requires TurnoDeColumna(t)
    requires forall f :: col(f) == ProduccionDe(f, t)
    ensures SumOf(Pivot(prods, defs), col) == SumOf(Filter(prods, p => DelTurno(t, p)), PzPiezas)
  {
    var ks, b, r := ParesDelDia(prods, defs), PivotBase(prods, defs), Pivot(prods, defs);
    var keep := (p: Pieza) => DelTurno(t, p);
    var sel := Filter(prods, keep);
    var par := (p: Pieza) => (p.nuMesa, p.mandrel);
    var g := (mm: MesaMandril) => SumKey(sel, par, mm, PzPiezas);
    SumOfPermutation(r, b, col);
    forall mm ensures col(FilaDiaDe(prods, defs, mm)) == g(mm) {
      SumKeyOfFilter(prods, PzClave3, (mm.0, mm.1, t), par, mm, keep, PzPiezas);
    }
    SumOfMap(ks, mm => FilaDiaDe(prods, defs, mm), col, g);
    SumOfBySumKeys(sel, par, ks, g, PzPiezas);
    forall p | p in sel ensures par(p) in ks {
      assert ParConRegistros(prods, defs, par(p));
    }
    SumConservation(sel, par, ks, PzPiezas);
  }

  /** A shift's defects column adds up, over the whole pivot, to the defects of that shift. */
  lemma PivotDefectosTurno(prods: seq<Pieza>, defs: seq<Defecto>, t: string, col: FilaDia -> int)
    requires TurnoDeColumna(t)
    requires forall f :: col(f) == DefectosDe(f, t)
    ensures SumOf(Pivot(prods, defs), col) == CountIf(defs, d => DefectoDelTurno(t, d))
  {
    var ks, b, r := ParesDelDia(prods, defs), PivotBase(prods, defs), Pivot(prods, defs);
    var keep := (d: Defecto) => DefectoDelTurno(t, d);
    var sel := Filter(defs, keep);
    var par := (d: Defecto) => (d.nuMesa, d.mandrel);
    var g := (mm: MesaMandril) => CountKey(sel, par, mm);
    SumOfPermutation(r, b, col);
    forall mm ensures col(FilaDiaDe(prods, defs, mm)) == g(mm) {
      CountKeyOfFinerKey(defs, DefClave3, (mm.0, mm.1, t), par, mm, keep);
    }
    SumOfMap(ks, mm => FilaDiaDe(prods, defs, mm), col, g);
    SumOfByKeys(sel, par, ks, g);
    forall d | d in sel ensures par(d) in ks {
      assert ParConRegistros(prods, defs, par(d));
    }
    CountConservation(sel, par, ks);
  }

  // ---------------------------------------------------------------------
  // ExportProduccionDiaLaboral: block totals while the sheet is written
  // ---------------------------------------------------------------------

  /** A block's TOTAL MESA line. */
  datatype TotalMesa = TotalMesa(
    mesa: string, turno1: int, turno2: int, turno3: int,
    produccion: int, defectos: int, totalDia: int)

  /** The "Totales generales por turno" block. */
  datatype TotalesGenerales = TotalesGenerales(
    turno1Produccion: int, turno1Defectos: int,
    turno2Produccion: int, turno2Defectos: int,
    turno3Produccion: int, turno3Defectos: int)

  function FilaMesa(f: FilaDia): string { f.mesa }
  function T1(f: FilaDia): int { f.turno1 }
  function T2(f: FilaDia): int { f.turno2 }
  function T3(f: FilaDia): int { f.turno3 }
  function TP(f: FilaDia): int { f.totalProduccion }
  function TD(f: FilaDia): int { f.totalDefectos }
  function TDia(f: FilaDia): int { f.totalDia }
  function P1(f: FilaDia): int { f.turno1Produccion }
  function D1(f: FilaDia): int { f.turno1Defectos }
  function P2(f: FilaDia): int { f.turno2Produccion }
  function D2(f: FilaDia): int { f.turno2Defectos }
  function P3(f: FilaDia): int { f.turno3Produccion }
  function D3(f: FilaDia): int { f.turno3Defectos }

  predicate MesaAntes(a: string, b: string) { GoalTracker.MesaOrden(a) < GoalTracker.MesaOrden(b) }
  predicate MandrilAntes(a: FilaDia, b: FilaDia) { StrLess(a.mandril, b.mandril) }

  /** `lista.GroupBy(x => x.Mesa)` ordered by the number in the label: the blocks. */
  function MesasDeLista(lista: seq<FilaDia>): (r: seq<string>)
    ensures NoDuplicates(r)
    ensures forall m :: m in r <==> m in Map(lista, FilaMesa)
  {
    var ks := KeysOf(lista, FilaMesa);
    var r := SortBy(ks, MesaAntes);
    NoDuplicatesPermutation(ks, r);
    assert forall m :: m in r <==> m in Map(lista, FilaMesa) by {
      forall m ensures m in r <==> m in Map(lista, FilaMesa) {
        assert m in r <==> m in multiset(r);
        if m in Map(lista, FilaMesa) {
          var i :| 0 <= i < |lista| && FilaMesa(lista[i]) == m;
          assert lista[i] in lista;
        }
      }
    }
    r
  }

  /** `mesaGroup.OrderBy(x => x.Mandril)`: a block's rows. */
  function FilasDeMesa(lista: seq<FilaDia>, m: string): seq<FilaDia>
  {
    SortBy(Filter(lista, f => FilaMesa(f) == m), MandrilAntes)
  }

  /** A block's TOTAL MESA line: each column summed over the mesa's rows. */
  function TotalMesaDe(lista: seq<FilaDia>, m: string): TotalMesa
  {
    TotalMesa(m,
      SumKey(lista, FilaMesa, m, T1), SumKey(lista, FilaMesa, m, T2), SumKey(lista, FilaMesa, m, T3),
      SumKey(lista, FilaMesa, m, TP), SumKey(lista, FilaMesa, m, TD), SumKey(lista, FilaMesa, m, TDia))
  }

  /** The general block: each per-shift column summed over every row. */
  function TotalesGeneralesDe(lista: seq<FilaDia>): TotalesGenerales
  {
    TotalesGenerales(
      SumOf(lista, P1), SumOf(lista, D1), SumOf(lista, P2),
      SumOf(lista, D2), SumOf(lista, P3), SumOf(lista, D3))
  }

  /** Summing a column over a block's rows, in any order, is the mesa's group sum. */
  lemma SumaDeBloque(lista: seq<FilaDia>, m: string, col: FilaDia -> int)
    ensures SumOf(FilasDeMesa(lista, m), col) == SumKey(lista, FilaMesa, m, col)
  {
    var sel := Filter(lista, f => FilaMesa(f) == m);
    SumOfPermutation(FilasDeMesa(lista, m), sel, col);
    SumKeyIsFilterSum(lista, FilaMesa, m, col, f => FilaMesa(f) == m);
  }

  /** One more key in the running SumOverKeys. */
  lemma SumOverKeysSnoc(lista: seq<FilaDia>, ks: seq<string>, i: nat, col: FilaDia -> int)
    requires i < |ks|
    ensures SumOverKeys(lista, FilaMesa, ks[..i + 1], col)
         == SumOverKeys(lista, FilaMesa, ks[..i], col) + SumOf(FilasDeMesa(lista, ks[i]), col)
  {
    assert ks[..i + 1][..i] == ks[..i];
    SumaDeBloque(lista, ks[i], col);
  }

  /** Every row's mesa has a block, so the blocks' sums add up to the whole list's. */
  lemma SumaDeBloques(lista: seq<FilaDia>, col: FilaDia -> int)
    ensures SumOverKeys(lista, FilaMesa, MesasDeLista(lista), col) == SumOf(lista, col)
  {
    var ms := MesasDeLista(lista);
    forall f | f in lista ensures FilaMesa(f) in ms {
      var i :| 0 <= i < |lista| && lista[i] == f;
      assert Map(lista, FilaMesa)[i] == FilaMesa(f);
    }
    SumConservation(lista, FilaMesa, ms, col);
  }

  /** The six block sums over some rows of mesa m. */
  function BloqueDe(m: string, filas: seq<FilaDia>): TotalMesa
  {
    TotalMesa(m, SumOf(filas, T1), SumOf(filas, T2), SumOf(filas, T3),
      SumOf(filas, TP), SumOf(filas, TD), SumOf(filas, TDia))
  }

  /** The general totals plus those of some more rows. */
  function Mas(a: TotalesGenerales, b: TotalesGenerales): TotalesGenerales
  {
    TotalesGenerales(
      a.turno1Produccion + b.turno1Produccion, a.turno1Defectos + b.turno1Defectos,
      a.turno2Produccion + b.turno2Produccion, a.turno2Defectos + b.turno2Defectos,
      a.turno3Produccion + b.turno3Produccion, a.turno3Defectos + b.turno3Defectos)
  }

  /** The general totals over the blocks of the mesas `ms`. */
  function GeneralesDeMesas(lista: seq<FilaDia>, ms: seq<string>): TotalesGenerales
  {
    TotalesGenerales(
      SumOverKeys(lista, FilaMesa, ms, P1), SumOverKeys(lista, FilaMesa, ms, D1),
      SumOverKeys(lista, FilaMesa, ms, P2), SumOverKeys(lista, FilaMesa, ms, D2),
      SumOverKeys(lista, FilaMesa, ms, P3), SumOverKeys(lista, FilaMesa, ms, D3))
  }

  /** The six `+=` of a block's sums for one row. */
  function SumarFila(b: TotalMesa, x: FilaDia): TotalMesa
  {
    b.(turno1 := b.turno1 + x.turno1, turno2 := b.turno2 + x.turno2, turno3 := b.turno3 + x.turno3,
       produccion := b.produccion + x.totalProduccion, defectos := b.defectos + x.totalDefectos,
       totalDia := b.totalDia + x.totalDia)
  }

  /** The six `+=` of the general totals for one row. */
  function SumarGenerales(g: TotalesGenerales, x: FilaDia): TotalesGenerales
  {
    g.(turno1Produccion := g.turno1Produccion + x.turno1Produccion,
       turno1Defectos := g.turno1Defectos + x.turno1Defectos,
       turno2Produccion := g.turno2Produccion + x.turno2Produccion,
       turno2Defectos := g.turno2Defectos + x.turno2Defectos,
       turno3Produccion := g.turno3Produccion + x.turno3Produccion,
       turno3Defectos := g.turno3Defectos + x.turno3Defectos)
  }

  lemma BloqueSnoc(m: string, filas: seq<FilaDia>, j: nat)
    requires j < |filas|
    ensures BloqueDe(m, filas[..j + 1]) == SumarFila(BloqueDe(m, filas[..j]), filas[j])
  {
    assert filas[..j + 1][..j] == filas[..j];
  }

  lemma GeneralesSnoc(antes: TotalesGenerales, filas: seq<FilaDia>, j: nat)
    requires j < |filas|
    ensures Mas(antes, TotalesGeneralesDe(filas[..j + 1]))
         == SumarGenerales(Mas(antes, TotalesGeneralesDe(filas[..j])), filas[j])
  {
    assert filas[..j + 1][..j] == filas[..j];
  }

  lemma BloqueDeMesa(lista: seq<FilaDia>, m: string)
    ensures BloqueDe(m, FilasDeMesa(lista, m)) == TotalMesaDe(lista, m)
  {
    SumaDeBloque(lista, m, T1);
    SumaDeBloque(lista, m, T2);
    SumaDeBloque(lista, m, T3);
    SumaDeBloque(lista, m, TP);
    SumaDeBloque(lista, m, TD);
    SumaDeBloque(lista, m, TDia);
  }

  lemma GeneralesSnocMesa(lista: seq<FilaDia>, ms: seq<string>, i: nat)
    requires i < |ms|
    ensures GeneralesDeMesas(lista, ms[..i + 1])
         == Mas(GeneralesDeMesas(lista, ms[..i]), TotalesGeneralesDe(FilasDeMesa(lista, ms[i])))
  {
    SumOverKeysSnoc(lista, ms, i, P1);
    SumOverKeysSnoc(lista, ms, i, D1);
    SumOverKeysSnoc(lista, ms, i, P2);
    SumOverKeysSnoc(lista, ms, i, D2);
    SumOverKeysSnoc(lista, ms, i, P3);
    SumOverKeysSnoc(lista, ms, i, D3);
  }

  lemma GeneralesDeTodas(lista: seq<FilaDia>)
    ensures GeneralesDeMesas(lista, MesasDeLista(lista)) == TotalesGeneralesDe(lista)
  {
    SumaDeBloques(lista, P1);
    SumaDeBloques(lista, D1);
    SumaDeBloques(lista, P2);
    SumaDeBloques(lista, D2);
    SumaDeBloques(lista, P3);
    SumaDeBloques(lista, D3);
  }

  /** The TOTAL MESA lines of the blocks of the mesas `ms`, in order. */
  function TotalesDeMesas(lista: seq<FilaDia>, ms: seq<string>): (r: seq<TotalMesa>)
    ensures |r| == |ms|
    ensures forall i :: 0 <= i < |ms| ==> r[i] == TotalMesaDe(lista, ms[i])
  {
    if |ms| == 0 then []
    else TotalesDeMesas(lista, ms[..|ms| - 1]) + [TotalMesaDe(lista, ms[|ms| - 1])]
  }

  /** What one more block adds to the lines and to the general totals. */
  lemma SiguienteMesa(lista: seq<FilaDia>, ms: seq<string>, i: nat)
    requires i < |ms|
    ensures BloqueDe(ms[i], FilasDeMesa(lista, ms[i])) == TotalMesaDe(lista, ms[i])
    ensures TotalesDeMesas(lista, ms[..i + 1]) == TotalesDeMesas(lista, ms[..i]) + [TotalMesaDe(lista, ms[i])]
    ensures GeneralesDeMesas(lista, ms[..i + 1])
         == Mas(GeneralesDeMesas(lista, ms[..i]), TotalesGeneralesDe(FilasDeMesa(lista, ms[i])))
  {
    BloqueDeMesa(lista, ms[i]);
    GeneralesSnocMesa(lista, ms, i);
    assert ms[..i + 1][..i] == ms[..i];
  }

  /**
   * The inner loop of the sheet: for each of a block's rows, add it to the
   * block's six sums and its per-shift columns to the general totals.
   */
  method SumarBloque(m: string, items: seq<FilaDia>, antes: TotalesGenerales)
    returns (suma: TotalMesa, generales: TotalesGenerales)
    ensures suma == BloqueDe(m, items)
    ensures generales == Mas(antes, TotalesGeneralesDe(items))
  {
    suma := TotalMesa(m, 0, 0, 0, 0, 0, 0);
    generales := antes;
    for j := 0 to |items|
      invariant suma == BloqueDe(m, items[..j])
      invariant generales == Mas(antes, TotalesGeneralesDe(items[..j]))
    {
      var item := items[j];
      BloqueSnoc(m, items, j);
      GeneralesSnoc(antes, items, j);
      suma := SumarFila(suma, item);
      generales := SumarGenerales(generales, item);
    }
    assert items[..|items|] == items;
  }

  /**
   * The sheet's outer loop: one TOTAL MESA line per block, in label-number
   * order, and the general totals accumulated across all blocks.
   */
  method ExportTotales(lista: seq<FilaDia>) returns (bloques: seq<TotalMesa>, generales: TotalesGenerales)
    ensures bloques == TotalesDeMesas(lista, MesasDeLista(lista))
    ensures generales == TotalesGeneralesDe(lista)
  {
    var mesas := MesasDeLista(lista);
    bloques := [];
    generales := TotalesGenerales(0, 0, 0, 0, 0, 0);
    for i := 0 to |mesas|
      invariant bloques == TotalesDeMesas(lista, mesas[..i])
      invariant generales == GeneralesDeMesas(lista, mesas[..i])
    {
      var m := mesas[i];
      var suma;
      suma, generales := SumarBloque(m, FilasDeMesa(lista, m), generales);
      SiguienteMesa(lista, mesas, i);
      bloques := bloques + [suma];
    }
    assert mesas[..|mesas|] == mesas;
    GeneralesDeTodas(lista);
  }

  /**
   * The general block of the sheet: each shift's good pieces are all the
   * good pieces scanned in that shift on the day, and its defects all the
   * defects logged in that shift.
   */
  lemma ExportGeneralesSpec(prods: seq<Pieza>, defs: seq<Defecto>)
    ensures TotalesGeneralesDe(Pivot(prods, defs)) == TotalesGenerales(
      SumOf(Filter(prods, p => DelTurno("1", p)), PzPiezas), CountIf(defs, d => DefectoDelTurno("1", d)),
      SumOf(Filter(prods, p => DelTurno("2", p)), PzPiezas), CountIf(defs, d => DefectoDelTurno("2", d)),
      SumOf(Filter(prods, p => DelTurno("3", p)), PzPiezas), CountIf(defs, d => DefectoDelTurno("3", d)))
  {
    PivotProduccionTurno(prods, defs, "1", P1);
    PivotDefectosTurno(prods, defs, "1", D1);
    PivotProduccionTurno(prods, defs, "2", P2);
    PivotDefectosTurno(prods, defs, "2", D2);
    PivotProduccionTurno(prods, defs, "3", P3);
    PivotDefectosTurno(prods, defs, "3", D3);
  }

  function SumaGenerales(g: TotalesGenerales): int
  {
    g.turno1Produccion + g.turno1Defectos + g.turno2Produccion + g.turno2Defectos
      + g.turno3Produccion + g.turno3Defectos
  }

  /** Over rows whose columns agree, the day totals add up to the six column sums. */
  lemma {:induction false} SumaDiaCuadra(filas: seq<FilaDia>)
    requires forall f :: f in filas ==> FilaCuadra(f)
    ensures SumOf(filas, TDia) == SumaGenerales(TotalesGeneralesDe(filas))
  {
    if |filas| > 0 {
      var x := filas[|filas| - 1];
      assert x in filas;
      assert forall f :: f in filas[..|filas| - 1] ==> f in filas;
      SumaDiaCuadra(filas[..|filas| - 1]);
    }
  }

  /**
   * The sheet's day total adds up to the general block: every "Total Día"
   * counts exactly the pieces and defects of shifts "1", "2" and "3".
   */
  lemma ExportTotalDia(prods: seq<Pieza>, defs: seq<Defecto>)
    ensures SumOf(Pivot(prods, defs), TDia) == SumaGenerales(TotalesGeneralesDe(Pivot(prods, defs)))
  {
    PivotFilasCuadran(prods, defs);
    SumaDiaCuadra(Pivot(prods, defs));
  }

  /** The column identities every pivot row satisfies. */
  predicate FilaCuadra(f: FilaDia)
  {
    && f.turno1 == f.turno1Produccion + f.turno1Defectos
    && f.turno2 == f.turno2Produccion + f.turno2Defectos
    && f.turno3 == f.turno3Produccion + f.turno3Defectos
    && f.totalProduccion == f.turno1Produccion + f.turno2Produccion + f.turno3Produccion
    && f.totalDefectos == f.turno1Defectos + f.turno2Defectos + f.turno3Defectos
    && f.totalDia == f.turno1 + f.turno2 + f.turno3
    && f.totalDia == f.totalProduccion + f.totalDefectos
  }

  lemma PivotFilasCuadran(prods: seq<Pieza>, defs: seq<Defecto>)
    ensures forall f :: f in Pivot(prods, defs) ==> FilaCuadra(f)
  {
    var b, r := PivotBase(prods, defs), Pivot(prods, defs);
    forall f | f in r ensures FilaCuadra(f) {
      assert f in multiset(r);
      assert f in b;
      var x := FilaDiaDe(prods, defs, ParFila(f));
    }
  }

  function LineaDia(t: TotalMesa): int { t.totalDia }

  /** The TOTAL MESA lines of all blocks add up to the sheet's day total. */
  lemma BloquesSuman(lista: seq<FilaDia>)
    ensures SumOf(TotalesDeMesas(lista, MesasDeLista(lista)), LineaDia) == SumOf(lista, TDia)
  {
    var ms := MesasDeLista(lista);
    var t := TotalesDeMesas(lista, ms);
    var g := (m: string) => SumKey(lista, FilaMesa, m, TDia);
    forall i | 0 <= i < |t| ensures LineaDia(t[i]) == g(ms[i]) {
      assert t[i] == TotalMesaDe(lista, ms[i]);
    }
    SumOfAligned(t, ms, LineaDia, g);
    SumOfBySumKeys(lista, FilaMesa, ms, g, TDia);
    SumaDeBloques(lista, TDia);
  }

  /**
   * A TOTAL MESA line of the pivot is consistent: its day total is the sum of
   * its three shift totals and of its production and defect totals.
   */
  lemma TotalMesaCuadra(prods: seq<Pieza>, defs: seq<Defecto>, m: string)
    ensures var t := TotalMesaDe(Pivot(prods, defs), m);
      t.totalDia == t.turno1 + t.turno2 + t.turno3 && t.totalDia == t.produccion + t.defectos
  {
    var r := Pivot(prods, defs);
    var items := FilasDeMesa(r, m);
    PivotFilasCuadran(prods, defs);
    assert forall f :: f in items ==> f in r by {
      var sel := Filter(r, f => FilaMesa(f) == m);
      forall f | f in items ensures f in r {
        assert f in multiset(items);
        assert f in multiset(sel);
      }
    }
    SumaDeBloque(r, m, T1);
    SumaDeBloque(r, m, T2);
    SumaDeBloque(r, m, T3);
    SumaDeBloque(r, m, TP);
    SumaDeBloque(r, m, TD);
    SumaDeBloque(r, m, TDia);
    var t12 := (f: FilaDia) => f.turno1 + f.turno2;
    SumOfPlus(items, T1, T2, t12);
    SumOfPlus(items, t12, T3, TDia);
    SumOfPlus(items, TP, TD, TDia);
  }

  /**
   * With no date, the export reads today's CALENDAR date, while the other
   * reports read the helper's labor day of now: they disagree exactly from
   * midnight to 06:59:58.
   */
  lemma ExportDefaultDay(hoy: Date, ahora: TimeOfDay)
    ensures DiaExportado(None, hoy) != GoalTracker.DiaDeLaVista(None, hoy, ahora) <==> ahora < 25199 // 06:59:59
  {
    HelperLaborDay(hoy, ahora);
  }

  // ---------------------------------------------------------------------
  // ReporteProduccion: (mesa, turno) groups
  // ---------------------------------------------------------------------

  /** The trimmed (NuMesa, Turno) key. */
  type MesaTurno = (string, string)

  function ClaveMT(p: Pieza): MesaTurno { (Trim(p.nuMesa), Trim(p.turno)) }
  function DefClaveMT(d: Defecto): MesaTurno { (Trim(d.nuMesa), Trim(d.turno)) }

  /** StringComparison.OrdinalIgnoreCase (and ToLower() on both sides), with ASCII case folding. */
  predicate IgualIC(a: string, b: string) { EqualsIgnoreCase(a, b) }

  predicate MismaClaveIC(a: MesaTurno, b: MesaTurno) { IgualIC(a.0, b.0) && IgualIC(a.1, b.1) }

  /** The shift filter applies unless the selection is blank or "Todos" in any case. */
  predicate FiltraTurno(sel: string) { !IsBlank(sel) && !IgualIC(sel, "Todos") }

  /** `turnoSeleccionado`: the argument, or the current shift (07:00 rule) when it is null. */
  function TurnoDelReporte(turno: Option<string>, ahora: TimeOfDay): (r: string)
    ensures turno.Some? ==> r == turno.value
    ensures turno.None? ==> r == SelectorDesde0700(ahora)
  {
    if turno.Some? then turno.value else SelectorDesde0700(ahora)
  }

  /** A scan passes the report's filters. */
  predicate PiezaDelReporte(p: Pieza, dia: Date, sel: string, mesa: string)
  {
    && GetFechaProduccion(p.fecha, p.hora) == dia
    && (FiltraTurno(sel) ==> IgualIC(Trim(p.turno), sel))
    && (IsBlank(mesa) || IgualIC(Trim(p.nuMesa), Trim(mesa)))
  }

  /** A defect passes the report's filters; it also needs a defect name and a mandrel. */
  predicate DefectoDelReporte(d: Defecto, dia: Date, sel: string, mesa: string)
  {
    && GetFechaProduccion(d.fecha, d.hora) == dia
    && (FiltraTurno(sel) ==> IgualIC(Trim(d.turno), sel))
    && (IsBlank(mesa) || IgualIC(Trim(d.nuMesa), Trim(mesa)))
    && d.defecto != "" && d.mandrel != ""
  }

  /** `registros`: window fetch, labor-day filter, then the optional shift and mesa filters. */
  function RegistrosDelReporte(tabla: seq<Pieza>, dia: Date, sel: string, mesa: string): (r: seq<Pieza>)
    ensures forall p :: p in r <==> p in tabla && PiezaDelReporte(p, dia, sel, mesa)
  {
    var w := KeepHelperDays(FetchDates(tabla, PzFecha, dia - 1, dia + 1), PzFecha, PzHora, dia, dia);
    var t := if FiltraTurno(sel) then Filter(w, (p: Pieza) => IgualIC(Trim(p.turno), sel)) else w;
    var r := if IsBlank(mesa) then t else Filter(t, (p: Pieza) => IgualIC(Trim(p.nuMesa), Trim(mesa)));
    assert forall p :: p in r <==> p in tabla && PiezaDelReporte(p, dia, sel, mesa) by {
      forall p ensures p in r <==> p in tabla && PiezaDelReporte(p, dia, sel, mesa) {
        HelperDaysMembers(tabla, PzFecha, PzHora, dia, dia, p);
        assert p in t <==> p in w && (FiltraTurno(sel) ==> IgualIC(Trim(p.turno), sel));
        assert p in r <==> p in t && (IsBlank(mesa) || IgualIC(Trim(p.nuMesa), Trim(mesa)));
      }
    }
    r
  }

  /** `defectos`: the same filters, then only defects with a name and a mandrel. */
  function DefectosDelReporte(tabla: seq<Defecto>, dia: Date, sel: string, mesa: string): (r: seq<Defecto>)
    ensures forall d :: d in r <==> d in tabla && DefectoDelReporte(d, dia, sel, mesa)
  {
    var w := KeepHelperDays(FetchDates(tabla, DefFecha, dia - 1, dia + 1), DefFecha, DefHora, dia, dia);
    var t := if FiltraTurno(sel) then Filter(w, (d: Defecto) => IgualIC(Trim(d.turno), sel)) else w;
    var m := Filter(t, (d: Defecto) => IsBlank(mesa) || IgualIC(Trim(d.nuMesa), Trim(mesa)));
    var r := Filter(m, (d: Defecto) => d.defecto != "" && d.mandrel != "");
    assert forall d :: d in r <==> d in tabla && DefectoDelReporte(d, dia, sel, mesa) by {
      forall d ensures d in r <==> d in tabla && DefectoDelReporte(d, dia, sel, mesa) {
        HelperDaysMembers(tabla, DefFecha, DefHora, dia, dia, d);
        assert d in t <==> d in w && (FiltraTurno(sel) ==> IgualIC(Trim(d.turno), sel));
        assert d in m <==> d in t && (IsBlank(mesa) || IgualIC(Trim(d.nuMesa), Trim(mesa)));
        assert d in r <==> d in m && d.defecto != "" && d.mandrel != "";
      }
    }
    r
  }

  /** A group of the report (ProduccionPorMesaViewModel, the columns modelled). */
  datatype GrupoMesa = GrupoMesa(
    nuMesa: string, turno: string, totalPiezas: int,
    mandriles: seq<(string, int)>, totalDefectos: int)

  function ClaveGrupo(g: GrupoMesa): MesaTurno { (g.nuMesa, g.turno) }
  function PiezasDeGrupo(g: GrupoMesa): int { g.totalPiezas }
  function DefectosDeGrupo(g: GrupoMesa): int { g.totalDefectos }

  /** Scans that carry a quantity and a mandrel. */
  predicate Valida(p: Pieza) { p.ndpiezas != "" && p.mandrel != "" }

  function MandrilTrim(p: Pieza): string { Trim(p.mandrel) }

  /** A defect belongs to a group when mesa and turno match ignoring case. */
  predicate DefectoDeGrupo(d: Defecto, k: MesaTurno) { MismaClaveIC(DefClaveMT(d), k) }

  /** The group of key k among the valid scans. */
  function GrupoDe(validos: seq<Pieza>, defs: seq<Defecto>, k: MesaTurno): (g: GrupoMesa)
    ensures ClaveGrupo(g) == k
    ensures g.totalPiezas == SumKey(validos, ClaveMT, k, PzPiezas)
    ensures SumOf(g.mandriles, GroupValue) == g.totalPiezas
    ensures g.totalDefectos == CountIf(defs, d => DefectoDeGrupo(d, k))
  {
    var keep := (p: Pieza) => ClaveMT(p) == k;
    var filas := Filter(validos, keep);
    SumKeyIsFilterSum(validos, ClaveMT, k, PzPiezas, keep);
    GroupSumsTotal(filas, MandrilTrim, PzPiezas);
    GrupoMesa(k.0, k.1, SumOf(filas, PzPiezas), GroupSums(filas, MandrilTrim, PzPiezas),
      CountIf(defs, d => DefectoDeGrupo(d, k)))
  }

  /** `datosProduccion` before the loop: one group per (mesa, turno) of the valid scans. */
  function GruposProduccion(validos: seq<Pieza>, defs: seq<Defecto>): (r: seq<GrupoMesa>)
    ensures Map(r, ClaveGrupo) == KeysOf(validos, ClaveMT)
    ensures forall g :: g in r ==> g == GrupoDe(validos, defs, ClaveGrupo(g))
  {
    Map(KeysOf(validos, ClaveMT), k => GrupoDe(validos, defs, k))
  }

  // ---------------------------------------------------------------------
  // ReporteProduccion: appending the (mesa, turno) pairs with only defects
  // ---------------------------------------------------------------------

  /** `datosProduccion.Any(...)`: some group has key mt, ignoring case. */
  predicate YaExiste(datos: seq<GrupoMesa>, mt: MesaTurno)
  {
    AnyMatches(datos, mt, ClaveGrupo, MismaClaveIC)
  }

  /** The group added for a pair with no scans: no pieces, its defects counted by exact key. */
  function SoloDefectos(defs: seq<Defecto>, mt: MesaTurno): (g: GrupoMesa)
    ensures ClaveGrupo(g) == mt
  {
    GrupoMesa(mt.0, mt.1, 0, [], CountKey(defs, DefClaveMT, mt))
  }

  /** SoloDefectos as a function value, so that every use names the same function. */
  function SoloDefectosDe(defs: seq<Defecto>): MesaTurno -> GrupoMesa
  {
    mt => SoloDefectos(defs, mt)
  }

  /** `d.NuMesa.Trim() == mt.Mesa && d.Turno.Trim() == mt.Turno`, case-sensitive. */
  function DelParExacto(mt: MesaTurno): Defecto -> bool
  {
    d => DefClaveMT(d) == mt
  }

  predicate EsSoloDefectos(g: GrupoMesa, defs: seq<Defecto>)
  {
    g == SoloDefectos(defs, ClaveGrupo(g))
  }

  /**
   * The groups after the loop has visited the pairs `ks`: the groups it
   * started with, then one group for each visited pair that no group
   * matched ignoring case when it was visited.
   */
  function Agregados(datos: seq<GrupoMesa>, defs: seq<Defecto>, ks: seq<MesaTurno>): (r: seq<GrupoMesa>)
    ensures datos <= r
  {
    AppendMissing(datos, ks, ClaveGrupo, MismaClaveIC, SoloDefectosDe(defs))
  }

  /** One more visited pair: the loop body's step. */
  lemma AgregadosPaso(datos: seq<GrupoMesa>, defs: seq<Defecto>, ks: seq<MesaTurno>, mt: MesaTurno)
    ensures var r := Agregados(datos, defs, ks);
      Agregados(datos, defs, ks + [mt]) == if YaExiste(r, mt) then r else r + [SoloDefectos(defs, mt)]
  {
    assert (ks + [mt])[..|ks|] == ks;
    assert Agregados(datos, defs, ks) == AppendMissing(datos, ks, ClaveGrupo, MismaClaveIC, SoloDefectosDe(defs));
    assert Agregados(datos, defs, ks + [mt]) == AppendMissing(datos, ks + [mt], ClaveGrupo, MismaClaveIC, SoloDefectosDe(defs));
  }

  /** Every appended group is a defect-only group of a visited pair. */
  lemma AgregadosNuevos(datos: seq<GrupoMesa>, defs: seq<Defecto>, ks: seq<MesaTurno>)
    ensures var r := Agregados(datos, defs, ks);
      forall j :: |datos| <= j < |r| ==> EsSoloDefectos(r[j], defs) && ClaveGrupo(r[j]) in ks
  {
    AppendMissingAdded(datos, ks, ClaveGrupo, MismaClaveIC, SoloDefectosDe(defs));
    assert Agregados(datos, defs, ks) == AppendMissing(datos, ks, ClaveGrupo, MismaClaveIC, SoloDefectosDe(defs));
  }

  /** After the loop, every visited pair matches some group ignoring case. */
  lemma AgregadosCubren(datos: seq<GrupoMesa>, defs: seq<Defecto>, ks: seq<MesaTurno>)
    ensures forall mt :: mt in ks ==> YaExiste(Agregados(datos, defs, ks), mt)
  {
    AppendMissingCovers(datos, ks, ClaveGrupo, MismaClaveIC, SoloDefectosDe(defs));
    assert Agregados(datos, defs, ks) == AppendMissing(datos, ks, ClaveGrupo, MismaClaveIC, SoloDefectosDe(defs));
  }

  /** An appended group's key differs, ignoring case, from every group before it. */
  lemma AgregadosDistintos(datos: seq<GrupoMesa>, defs: seq<Defecto>, ks: seq<MesaTurno>)
    ensures var r := Agregados(datos, defs, ks);
      forall i, j :: 0 <= i < j < |r| && |datos| <= j ==> !MismaClaveIC(ClaveGrupo(r[i]), ClaveGrupo(r[j]))
  {
    AppendMissingDistinct(datos, ks, ClaveGrupo, MismaClaveIC, SoloDefectosDe(defs));
    assert Agregados(datos, defs, ks) == AppendMissing(datos, ks, ClaveGrupo, MismaClaveIC, SoloDefectosDe(defs));
  }

  /** One turn of the loop, written as the loop body computes it. */
  lemma VueltaDelBucle(datos: seq<GrupoMesa>, defs: seq<Defecto>, ks: seq<MesaTurno>, i: nat)
    requires i < |ks|
    ensures var r, mt := Agregados(datos, defs, ks[..i]), ks[i];
      Agregados(datos, defs, ks[..i + 1])
        == if YaExiste(r, mt) then r else r + [GrupoMesa(mt.0, mt.1, 0, [], |Filter(defs, DelParExacto(mt))|)]
  {
    var mt := ks[i];
    assert ks[..i + 1] == ks[..i] + [mt];
    AgregadosPaso(datos, defs, ks[..i], mt);
    SoloDefectosExacto(defs, mt);
  }

  /** The group the loop body builds is the defect-only group of its pair. */
  lemma SoloDefectosExacto(defs: seq<Defecto>, mt: MesaTurno)
    ensures GrupoMesa(mt.0, mt.1, 0, [], |Filter(defs, DelParExacto(mt))|) == SoloDefectos(defs, mt)
  {
    CountKeyIsCountIf(defs, DefClaveMT, mt, DelParExacto(mt));
  }

  /**
   * The loop over `mesasTurnosDefectos` (the distinct trimmed (mesa, turno)
   * pairs of the defects): a pair no group matches ignoring case gets a
   * group with no pieces and the defects whose trimmed key is exactly it.
   */
  method AgregarSoloDefectos(datos: seq<GrupoMesa>, defs: seq<Defecto>) returns (r: seq<GrupoMesa>)
    ensures r == Agregados(datos, defs, KeysOf(defs, DefClaveMT))
  {
    var mesasTurnos := KeysOf(defs, DefClaveMT);
    r := datos;
    for i := 0 to |mesasTurnos|
      invariant r == Agregados(datos, defs, mesasTurnos[..i])
    {
      var mt := mesasTurnos[i];
      VueltaDelBucle(datos, defs, mesasTurnos, i);
      var yaExiste := YaExiste(r, mt);
      if !yaExiste {
        var defectosMesa := Filter(defs, DelParExacto(mt));
        r := r + [GrupoMesa(mt.0, mt.1, 0, [], |defectosMesa|)];
      }
    }
    assert mesasTurnos[..|mesasTurnos|] == mesasTurnos;
  }

  /** `datos` before sorting: production groups, then the defect-only groups. */
  function DatosDelReporte(registros: seq<Pieza>, defs: seq<Defecto>): seq<GrupoMesa>
  {
    Agregados(GruposProduccion(Filter(registros, Valida), defs), defs, KeysOf(defs, DefClaveMT))
  }

  /** `int.TryParse(d.Turno, out var t) ? t : int.MaxValue`. */
  function TurnoOrden(turno: string): (r: int)
    ensures Int32Min <= r <= Int32Max
  {
    match ParseInteger(turno, Int32Min, Int32Max)
    case Some(n) => n
    case None => Int32Max
  }

  /** OrderBy(number in the mesa label).ThenBy(number of the shift). */
  predicate GrupoAntes(a: GrupoMesa, b: GrupoMesa)
  {
    var ma, mb := GoalTracker.MesaOrden(a.nuMesa), GoalTracker.MesaOrden(b.nuMesa);
    ma < mb || (ma == mb && TurnoOrden(a.turno) < TurnoOrden(b.turno))
  }

  /** The report built from the selected scans and defects: the groups in ReporteProduccion's order. */
  function ReporteOrdenado(registros: seq<Pieza>, defs: seq<Defecto>): seq<GrupoMesa>
  {
    SortBy(DatosDelReporte(registros, defs), GrupoAntes)
  }

  /** The report for a labor day (or today's), a shift (or the current one) and an optional mesa. */
  function ReporteDe(tablaPiezas: seq<Pieza>, tablaDefectos: seq<Defecto>, fecha: Option<Date>,
                     turno: Option<string>, mesa: string, hoy: Date, ahora: TimeOfDay): seq<GrupoMesa>
  {
    var dia := GoalTracker.DiaDeLaVista(fecha, hoy, ahora);
    var sel := TurnoDelReporte(turno, ahora);
    var registros := RegistrosDelReporte(tablaPiezas, dia, sel, mesa);
    var defs := DefectosDelReporte(tablaDefectos, dia, sel, mesa);
    ReporteOrdenado(registros, defs)
  }

  /** ReporteProduccion: the groups, the loop that appends defect-only pairs, then the ordering. */
  method ReporteProduccion(tablaPiezas: seq<Pieza>, tablaDefectos: seq<Defecto>, fecha: Option<Date>,
                           turno: Option<string>, mesa: string, hoy: Date, ahora: TimeOfDay)
    returns (datos: seq<GrupoMesa>)
    ensures datos == ReporteDe(tablaPiezas, tablaDefectos, fecha, turno, mesa, hoy, ahora)
  {
    var dia := GoalTracker.DiaDeLaVista(fecha, hoy, ahora);
    var sel := TurnoDelReporte(turno, ahora);
    var registros := RegistrosDelReporte(tablaPiezas, dia, sel, mesa);
    var defs := DefectosDelReporte(tablaDefectos, dia, sel, mesa);
    var datosProduccion := GruposProduccion(Filter(registros, Valida), defs);
    datosProduccion := AgregarSoloDefectos(datosProduccion, defs);
    datos := SortBy(datosProduccion, GrupoAntes);
  }

  // ---------------------------------------------------------------------
  // What the report promises
  // ---------------------------------------------------------------------

  /** Every piece of a valid scan is in exactly one group: the report's pieces add up to the valid scans' pieces. */
  lemma {:induction false} PiezasDeGruposProduccion(validos: seq<Pieza>, defs: seq<Defecto>)
    ensures SumOf(GruposProduccion(validos, defs), PiezasDeGrupo) == SumOf(validos, PzPiezas)
  {
    var ks := KeysOf(validos, ClaveMT);
    var g := GruposProduccion(validos, defs);
    var suma := (k: MesaTurno) => SumKey(validos, ClaveMT, k, PzPiezas);
    assert |Map(g, ClaveGrupo)| == |g|;
    forall i | 0 <= i < |g| ensures PiezasDeGrupo(g[i]) == suma(ks[i]) {
      assert Map(g, ClaveGrupo)[i] == ClaveGrupo(g[i]);
      assert g[i] in g;
    }
    SumOfAligned(g, ks, PiezasDeGrupo, suma);
    SumOfBySumKeys(validos, ClaveMT, ks, suma, PzPiezas);
    SumConservation(validos, ClaveMT, ks, PzPiezas);
  }

  /** Groups built only from defects carry no pieces. */
  lemma SoloDefectosSinPiezas(e: seq<GrupoMesa>, defs: seq<Defecto>)
    requires forall j :: 0 <= j < |e| ==> EsSoloDefectos(e[j], defs)
    ensures SumOf(e, PiezasDeGrupo) == 0
  {
    forall x | x in e ensures PiezasDeGrupo(x) == 0 {
      var j :| 0 <= j < |e| && e[j] == x;
      assert EsSoloDefectos(e[j], defs);
    }
    SumOfZero(e, PiezasDeGrupo);
  }

  /** The defect-only groups add no pieces. */
  lemma PiezasDeAgregados(g: seq<GrupoMesa>, defs: seq<Defecto>, ks: seq<MesaTurno>)
    ensures SumOf(Agregados(g, defs, ks), PiezasDeGrupo) == SumOf(g, PiezasDeGrupo)
  {
    var d := Agregados(g, defs, ks);
    AgregadosNuevos(g, defs, ks);
    var extra := d[|g|..];
    forall j | 0 <= j < |extra| ensures EsSoloDefectos(extra[j], defs) {
      assert extra[j] == d[|g| + j];
    }
    SoloDefectosSinPiezas(extra, defs);
    assert d == g + extra;
    SumOfAppend(g, extra, PiezasDeGrupo);
  }

  lemma PiezasDelReporte(registros: seq<Pieza>, defs: seq<Defecto>)
    ensures SumOf(DatosDelReporte(registros, defs), PiezasDeGrupo) == SumOf(Filter(registros, Valida), PzPiezas)
  {
    var validos := Filter(registros, Valida);
    PiezasDeAgregados(GruposProduccion(validos, defs), defs, KeysOf(defs, DefClaveMT));
    PiezasDeGruposProduccion(validos, defs);
  }

  /** The report's pieces: the sum of TotalPiezas is the pieces of the valid scans. */
  lemma ReportePiezasTotal(registros: seq<Pieza>, defs: seq<Defecto>)
    ensures SumOf(ReporteOrdenado(registros, defs), PiezasDeGrupo) == SumOf(Filter(registros, Valida), PzPiezas)
  {
    var d := DatosDelReporte(registros, defs);
    PiezasDelReporte(registros, defs);
    SumOfPermutation(SortBy(d, GrupoAntes), d, PiezasDeGrupo);
  }

  /** Appending only pairs that match no earlier group keeps the group keys distinct. */
  lemma ClavesDeAgregados(g: seq<GrupoMesa>, defs: seq<Defecto>, ks: seq<MesaTurno>)
    requires NoDuplicates(Map(g, ClaveGrupo))
    ensures NoDuplicates(Map(Agregados(g, defs, ks), ClaveGrupo))
  {
    var d := Agregados(g, defs, ks);
    var kd, kg := Map(d, ClaveGrupo), Map(g, ClaveGrupo);
    AgregadosDistintos(g, defs, ks);
    forall i, j | 0 <= i < j < |kd| ensures kd[i] != kd[j] {
      if j < |g| {
        assert d[i] == g[i] && d[j] == g[j];
        assert kg[i] != kg[j];
      } else {
        assert !MismaClaveIC(ClaveGrupo(d[i]), ClaveGrupo(d[j]));
      }
    }
  }

  /** No two groups of the report share a (mesa, turno) key. */
  lemma ReporteClavesUnicas(registros: seq<Pieza>, defs: seq<Defecto>)
    ensures NoDuplicates(Map(ReporteOrdenado(registros, defs), ClaveGrupo))
  {
    var validos := Filter(registros, Valida);
    var g := GruposProduccion(validos, defs);
    ClavesDeAgregados(g, defs, KeysOf(defs, DefClaveMT));
    var d := DatosDelReporte(registros, defs);
    DistinctKeysReordered(d, SortBy(d, GrupoAntes), ClaveGrupo);
  }

  /** Every defect's (mesa, turno) pair has a group, matched ignoring case. */
  lemma ReporteCubreDefectos(registros: seq<Pieza>, defs: seq<Defecto>)
    ensures forall x :: x in defs ==> YaExiste(ReporteOrdenado(registros, defs), DefClaveMT(x))
  {
    var validos := Filter(registros, Valida);
    var g := GruposProduccion(validos, defs);
    var ks := KeysOf(defs, DefClaveMT);
    AgregadosCubren(g, defs, ks);
    var d := DatosDelReporte(registros, defs);
    forall x | x in defs ensures YaExiste(SortBy(d, GrupoAntes), DefClaveMT(x)) {
      assert DefClaveMT(x) in ks;
      AnyMatchesReordered(d, SortBy(d, GrupoAntes), DefClaveMT(x), ClaveGrupo, MismaClaveIC);
    }
  }

  /** A group added for defects alone has no pieces and at least one defect. */
  lemma SoloDefectosNoVacios(g: seq<GrupoMesa>, defs: seq<Defecto>)
    ensures var r := Agregados(g, defs, KeysOf(defs, DefClaveMT));
      forall j :: |g| <= j < |r| ==> r[j].totalPiezas == 0 && r[j].totalDefectos >= 1
  {
    var ks := KeysOf(defs, DefClaveMT);
    var r := Agregados(g, defs, ks);
    AgregadosNuevos(g, defs, ks);
    forall j | |g| <= j < |r| ensures r[j].totalPiezas == 0 && r[j].totalDefectos >= 1 {
      assert EsSoloDefectos(r[j], defs) && ClaveGrupo(r[j]) in ks;
      var x :| x in defs && DefClaveMT(x) == ClaveGrupo(r[j]);
    }
  }

  /** The report order: mesa number first, then shift number. */
  lemma GrupoAntesStrict(s: seq<GrupoMesa>)
    ensures StrictOrderOn(s, GrupoAntes)
  {
  }

  lemma ReporteEnOrden(registros: seq<Pieza>, defs: seq<Defecto>)
    ensures SortedBy(ReporteOrdenado(registros, defs), GrupoAntes)
  {
    var d := DatosDelReporte(registros, defs);
    GrupoAntesStrict(d);
    SortSorted(d, GrupoAntes);
  }

  /**
   * No (mesa, turno) label is spelled in two cases: labels that are equal
   * ignoring case are equal. Under this the case-insensitive counts of the
   * groups and the exact counts of the added groups agree.
   */
  predicate SinVariantesDeMayusculas(validos: seq<Pieza>, defs: seq<Defecto>)
  {
    (forall p, x :: p in validos && x in defs && MismaClaveIC(DefClaveMT(x), ClaveMT(p)) ==> DefClaveMT(x) == ClaveMT(p))
    && (forall x, y :: x in defs && y in defs && MismaClaveIC(DefClaveMT(x), DefClaveMT(y)) ==> DefClaveMT(x) == DefClaveMT(y))
  }

  /** Every group's TotalDefectos is the number of defects carrying exactly its key. */
  predicate DefectosExactos(gs: seq<GrupoMesa>, defs: seq<Defecto>)
  {
    forall x :: x in gs ==> DefectosDeGrupo(x) == CountKey(defs, DefClaveMT, ClaveGrupo(x))
  }

  lemma {:induction false} SimetriaIC(a: string, b: string)
    ensures IgualIC(a, b) == IgualIC(b, a)
  {
  }

  /** A production group's case-insensitive defect count is its exact count when labels are case-consistent. */
  lemma GrupoDefectosExacto(validos: seq<Pieza>, defs: seq<Defecto>, p: Pieza)
    requires SinVariantesDeMayusculas(validos, defs)
    requires p in validos
    ensures GrupoDe(validos, defs, ClaveMT(p)).totalDefectos == CountKey(defs, DefClaveMT, ClaveMT(p))
  {
    var k := ClaveMT(p);
    var exacto := DelParExacto(k);
    forall x | x in defs ensures DefectoDeGrupo(x, k) == exacto(x) {
      if DefectoDeGrupo(x, k) {
        assert DefClaveMT(x) == k;
      }
    }
    CountIfCongruent(defs, d => DefectoDeGrupo(d, k), exacto);
    CountKeyIsCountIf(defs, DefClaveMT, k, exacto);
  }

  lemma GruposDefectosExactos(validos: seq<Pieza>, defs: seq<Defecto>)
    requires SinVariantesDeMayusculas(validos, defs)
    ensures DefectosExactos(GruposProduccion(validos, defs), defs)
  {
    var g := GruposProduccion(validos, defs);
    forall x | x in g ensures DefectosDeGrupo(x) == CountKey(defs, DefClaveMT, ClaveGrupo(x)) {
      var k := ClaveGrupo(x);
      assert k in Map(g, ClaveGrupo);
      var p :| p in validos && ClaveMT(p) == k;
      GrupoDefectosExacto(validos, defs, p);
    }
  }

  lemma AgregadosDefectosExactos(g: seq<GrupoMesa>, defs: seq<Defecto>, ks: seq<MesaTurno>)
    requires DefectosExactos(g, defs)
    ensures DefectosExactos(Agregados(g, defs, ks), defs)
  {
    var d := Agregados(g, defs, ks);
    AgregadosNuevos(g, defs, ks);
    forall x | x in d ensures DefectosDeGrupo(x) == CountKey(defs, DefClaveMT, ClaveGrupo(x)) {
      var i :| 0 <= i < |d| && d[i] == x;
      if i < |g| {
        assert x == g[i];
      } else {
        assert EsSoloDefectos(x, defs);
      }
    }
  }

  /** Groups with distinct keys, exact counts and a group for every defect's key account for every defect once. */
  lemma SumaDefectosExactos(gs: seq<GrupoMesa>, defs: seq<Defecto>)
    requires DefectosExactos(gs, defs)
    requires NoDuplicates(Map(gs, ClaveGrupo))
    requires forall x :: x in defs ==> DefClaveMT(x) in Map(gs, ClaveGrupo)
    ensures SumOf(gs, DefectosDeGrupo) == |defs|
  {
    var kg := Map(gs, ClaveGrupo);
    var cuenta := (k: MesaTurno) => CountKey(defs, DefClaveMT, k);
    forall i | 0 <= i < |gs| ensures DefectosDeGrupo(gs[i]) == cuenta(kg[i]) {
      assert gs[i] in gs;
    }
    SumOfAligned(gs, kg, DefectosDeGrupo, cuenta);
    SumOfByKeys(defs, DefClaveMT, kg, cuenta);
    CountConservation(defs, DefClaveMT, kg);
  }

  /** A scan's or defect's key that matches a defect's ignoring case is that key, when labels are case-consistent. */
  lemma ClaveExacta(validos: seq<Pieza>, defs: seq<Defecto>, x: Defecto, kd: MesaTurno)
    requires SinVariantesDeMayusculas(validos, defs)
    requires x in defs
    requires (exists p :: p in validos && ClaveMT(p) == kd) || (exists y :: y in defs && DefClaveMT(y) == kd)
    requires MismaClaveIC(kd, DefClaveMT(x))
    ensures kd == DefClaveMT(x)
  {
    var k := DefClaveMT(x);
    SimetriaIC(kd.0, k.0);
    SimetriaIC(kd.1, k.1);
  }

  /** Groups whose keys are keys of the scans. */
  predicate ClavesDeRegistros(g: seq<GrupoMesa>, validos: seq<Pieza>)
  {
    forall y :: y in g ==> exists p :: p in validos && ClaveMT(p) == ClaveGrupo(y)
  }

  /** Under case-consistent labels, a defect's key is exactly the key of some group after the loop. */
  lemma DefectoConGrupo(validos: seq<Pieza>, defs: seq<Defecto>, g: seq<GrupoMesa>, x: Defecto)
    requires SinVariantesDeMayusculas(validos, defs)
    requires ClavesDeRegistros(g, validos)
    requires x in defs
    ensures DefClaveMT(x) in Map(Agregados(g, defs, KeysOf(defs, DefClaveMT)), ClaveGrupo)
  {
    var ks := KeysOf(defs, DefClaveMT);
    var d := Agregados(g, defs, ks);
    var k := DefClaveMT(x);
    assert YaExiste(d, k) by {
      assert k in ks;
      AgregadosCubren(g, defs, ks);
    }
    var i :| 0 <= i < |d| && MismaClaveIC(ClaveGrupo(d[i]), k);
    var kd := ClaveGrupo(d[i]);
    assert d[i] in g || kd in ks by {
      if i >= |g| {
        AgregadosNuevos(g, defs, ks);
      } else {
        assert d[i] == g[i];
      }
    }
    ClaveExacta(validos, defs, x, kd);
    assert Map(d, ClaveGrupo)[i] == k;
  }

  /** Under case-consistent labels, every defect's key is exactly the key of some group. */
  lemma DefectosConGrupo(registros: seq<Pieza>, defs: seq<Defecto>)
    requires SinVariantesDeMayusculas(Filter(registros, Valida), defs)
    ensures forall x :: x in defs ==> DefClaveMT(x) in Map(DatosDelReporte(registros, defs), ClaveGrupo)
  {
    var validos := Filter(registros, Valida);
    var g := GruposProduccion(validos, defs);
    forall y | y in g ensures exists p :: p in validos && ClaveMT(p) == ClaveGrupo(y) {
      assert ClaveGrupo(y) in Map(g, ClaveGrupo);
    }
    forall x | x in defs ensures DefClaveMT(x) in Map(DatosDelReporte(registros, defs), ClaveGrupo) {
      DefectoConGrupo(validos, defs, g, x);
    }
  }

  /**
   * The report's defects: when no label is spelled in two cases, the sum of
   * TotalDefectos is the number of defects selected.
   */
  lemma ReporteDefectosTotal(registros: seq<Pieza>, defs: seq<Defecto>)
    requires SinVariantesDeMayusculas(Filter(registros, Valida), defs)
    ensures SumOf(ReporteOrdenado(registros, defs), DefectosDeGrupo) == |defs|
  {
    var validos := Filter(registros, Valida);
    var g := GruposProduccion(validos, defs);
    var ks := KeysOf(defs, DefClaveMT);
    var d := DatosDelReporte(registros, defs);
    GruposDefectosExactos(validos, defs);
    AgregadosDefectosExactos(g, defs, ks);
    ClavesDeAgregados(g, defs, ks);
    DefectosConGrupo(registros, defs);
    SumaDefectosExactos(d, defs);
    SumOfPermutation(SortBy(d, GrupoAntes), d, DefectosDeGrupo);
  }
}
