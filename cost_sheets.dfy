/**
 * The numbers behind the three sheets of the complete report
 * (ExportarReporteCompleto): "Reporte Ingeniería" (per labor day and
 * mandrel), "Reporte Defectos" (per mandrel) and "Códigos" (per labor day,
 * mandrel, code and defect). All three fetch calendar dates
 * [inicio - 1, fin + 1] and keep the rows whose labor day under the inline
 * 07:10 rule lies in [inicio, fin]; good pieces count `int.TryParse ? n : 0`.
 */
module CostSheets {
  import opened Collections
  import opened Text
  import opened Sorting
  import opened ShiftCalendar
  import opened Records
  import opened LaborDays
  import opened DefectReports
  import opened CostRollups

  function DiaInline(d: Defecto): Date { InlineLaborDay(d.fecha, d.hora) }
  function PzDiaInline(p: Pieza): Date { InlineLaborDay(p.fecha, p.hora) }
  function PzMandrel(p: Pieza): string { p.mandrel }

  /** `int.TryParse(p.Ndpiezas, out var n) ? n : 0`. */
  function Cantidad(p: Pieza): int { ParseInt32OrZero(p.ndpiezas) }

  /** A defect's cost: its mandrel's unit cost, 0 off the catalog. */
  function CostoDeDefecto(info: Catalogo): Defecto -> real
  {
    (d: Defecto) => CostoDe(info, d.mandrel)
  }

  /** The sheets' defects: exactly the table's defects whose inline labor day is in range. */
  function DefectosHojas(tabla: seq<Defecto>, inicio: Date, fin: Date): (r: seq<Defecto>)
    ensures forall d :: d in r <==> d in tabla && inicio <= DiaInline(d) <= fin
  {
    InlineWindowExact(tabla, DefFecha, DefHora, inicio, fin);
    var r := KeepInlineDays(FetchDates(tabla, DefFecha, inicio - 1, fin + 1), DefFecha, DefHora, inicio, fin);
    assert forall d :: d in r <==> d in tabla && inicio <= InlineLaborDay(DefFecha(d), DefHora(d)) <= fin;
    r
  }

  /** The sheets' scanned pieces: exactly the table's pieces whose inline labor day is in range. */
  function PiezasHojas(tabla: seq<Pieza>, inicio: Date, fin: Date): (r: seq<Pieza>)
    ensures forall p :: p in r <==> p in tabla && inicio <= PzDiaInline(p) <= fin
  {
    InlineWindowExact(tabla, PzFecha, PzHora, inicio, fin);
    var r := KeepInlineDays(FetchDates(tabla, PzFecha, inicio - 1, fin + 1), PzFecha, PzHora, inicio, fin);
    assert forall p :: p in r <==> p in tabla && inicio <= InlineLaborDay(PzFecha(p), PzHora(p)) <= fin;
    r
  }

  // ---------------------------------------------------------------------
  // Per-mandrel rows ("Reporte Defectos", and each day of "Reporte Ingeniería")
  // ---------------------------------------------------------------------

  /** `defectosPorMandril.Keys.OrderBy(m => m)`. */
  function MandrilesOrdenados(rows: seq<Defecto>): seq<string>
  {
    SortBy(KeysOf(rows, DefMandrel), Ascendente)
  }

  datatype FilaDefectos = FilaDefectos(mandril: string, totalDefectos: int, produccionTotal: int, costoTotal: real)

  function DefectosDeFila(x: FilaDefectos): int { x.totalDefectos }
  function CostoDeFilaDefectos(x: FilaDefectos): real { x.costoTotal }

  /** One mandrel's line: its defects, good pieces + defects, defects x unit cost. */
  function FilaDefectosDe(info: Catalogo, rows: seq<Defecto>, pzs: seq<Pieza>, m: string): FilaDefectos
  {
    var n := CountKey(rows, DefMandrel, m);
    FilaDefectos(m, n, SumKey(pzs, PzMandrel, m, Cantidad) + n, Veces(n, CostoDe(info, m)))
  }

  /** The lines of every mandrel that has a defect, in ordinal mandrel order. */
  function PorMandril(info: Catalogo, rows: seq<Defecto>, pzs: seq<Pieza>): seq<FilaDefectos>
  {
    Map(MandrilesOrdenados(rows), (m: string) => FilaDefectosDe(info, rows, pzs, m))
  }

  lemma MandrilesOrdenadosSpec(rows: seq<Defecto>)
    ensures var ms := MandrilesOrdenados(rows);
      && (forall m :: m in ms <==> m in KeysOf(rows, DefMandrel))
      && NoDuplicates(ms)
      && (forall i, j :: 0 <= i < j < |ms| ==> StrLess(ms[i], ms[j]))
  {
    OrdenAscendente(KeysOf(rows, DefMandrel));
  }

  /**
   * The line at position i is that of the i-th mandrel in ordinal order: its
   * defect count (at least 1), its good pieces plus that count, and the
   * count x its unit cost (0 off the catalog).
   */
  lemma PorMandrilFila(info: Catalogo, rows: seq<Defecto>, pzs: seq<Pieza>, i: int)
    requires 0 <= i < |PorMandril(info, rows, pzs)|
    ensures var x := PorMandril(info, rows, pzs)[i];
      && x.mandril == MandrilesOrdenados(rows)[i]
      && x.totalDefectos == CountKey(rows, DefMandrel, x.mandril) && x.totalDefectos >= 1
      && x.produccionTotal == SumKey(pzs, PzMandrel, x.mandril, Cantidad) + x.totalDefectos
      && x.costoTotal == Veces(x.totalDefectos, CostoDe(info, x.mandril))
      && (x.mandril !in info ==> x.costoTotal == 0.0)
  {
    var ms := MandrilesOrdenados(rows);
    var m := ms[i];
    assert PorMandril(info, rows, pzs)[i] == FilaDefectosDe(info, rows, pzs, m);
    MandrilesOrdenadosSpec(rows);
    assert m in ms;
    var d :| d in rows && DefMandrel(d) == m;
    VecesOfZero(CountKey(rows, DefMandrel, m));
  }

  /** One line per mandrel with a defect, in strictly increasing ordinal order. */
  lemma PorMandrilOrden(info: Catalogo, rows: seq<Defecto>, pzs: seq<Pieza>)
    ensures var r := PorMandril(info, rows, pzs);
      && (forall d :: d in rows ==> exists i :: 0 <= i < |r| && r[i].mandril == d.mandrel)
      && (forall i, j :: 0 <= i < j < |r| ==> StrLess(r[i].mandril, r[j].mandril))
  {
    var ms := MandrilesOrdenados(rows);
    var r := PorMandril(info, rows, pzs);
    MandrilesOrdenadosSpec(rows);
    forall d | d in rows ensures exists i :: 0 <= i < |r| && r[i].mandril == d.mandrel {
      assert d.mandrel in ms;
      var i :| 0 <= i < |ms| && ms[i] == d.mandrel;
      assert r[i].mandril == ms[i];
    }
  }

  /** The lines' defect counts add up to the number of defects, their costs to the defects' cost. */
  lemma PorMandrilTotales(info: Catalogo, rows: seq<Defecto>, pzs: seq<Pieza>)
    ensures SumOf(PorMandril(info, rows, pzs), DefectosDeFila) == |rows|
    ensures SumReal(PorMandril(info, rows, pzs), CostoDeFilaDefectos) == SumReal(rows, CostoDeDefecto(info))
  {
    var ms := MandrilesOrdenados(rows);
    var toFila := (m: string) => FilaDefectosDe(info, rows, pzs, m);
    var val := CostoDeDefecto(info);
    MandrilesOrdenadosSpec(rows);
    forall d | d in rows ensures DefMandrel(d) in ms { }
    var cuenta := (m: string) => CountKey(rows, DefMandrel, m);
    SumOfMap(ms, toFila, DefectosDeFila, cuenta);
    SumOfByKeys(rows, DefMandrel, ms, cuenta);
    CountConservation(rows, DefMandrel, ms);
    var costo := (m: string) => SumKeyReal(rows, DefMandrel, m, val);
    forall m ensures CostoDeFilaDefectos(toFila(m)) == costo(m) {
      CountTimesWeight(rows, DefMandrel, m, CostoUnitario(info), val);
    }
    SumRealOfMap(ms, toFila, CostoDeFilaDefectos, costo);
    SumRealByKeys(rows, DefMandrel, ms, costo, val);
    SumRealConservation(rows, DefMandrel, ms, val);
  }

  /** "Reporte Defectos": one line per mandrel with a defect in the range. */
  function GenerarHojaDefectos(cat: Catalogo, defectos: seq<Defecto>, piezas: seq<Pieza>,
                               inicio: Date, fin: Date): seq<FilaDefectos>
  {
    PorMandril(Inspeccion(cat), DefectosHojas(defectos, inicio, fin), PiezasHojas(piezas, inicio, fin))
  }

  // ---------------------------------------------------------------------
  // "Reporte Ingeniería": per labor day (ascending), per mandrel (ascending)
  // ---------------------------------------------------------------------

  /** The sheet's family: `Familia ?? "SIN FAMILIA"` on the catalog, "SIN FAMILIA" off it. */
  function FamiliaIngenieria(info: Catalogo, m: string): (r: string)
    ensures m in info ==> r == FamiliaONull(info[m].familia)
    ensures m !in info ==> r == SinFamilia
  {
    if m in info then FamiliaONull(info[m].familia) else SinFamilia
  }

  datatype FilaIngenieria = FilaIngenieria(fecha: Date, familia: string, datos: FilaDefectos)

  function DefectosIng(x: FilaIngenieria): int { x.datos.totalDefectos }
  function CostoIng(x: FilaIngenieria): real { x.datos.costoTotal }

  function DelDiaInline(defs: seq<Defecto>, f: Date): seq<Defecto>
  {
    Filter(defs, (d: Defecto) => DiaInline(d) == f)
  }

  function PiezasDelDia(pzs: seq<Pieza>, f: Date): seq<Pieza>
  {
    Filter(pzs, (p: Pieza) => PzDiaInline(p) == f)
  }

  /** One day's block: that day's defects per mandrel, against that day's good pieces. */
  function FilasDelDia(info: Catalogo, defs: seq<Defecto>, pzs: seq<Pieza>, f: Date): seq<FilaIngenieria>
  {
    Map(PorMandril(info, DelDiaInline(defs, f), PiezasDelDia(pzs, f)),
        (x: FilaDefectos) => FilaIngenieria(f, FamiliaIngenieria(info, x.mandril), x))
  }

  /** The blocks of the days `dias`, one after the other. */
  function FilasIngenieria(info: Catalogo, defs: seq<Defecto>, pzs: seq<Pieza>, dias: seq<Date>): seq<FilaIngenieria>
  {
    if |dias| == 0 then []
    else FilasIngenieria(info, defs, pzs, dias[..|dias| - 1]) + FilasDelDia(info, defs, pzs, dias[|dias| - 1])
  }

  /** `defectos.GroupBy(x => x.FechaLaboral).OrderBy(g => g.Key)`: the keys. */
  function DiasInline(defs: seq<Defecto>): seq<Date>
  {
    SortBy(KeysOf(defs, DiaInline), DiaAntes)
  }

  datatype HojaIngenieria = HojaIngenieria(costoTotalRango: real, filas: seq<FilaIngenieria>)

  function GenerarHojaIngenieria(cat: Catalogo, defectos: seq<Defecto>, piezas: seq<Pieza>,
                                 inicio: Date, fin: Date): HojaIngenieria
  {
    var info := Inspeccion(cat);
    var defs := DefectosHojas(defectos, inicio, fin);
    HojaIngenieria(SumReal(defs, CostoDeDefecto(info)),
                   FilasIngenieria(info, defs, PiezasHojas(piezas, inicio, fin), DiasInline(defs)))
  }

  lemma DiasInlineSpec(defs: seq<Defecto>)
    ensures var r := DiasInline(defs);
      && (forall f :: f in r <==> f in KeysOf(defs, DiaInline))
      && NoDuplicates(r)
      && (forall i, j :: 0 <= i < j < |r| ==> r[i] < r[j])
  {
    OrdenFechas(KeysOf(defs, DiaInline));
  }

  /** A day's block: rows of that day only, mandrels strictly increasing. */
  lemma FilasDelDiaOrden(info: Catalogo, defs: seq<Defecto>, pzs: seq<Pieza>, f: Date)
    ensures var t := FilasDelDia(info, defs, pzs, f);
      && (forall x :: x in t ==> x.fecha == f)
      && (forall i, j :: 0 <= i < j < |t| ==> StrLess(t[i].datos.mandril, t[j].datos.mandril))
  {
    PorMandrilOrden(info, DelDiaInline(defs, f), PiezasDelDia(pzs, f));
  }

  /** A row of a day's block holds that day's numbers for its mandrel. */
  lemma FilasDelDiaFila(info: Catalogo, defs: seq<Defecto>, pzs: seq<Pieza>, f: Date, x: FilaIngenieria)
    requires x in FilasDelDia(info, defs, pzs, f)
    ensures x.fecha == f && x.familia == FamiliaIngenieria(info, x.datos.mandril)
    ensures x.datos.totalDefectos == CountKey(DelDiaInline(defs, f), DefMandrel, x.datos.mandril)
    ensures x.datos.totalDefectos >= 1
    ensures x.datos.produccionTotal
            == SumKey(PiezasDelDia(pzs, f), PzMandrel, x.datos.mandril, Cantidad) + x.datos.totalDefectos
    ensures x.datos.costoTotal == Veces(x.datos.totalDefectos, CostoDe(info, x.datos.mandril))
  {
    var t := FilasDelDia(info, defs, pzs, f);
    var i :| 0 <= i < |t| && t[i] == x;
    PorMandrilFila(info, DelDiaInline(defs, f), PiezasDelDia(pzs, f), i);
  }

  /** Per day: the block's counts add up to the day's defects, its costs to their cost. */
  lemma FilasDelDiaTotales(info: Catalogo, defs: seq<Defecto>, pzs: seq<Pieza>, f: Date)
    ensures SumOf(FilasDelDia(info, defs, pzs, f), DefectosIng) == CountKey(defs, DiaInline, f)
    ensures SumReal(FilasDelDia(info, defs, pzs, f), CostoIng) == SumKeyReal(defs, DiaInline, f, CostoDeDefecto(info))
  {
    var delDia := DelDiaInline(defs, f);
    var p := PorMandril(info, delDia, PiezasDelDia(pzs, f));
    var toIng := (x: FilaDefectos) => FilaIngenieria(f, FamiliaIngenieria(info, x.mandril), x);
    PorMandrilTotales(info, delDia, PiezasDelDia(pzs, f));
    SumOfMap(p, toIng, DefectosIng, DefectosDeFila);
    SumRealOfMap(p, toIng, CostoIng, CostoDeFilaDefectos);
    CountKeyOfGroup(defs, DiaInline, f, (d: Defecto) => DiaInline(d) == f);
    SumKeyRealOfFilter(defs, DiaInline, f, (d: Defecto) => DiaInline(d) == f, CostoDeDefecto(info));
  }

  lemma {:induction false} FilasIngenieriaTotales(info: Catalogo, defs: seq<Defecto>, pzs: seq<Pieza>, dias: seq<Date>)
    ensures SumOf(FilasIngenieria(info, defs, pzs, dias), DefectosIng) == CountOverKeys(defs, DiaInline, dias)
    ensures SumReal(FilasIngenieria(info, defs, pzs, dias), CostoIng)
         == SumOverKeysReal(defs, DiaInline, dias, CostoDeDefecto(info))
  {
    if |dias| > 0 {
      var dias', f := dias[..|dias| - 1], dias[|dias| - 1];
      var a, t := FilasIngenieria(info, defs, pzs, dias'), FilasDelDia(info, defs, pzs, f);
      assert FilasIngenieria(info, defs, pzs, dias) == a + t;
      FilasIngenieriaTotales(info, defs, pzs, dias');
      FilasDelDiaTotales(info, defs, pzs, f);
      SumOfAppend(a, t, DefectosIng);
      SumRealAppend(a, t, CostoIng);
    }
  }

  /** (day, mandrel) order: by day, then ordinal by mandrel. */
  predicate AntesIng(a: FilaIngenieria, b: FilaIngenieria)
  {
    a.fecha < b.fecha || (a.fecha == b.fecha && StrLess(a.datos.mandril, b.datos.mandril))
  }

  /** Rows in (day, mandrel) order. */
  predicate OrdenIng(r: seq<FilaIngenieria>)
  {
    forall i, j :: 0 <= i < j < |r| ==> AntesIng(r[i], r[j])
  }

  /** Appending a later day's block, ordered by mandrel, to rows in (day, mandrel) order keeps the order. */
  lemma AppendDayOrden(a: seq<FilaIngenieria>, t: seq<FilaIngenieria>, f: Date)
    requires forall i, j :: 0 <= i < j < |a| ==> AntesIng(a[i], a[j])
    requires forall x :: x in a ==> x.fecha < f
    requires forall x :: x in t ==> x.fecha == f
    requires forall i, j :: 0 <= i < j < |t| ==> StrLess(t[i].datos.mandril, t[j].datos.mandril)
    ensures forall i, j :: 0 <= i < j < |a + t| ==> AntesIng((a + t)[i], (a + t)[j])
  {
    var r := a + t;
    forall i, j | 0 <= i < j < |r| ensures AntesIng(r[i], r[j]) {
      if j < |a| {
        assert r[i] == a[i] && r[j] == a[j];
      } else if i < |a| {
        assert r[i] in a && r[j] in t;
      } else {
        assert r[i] == t[i - |a|] && r[j] == t[j - |a|];
        assert t[i - |a|] in t;
      }
    }
  }

  lemma {:induction false} FilasIngenieriaOrden(info: Catalogo, defs: seq<Defecto>, pzs: seq<Pieza>, dias: seq<Date>)
    requires forall i, j :: 0 <= i < j < |dias| ==> dias[i] < dias[j]
    ensures var r := FilasIngenieria(info, defs, pzs, dias);
      && (forall x :: x in r ==> x.fecha in dias)
      && (forall i, j :: 0 <= i < j < |r| ==> AntesIng(r[i], r[j]))
  {
    if |dias| > 0 {
      var dias', f := dias[..|dias| - 1], dias[|dias| - 1];
      FilasIngenieriaOrden(info, defs, pzs, dias');
      FilasDelDiaOrden(info, defs, pzs, f);
      var a, t := FilasIngenieria(info, defs, pzs, dias'), FilasDelDia(info, defs, pzs, f);
      assert FilasIngenieria(info, defs, pzs, dias) == a + t;
      forall x | x in a ensures x.fecha < f && x.fecha in dias {
        var k :| 0 <= k < |dias'| && dias'[k] == x.fecha;
        assert dias[k] == x.fecha;
      }
      forall x | x in a + t ensures x.fecha in dias {
        if x !in a { assert x in t; }
      }
      AppendDayOrden(a, t, f);
    }
  }

  /** "Reporte Ingeniería"'s rows are ordered by day, then by mandrel. */
  lemma GenerarHojaIngenieriaOrden(cat: Catalogo, defectos: seq<Defecto>, piezas: seq<Pieza>, inicio: Date, fin: Date)
    ensures OrdenIng(GenerarHojaIngenieria(cat, defectos, piezas, inicio, fin).filas)
  {
    var info := Inspeccion(cat);
    var defs := DefectosHojas(defectos, inicio, fin);
    var pzs := PiezasHojas(piezas, inicio, fin);
    var dias := DiasInline(defs);
    var r := GenerarHojaIngenieria(cat, defectos, piezas, inicio, fin).filas;
    assert r == FilasIngenieria(info, defs, pzs, dias);
    DiasInlineAscendentes(defs);
    FilasIngenieriaOrdenadas(info, defs, pzs, dias);
  }

  /** Over ascending days, the rows are in (day, mandrel) order. */
  lemma FilasIngenieriaOrdenadas(info: Catalogo, defs: seq<Defecto>, pzs: seq<Pieza>, dias: seq<Date>)
    requires forall i, j :: 0 <= i < j < |dias| ==> dias[i] < dias[j]
    ensures OrdenIng(FilasIngenieria(info, defs, pzs, dias))
  {
    FilasIngenieriaOrden(info, defs, pzs, dias);
  }

  /** The sheet's days are strictly ascending. */
  lemma DiasInlineAscendentes(defs: seq<Defecto>)
    ensures var r := DiasInline(defs); forall i, j :: 0 <= i < j < |r| ==> r[i] < r[j]
  {
    DiasInlineSpec(defs);
  }

  /**
   * A row of "Reporte Ingeniería": a labor day of the range, that day's
   * count of the mandrel's defects (at least 1), good pieces + defects,
   * count x unit cost and the `?? "SIN FAMILIA"` family.
   */
  lemma GenerarHojaIngenieriaFila(cat: Catalogo, defectos: seq<Defecto>, piezas: seq<Pieza>, inicio: Date, fin: Date,
                                  x: FilaIngenieria)
    requires x in GenerarHojaIngenieria(cat, defectos, piezas, inicio, fin).filas
    ensures inicio <= x.fecha <= fin
    ensures x.familia == FamiliaIngenieria(Inspeccion(cat), x.datos.mandril)
    ensures x.datos.totalDefectos == CountKey(DelDiaInline(DefectosHojas(defectos, inicio, fin), x.fecha), DefMandrel, x.datos.mandril)
    ensures x.datos.totalDefectos >= 1
    ensures x.datos.produccionTotal
            == SumKey(PiezasDelDia(PiezasHojas(piezas, inicio, fin), x.fecha), PzMandrel, x.datos.mandril, Cantidad)
               + x.datos.totalDefectos
    ensures x.datos.costoTotal == Veces(x.datos.totalDefectos, CostoDe(Inspeccion(cat), x.datos.mandril))
  {
    var info := Inspeccion(cat);
    var defs := DefectosHojas(defectos, inicio, fin);
    var pzs := PiezasHojas(piezas, inicio, fin);
    var dias := DiasInline(defs);
    DiasInlineSpec(defs);
    FilasIngenieriaMember(info, defs, pzs, dias, x);
    FilasDelDiaFila(info, defs, pzs, x.fecha, x);
    assert x.fecha in KeysOf(defs, DiaInline);
    var d :| d in defs && DiaInline(d) == x.fecha;
  }

  lemma {:induction false} FilasIngenieriaMember(info: Catalogo, defs: seq<Defecto>, pzs: seq<Pieza>, dias: seq<Date>, x: FilaIngenieria)
    requires x in FilasIngenieria(info, defs, pzs, dias)
    ensures x.fecha in dias && x in FilasDelDia(info, defs, pzs, x.fecha)
  {
    var dias', f := dias[..|dias| - 1], dias[|dias| - 1];
    if x in FilasIngenieria(info, defs, pzs, dias') {
      FilasIngenieriaMember(info, defs, pzs, dias', x);
    }
  }

  // ---------------------------------------------------------------------
  // "Códigos": per (labor day, mandrel, code, defect), ordered
  // ---------------------------------------------------------------------

  datatype FilaCodigo = FilaCodigo(fecha: Date, mandril: string, codigo: string, defecto: string, totalPiezas: int)

  function ClaveCodigo(d: Defecto): (Date, string, string, string) { (DiaInline(d), d.mandrel, d.codigo, d.defecto) }

  function AFilaCodigo(g: ((Date, string, string, string), int)): FilaCodigo
  {
    FilaCodigo(g.0.0, g.0.1, g.0.2, g.0.3, g.1)
  }

  /** `OrderBy(Fecha).ThenBy(Mandril).ThenBy(Codigo)`; rows equal on all three keep group order. */
  predicate AntesCodigo(a: FilaCodigo, b: FilaCodigo)
  {
    a.fecha < b.fecha
    || (a.fecha == b.fecha && (StrLess(a.mandril, b.mandril) || (a.mandril == b.mandril && StrLess(a.codigo, b.codigo))))
  }

  function PiezasCodigo(x: FilaCodigo): int { x.totalPiezas }

  /** A row's cost, `TotalPiezas * costoUnitario`. */
  function CostoCodigo(info: Catalogo): FilaCodigo -> real
  {
    (x: FilaCodigo) => Veces(x.totalPiezas, CostoDe(info, x.mandril))
  }

  datatype HojaCodigos = HojaCodigos(costoTotalRango: real, filas: seq<FilaCodigo>)

  function GenerarHojaCodigos(cat: Catalogo, defectos: seq<Defecto>, inicio: Date, fin: Date): HojaCodigos
  {
    var info := Inspeccion(cat);
    var data := SortBy(Map(GroupCounts(DefectosHojas(defectos, inicio, fin), ClaveCodigo), AFilaCodigo), AntesCodigo);
    HojaCodigos(SumReal(data, CostoCodigo(info)), data)
  }

  lemma AntesCodigoStrict(dom: seq<FilaCodigo>)
    ensures StrictOrderOn(dom, AntesCodigo)
  {
    forall a, b, c | a in dom && b in dom && c in dom
      ensures !AntesCodigo(a, a)
      ensures AntesCodigo(a, b) && AntesCodigo(b, c) ==> AntesCodigo(a, c)
    {
      StrLessIrreflexive(a.mandril);
      StrLessIrreflexive(a.codigo);
      if AntesCodigo(a, b) && AntesCodigo(b, c) && a.fecha == b.fecha && b.fecha == c.fecha {
        if StrLess(a.mandril, b.mandril) && StrLess(b.mandril, c.mandril) {
          StrLessTransitive(a.mandril, b.mandril, c.mandril);
        }
        if a.mandril == b.mandril && b.mandril == c.mandril && StrLess(a.codigo, b.codigo) && StrLess(b.codigo, c.codigo) {
          StrLessTransitive(a.codigo, b.codigo, c.codigo);
        }
      }
    }
  }

  /**
   * "Códigos": one row per (labor day, mandrel, code, defect) group with its
   * size (at least 1); no row placed after one it should precede; sizes add
   * up to the defects of the range.
   */
  lemma GenerarHojaCodigosFilas(cat: Catalogo, defectos: seq<Defecto>, inicio: Date, fin: Date)
    ensures var defs := DefectosHojas(defectos, inicio, fin);
            var r := GenerarHojaCodigos(cat, defectos, inicio, fin).filas;
      && |r| == |KeysOf(defs, ClaveCodigo)|
      && (forall x :: x in r ==>
            x.totalPiezas == CountKey(defs, ClaveCodigo, (x.fecha, x.mandril, x.codigo, x.defecto))
            && x.totalPiezas >= 1 && inicio <= x.fecha <= fin)
      && SortedBy(r, AntesCodigo)
      && SumOf(r, PiezasCodigo) == |defs|
  {
    var defs := DefectosHojas(defectos, inicio, fin);
    var g := GroupCounts(defs, ClaveCodigo);
    var m := Map(g, AFilaCodigo);
    var r := SortBy(m, AntesCodigo);
    forall x | x in r
      ensures x.totalPiezas == CountKey(defs, ClaveCodigo, (x.fecha, x.mandril, x.codigo, x.defecto))
      ensures x.totalPiezas >= 1 && inicio <= x.fecha <= fin
    {
      assert x in multiset(m);
      var i :| 0 <= i < |m| && m[i] == x;
      assert g[i] in g;
      GroupCountsMembers(defs, ClaveCodigo, g[i]);
      var d :| d in defs && ClaveCodigo(d) == g[i].0;
    }
    AntesCodigoStrict(m);
    SortSorted(m, AntesCodigo);
    SumOfPermutation(r, m, PiezasCodigo);
    SumOfMap(g, AFilaCodigo, PiezasCodigo, GroupValue);
    GroupCountsTotal(defs, ClaveCodigo);
  }

  /** "Códigos"'s range cost, added up row by row, equals the cost of every defect of the range. */
  lemma GenerarHojaCodigosCosto(cat: Catalogo, defectos: seq<Defecto>, inicio: Date, fin: Date)
    ensures GenerarHojaCodigos(cat, defectos, inicio, fin).costoTotalRango
         == SumReal(DefectosHojas(defectos, inicio, fin), CostoDeDefecto(Inspeccion(cat)))
  {
    var info := Inspeccion(cat);
    var defs := DefectosHojas(defectos, inicio, fin);
    var g := GroupCounts(defs, ClaveCodigo);
    var m := Map(g, AFilaCodigo);
    var r := SortBy(m, AntesCodigo);
    var h := (p: ((Date, string, string, string), int)) => Veces(p.1, CostoDe(info, p.0.1));
    SumRealPermutation(r, m, CostoCodigo(info));
    SumRealOfMap(g, AFilaCodigo, CostoCodigo(info), h);
    WeightedGroupCounts(defs, ClaveCodigo, (k: (Date, string, string, string)) => CostoDe(info, k.1), h,
                        CostoDeDefecto(info));
  }

  // ---------------------------------------------------------------------
  // The three sheets agree
  // ---------------------------------------------------------------------

  /**
   * The three sheets reconcile: the Ingeniería range cost equals the sum
   * of its rows' costs, of "Reporte Defectos"'s costs and the "Códigos"
   * range cost; the three sheets' defect counts all add up to the number
   * of defects in the range.
   */
  lemma HojasCuadran(cat: Catalogo, defectos: seq<Defecto>, piezas: seq<Pieza>, inicio: Date, fin: Date)
    ensures var n := |DefectosHojas(defectos, inicio, fin)|;
            var ing := GenerarHojaIngenieria(cat, defectos, piezas, inicio, fin);
            var def := GenerarHojaDefectos(cat, defectos, piezas, inicio, fin);
            var cod := GenerarHojaCodigos(cat, defectos, inicio, fin);
      && SumReal(ing.filas, CostoIng) == ing.costoTotalRango
      && SumReal(def, CostoDeFilaDefectos) == ing.costoTotalRango
      && cod.costoTotalRango == ing.costoTotalRango
      && SumOf(ing.filas, DefectosIng) == n
      && SumOf(def, DefectosDeFila) == n
      && SumOf(cod.filas, PiezasCodigo) == n
  {
    var info := Inspeccion(cat);
    var defs := DefectosHojas(defectos, inicio, fin);
    var pzs := PiezasHojas(piezas, inicio, fin);
    var dias := DiasInline(defs);
    DiasInlineSpec(defs);
    forall d | d in defs ensures DiaInline(d) in dias { }
    FilasIngenieriaTotales(info, defs, pzs, dias);
    CountConservation(defs, DiaInline, dias);
    SumRealConservation(defs, DiaInline, dias, CostoDeDefecto(info));
    PorMandrilTotales(info, defs, pzs);
    GenerarHojaCodigosFilas(cat, defectos, inicio, fin);
    GenerarHojaCodigosCosto(cat, defectos, inicio, fin);
  }
}
