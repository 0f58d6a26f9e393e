/**
 * The defect screens of the defects controller: the day's filtered defect
 * list and its grouped table, the option lists of the export dialog, the
 * aggregates behind the Excel export (detail rows, totals per day and per
 * shift, the day x shift pivot) and the two Top-5 charts.
 *
 * Every query here fetches calendar dates [inicio - 1, fin + 1] and keeps the
 * rows whose labor day under ProduccionHelper lies in [inicio, fin].
 */
module DefectReports {
  import opened Collections
  import opened Text
  import opened Sorting
  import opened ShiftCalendar
  import opened Records
  import opened LaborDays

  function DefMandrel(d: Defecto): string { d.mandrel }
  function DefCodigo(d: Defecto): string { d.codigo }

  /** Defects of the labor days [inicio, fin], fetched through the one-day margin. */
  function DefectosDelRango(tabla: seq<Defecto>, inicio: Date, fin: Date): (r: seq<Defecto>)
    ensures forall d :: d in r <==> d in tabla && inicio <= GetFechaProduccion(d.fecha, d.hora) <= fin
    ensures multiset(r) <= multiset(tabla)
  {
    HelperWindowExact(tabla, DefFecha, DefHora, inicio, fin);
    var r := KeepHelperDays(FetchDates(tabla, DefFecha, inicio - 1, fin + 1), DefFecha, DefHora, inicio, fin);
    assert forall d :: d in r <==> d in tabla && inicio <= GetFechaProduccion(DefFecha(d), DefHora(d)) <= fin;
    r
  }

  /**
   * ObtenerDefectosFiltrados: the defects of one labor day, of one shift when
   * a shift is given (null or "" means every shift).
   */
  function ObtenerDefectosFiltrados(tabla: seq<Defecto>, fechaFiltro: Date, turno: string): (r: seq<Defecto>)
    ensures forall d :: d in r <==>
      d in tabla && GetFechaProduccion(d.fecha, d.hora) == fechaFiltro && (turno == "" || d.turno == turno)
    ensures multiset(r) <= multiset(tabla)
  {
    var delDia := DefectosDelRango(tabla, fechaFiltro, fechaFiltro);
    if turno == "" then delDia else Filter(delDia, (d: Defecto) => d.turno == turno)
  }

  /** `if (lista != null && lista.Any()) rows = rows.Where(r => lista.Contains(campo(r)))`. */
  function SoloSiHayLista<T(!new)>(rows: seq<T>, campo: T -> string, lista: seq<string>): (r: seq<T>)
    ensures |lista| == 0 ==> r == rows
    ensures forall x :: x in r <==> x in rows && (|lista| == 0 || campo(x) in lista)
    ensures multiset(r) <= multiset(rows)
  {
    if |lista| > 0 then Filter(rows, x => campo(x) in lista) else rows
  }

  // ---------------------------------------------------------------------
  // GetDefectosAgrupados: the day's table grouped by shift, mandrel and code
  // ---------------------------------------------------------------------

  datatype ClaveAgrupada = ClaveAgrupada(turno: string, mandrel: string, codigo: string, defecto: string)

  function ClaveAgrupadaDe(d: Defecto): ClaveAgrupada
  {
    ClaveAgrupada(d.turno, d.mandrel, d.codigo, d.defecto)
  }

  datatype FilaAgrupada = FilaAgrupada(turno: string, mandril: string, totalPiezas: int, defectoCompleto: string)

  function AFilaAgrupada(g: (ClaveAgrupada, int)): FilaAgrupada
  {
    FilaAgrupada(g.0.turno, g.0.mandrel, g.1, g.0.codigo + " - " + g.0.defecto)
  }

  function FilaTotal(f: FilaAgrupada): int { f.totalPiezas }

  /** OrderBy(turno).ThenBy(mandril). */
  predicate TurnoMandrilAntes(a: FilaAgrupada, b: FilaAgrupada)
  {
    StrPairLess((a.turno, a.mandril), (b.turno, b.mandril))
  }

  /** The defects the grouped table counts: the day's, then the mandrel and code selections. */
  function DefectosSeleccionados(tabla: seq<Defecto>, fecha: Date, turno: string,
                                 mandriles: seq<string>, codigos: seq<string>): seq<Defecto>
  {
    SoloSiHayLista(SoloSiHayLista(ObtenerDefectosFiltrados(tabla, fecha, turno), DefMandrel, mandriles), DefCodigo, codigos)
  }

  function GetDefectosAgrupados(tabla: seq<Defecto>, fecha: Date, turno: string,
                                mandriles: seq<string>, codigos: seq<string>): seq<FilaAgrupada>
  {
    var sel := DefectosSeleccionados(tabla, fecha, turno, mandriles, codigos);
    SortBy(Map(GroupCounts(sel, ClaveAgrupadaDe), AFilaAgrupada), TurnoMandrilAntes)
  }

  /** A selected defect is in the day, in the shift, and in both lists when they are given. */
  lemma DefectosSeleccionadosMembers(tabla: seq<Defecto>, fecha: Date, turno: string,
                                     mandriles: seq<string>, codigos: seq<string>, d: Defecto)
    ensures d in DefectosSeleccionados(tabla, fecha, turno, mandriles, codigos) <==>
      d in tabla && GetFechaProduccion(d.fecha, d.hora) == fecha && (turno == "" || d.turno == turno)
      && (|mandriles| == 0 || d.mandrel in mandriles) && (|codigos| == 0 || d.codigo in codigos)
  {
  }

  lemma TurnoMandrilStrict(dom: seq<FilaAgrupada>)
    ensures StrictOrderOn(dom, TurnoMandrilAntes)
  {
    forall a, b, c | a in dom && b in dom && c in dom
      ensures !TurnoMandrilAntes(a, a)
      ensures TurnoMandrilAntes(a, b) && TurnoMandrilAntes(b, c) ==> TurnoMandrilAntes(a, c)
    {
      StrPairLessStrict((a.turno, a.mandril), (b.turno, b.mandril), (c.turno, c.mandril));
    }
  }

  /**
   * The grouped table: one row per (turno, mandrel, code, description) group
   * of the selected defects, carrying that group's size; the sizes add up to
   * the number of selected defects; rows come in (turno, mandril) order.
   */
  lemma GetDefectosAgrupadosSpec(tabla: seq<Defecto>, fecha: Date, turno: string,
                                 mandriles: seq<string>, codigos: seq<string>)
    ensures var sel := DefectosSeleccionados(tabla, fecha, turno, mandriles, codigos);
            var r := GetDefectosAgrupados(tabla, fecha, turno, mandriles, codigos);
            && SumOf(r, FilaTotal) == |sel|
            && |r| == |KeysOf(sel, ClaveAgrupadaDe)|
            && SortedBy(r, TurnoMandrilAntes)
            && (forall f :: f in r ==>
                  f.totalPiezas >= 1 &&
                  exists d ::
                    d in sel && f.turno == d.turno && f.mandril == d.mandrel
                    && f.defectoCompleto == d.codigo + " - " + d.defecto
                    && f.totalPiezas == CountKey(sel, ClaveAgrupadaDe, ClaveAgrupadaDe(d)))
  {
    var sel := DefectosSeleccionados(tabla, fecha, turno, mandriles, codigos);
    var g := GroupCounts(sel, ClaveAgrupadaDe);
    var m := Map(g, AFilaAgrupada);
    var r := SortBy(m, TurnoMandrilAntes);
    SumOfPermutation(r, m, FilaTotal);
    SumOfMap(g, AFilaAgrupada, FilaTotal, GroupValue);
    GroupCountsTotal(sel, ClaveAgrupadaDe);
    TurnoMandrilStrict(m);
    SortSorted(m, TurnoMandrilAntes);
    forall f | f in r
      ensures f.totalPiezas >= 1
      ensures exists d ::
          d in sel && f.turno == d.turno && f.mandril == d.mandrel
          && f.defectoCompleto == d.codigo + " - " + d.defecto
          && f.totalPiezas == CountKey(sel, ClaveAgrupadaDe, ClaveAgrupadaDe(d))
    {
      assert f in multiset(r);
      assert f in m;
      MapMembers(g, AFilaAgrupada, f);
      var p :| p in g && AFilaAgrupada(p) == f;
      GroupCountsMembers(sel, ClaveAgrupadaDe, p);
      var d :| d in sel && ClaveAgrupadaDe(d) == p.0;
    }
  }

  // ---------------------------------------------------------------------
  // The export dialog's option lists
  // ---------------------------------------------------------------------

  predicate NoEnBlanco(s: string) { !IsBlank(s) }

  predicate Ascendente(a: string, b: string) { StrLess(a, b) }

  lemma StrLessStrict(dom: seq<string>)
    ensures StrictOrderOn(dom, Ascendente)
  {
    forall a, b, c | a in dom && b in dom && c in dom
      ensures !Ascendente(a, a)
      ensures Ascendente(a, b) && Ascendente(b, c) ==> Ascendente(a, c)
    {
      StrLessIrreflexive(a);
      if Ascendente(a, b) && Ascendente(b, c) { StrLessTransitive(a, b, c); }
    }
  }

  /** A sorted list without repetitions under a total order is strictly increasing. */
  lemma SortedDistinctStrings(r: seq<string>)
    requires SortedBy(r, Ascendente) && NoDuplicates(r)
    ensures forall i, j :: 0 <= i < j < |r| ==> StrLess(r[i], r[j])
  {
    forall i, j | 0 <= i < j < |r| ensures StrLess(r[i], r[j]) {
      StrLessTotal(r[i], r[j]);
    }
  }

  /** Sorting distinct strings ordinally keeps exactly them, strictly increasing. */
  lemma OrdenAscendente(ds: seq<string>)
    requires NoDuplicates(ds)
    ensures var r := SortBy(ds, Ascendente);
      && (forall x :: x in r <==> x in ds)
      && NoDuplicates(r)
      && (forall i, j :: 0 <= i < j < |r| ==> StrLess(r[i], r[j]))
  {
    var r := SortBy(ds, Ascendente);
    forall x ensures x in r <==> x in ds {
      assert x in r <==> x in multiset(r);
    }
    StrLessStrict(ds);
    SortSorted(ds, Ascendente);
    NoDuplicatesPermutation(ds, r);
    SortedDistinctStrings(r);
  }

  /** GetMandriles: the non-blank mandrels of the range, once each, in order. */
  function GetMandriles(tabla: seq<Defecto>, inicio: Date, fin: Date): seq<string>
  {
    SortBy(Distinct(Filter(Map(DefectosDelRango(tabla, inicio, fin), DefMandrel), NoEnBlanco)), Ascendente)
  }

  lemma GetMandrilesSpec(tabla: seq<Defecto>, inicio: Date, fin: Date)
    ensures var r := GetMandriles(tabla, inicio, fin);
      && (forall m :: m in r <==>
            !IsBlank(m) &&
            exists d ::
              d in tabla && d.mandrel == m && inicio <= GetFechaProduccion(d.fecha, d.hora) <= fin)
      && (forall i, j :: 0 <= i < j < |r| ==> StrLess(r[i], r[j]))
  {
    var rows := DefectosDelRango(tabla, inicio, fin);
    var ds := Distinct(Filter(Map(rows, DefMandrel), NoEnBlanco));
    var r := SortBy(ds, Ascendente);
    OrdenAscendente(ds);
    forall m
      ensures m in r <==>
        !IsBlank(m) &&
        exists d ::
          d in tabla && d.mandrel == m && inicio <= GetFechaProduccion(d.fecha, d.hora) <= fin
    {
      MapMembers(rows, DefMandrel, m);
      assert m in r <==> m in Map(rows, DefMandrel) && NoEnBlanco(m);
      if m in r {
        var d :| d in rows && DefMandrel(d) == m;
        assert d in tabla && inicio <= GetFechaProduccion(d.fecha, d.hora) <= fin;
      }
      if !IsBlank(m) && exists d :: d in tabla && d.mandrel == m && inicio <= GetFechaProduccion(d.fecha, d.hora) <= fin {
        var d :| d in tabla && d.mandrel == m && inicio <= GetFechaProduccion(d.fecha, d.hora) <= fin;
        assert d in rows;
        assert m in Map(rows, DefMandrel);
      }
    }
  }

  /** One option of the code list: the trimmed code and "code - description". */
  datatype OpcionCodigo = OpcionCodigo(value: string, text: string)

  predicate CodigoNoEnBlanco(d: Defecto) { !IsBlank(d.codigo) }

  function OpcionDe(d: Defecto): OpcionCodigo
  {
    OpcionCodigo(Trim(d.codigo), Trim(d.codigo) + " - " + Trim(d.defecto))
  }

  predicate ValorAntes(a: OpcionCodigo, b: OpcionCodigo) { StrLess(a.value, b.value) }

  /** GetCodigos: the distinct (code, label) options of the range, ordered by code. */
  function GetCodigos(tabla: seq<Defecto>, inicio: Date, fin: Date): seq<OpcionCodigo>
  {
    SortBy(Distinct(Map(Filter(DefectosDelRango(tabla, inicio, fin), CodigoNoEnBlanco), OpcionDe)), ValorAntes)
  }

  lemma ValorAntesStrict(dom: seq<OpcionCodigo>)
    ensures StrictOrderOn(dom, ValorAntes)
  {
    forall a, b, c | a in dom && b in dom && c in dom
      ensures !ValorAntes(a, a)
      ensures ValorAntes(a, b) && ValorAntes(b, c) ==> ValorAntes(a, c)
    {
      StrLessIrreflexive(a.value);
      if ValorAntes(a, b) && ValorAntes(b, c) { StrLessTransitive(a.value, b.value, c.value); }
    }
  }

  /** Every option comes from a defect of the range with a non-blank code, and every such defect gives one. */
  lemma GetCodigosMembers(tabla: seq<Defecto>, inicio: Date, fin: Date, o: OpcionCodigo)
    ensures o in GetCodigos(tabla, inicio, fin) <==>
      exists d ::
        d in tabla && !IsBlank(d.codigo)
        && inicio <= GetFechaProduccion(d.fecha, d.hora) <= fin && OpcionDe(d) == o
  {
    var sel := Filter(DefectosDelRango(tabla, inicio, fin), CodigoNoEnBlanco);
    var ds := Distinct(Map(sel, OpcionDe));
    assert o in GetCodigos(tabla, inicio, fin) <==> o in multiset(ds);
    MapMembers(sel, OpcionDe, o);
    if o in Map(sel, OpcionDe) {
      var d :| d in sel && OpcionDe(d) == o;
      assert d in tabla && !IsBlank(d.codigo) && inicio <= GetFechaProduccion(d.fecha, d.hora) <= fin;
    }
    if exists d :: d in tabla && !IsBlank(d.codigo)
        && inicio <= GetFechaProduccion(d.fecha, d.hora) <= fin && OpcionDe(d) == o {
      var d :| d in tabla && !IsBlank(d.codigo)
        && inicio <= GetFechaProduccion(d.fecha, d.hora) <= fin && OpcionDe(d) == o;
      assert d in sel;
    }
  }

  /** An option's value is the trimmed code, which is never blank. */
  lemma OpcionValueNotBlank(d: Defecto)
    requires !IsBlank(d.codigo)
    ensures OpcionDe(d).value != [] && !IsBlank(OpcionDe(d).value)
  {
    var t := Trim(d.codigo);
    assert !IsWhiteSpace(t[0]);
  }

  /** No option repeats and the values never decrease. */
  lemma GetCodigosOrder(tabla: seq<Defecto>, inicio: Date, fin: Date)
    ensures NoDuplicates(GetCodigos(tabla, inicio, fin))
    ensures SortedBy(GetCodigos(tabla, inicio, fin), ValorAntes)
  {
    var sel := Filter(DefectosDelRango(tabla, inicio, fin), CodigoNoEnBlanco);
    var ds := Distinct(Map(sel, OpcionDe));
    ValorAntesStrict(ds);
    SortSorted(ds, ValorAntes);
    NoDuplicatesPermutation(ds, SortBy(ds, ValorAntes));
  }

  /** The family a defect's mandrel has in the normalised inspection catalog, else "SIN FAMILIA". */
  function FamiliaIng(cat: Catalogo, d: Defecto): (r: string)
    ensures d.mandrel in Inspeccion(cat) ==> r == FamiliaNormalizada(cat[d.mandrel].familia)
    ensures d.mandrel !in Inspeccion(cat) ==> r == SinFamilia
  {
    var ins := Inspeccion(cat);
    if d.mandrel in ins then FamiliaNormalizada(ins[d.mandrel].familia) else SinFamilia
  }

  /** GetFamiliasIng: the distinct families of the range's mandrels, in order. */
  function GetFamiliasIng(cat: Catalogo, tabla: seq<Defecto>, inicio: Date, fin: Date): seq<string>
  {
    SortBy(Distinct(Map(DefectosDelRango(tabla, inicio, fin), d => FamiliaIng(cat, d))), Ascendente)
  }

  /**
   * The families listed are exactly those of the range's defects, none is
   * blank (a blank or uncatalogued family shows as "SIN FAMILIA"), and the
   * list is strictly increasing.
   */
  lemma GetFamiliasIngSpec(cat: Catalogo, tabla: seq<Defecto>, inicio: Date, fin: Date)
    ensures var r := GetFamiliasIng(cat, tabla, inicio, fin);
      && (forall f :: f in r <==>
            exists d ::
              d in tabla && inicio <= GetFechaProduccion(d.fecha, d.hora) <= fin && FamiliaIng(cat, d) == f)
      && (forall f :: f in r ==> !IsBlank(f))
      && (forall i, j :: 0 <= i < j < |r| ==> StrLess(r[i], r[j]))
  {
    var rows := DefectosDelRango(tabla, inicio, fin);
    var fam := (d: Defecto) => FamiliaIng(cat, d);
    var ds := Distinct(Map(rows, fam));
    var r := SortBy(ds, Ascendente);
    assert r == GetFamiliasIng(cat, tabla, inicio, fin);
    OrdenAscendente(ds);
    forall f
      ensures f in r <==>
        exists d ::
          d in tabla && inicio <= GetFechaProduccion(d.fecha, d.hora) <= fin && FamiliaIng(cat, d) == f
    {
      MapMembers(rows, fam, f);
      if f in r {
        var d :| d in rows && fam(d) == f;
        assert d in tabla && inicio <= GetFechaProduccion(d.fecha, d.hora) <= fin;
      }
      if exists d :: d in tabla && inicio <= GetFechaProduccion(d.fecha, d.hora) <= fin && FamiliaIng(cat, d) == f {
        var d :| d in tabla && inicio <= GetFechaProduccion(d.fecha, d.hora) <= fin && FamiliaIng(cat, d) == f;
        assert d in rows;
        assert f in Map(rows, fam);
      }
    }
    forall f | f in r ensures !IsBlank(f) {
      var d :| d in tabla && inicio <= GetFechaProduccion(d.fecha, d.hora) <= fin && FamiliaIng(cat, d) == f;
      FamiliaIngNoBlanca(cat, d);
    }
  }

  lemma FamiliaIngNoBlanca(cat: Catalogo, d: Defecto)
    ensures !IsBlank(FamiliaIng(cat, d))
  {
    assert !IsWhiteSpace(SinFamilia[0]);
  }

  // ---------------------------------------------------------------------
  // ExportarExcel: detail rows, totals and the day x shift pivot
  // ---------------------------------------------------------------------

  /** A defect projected to its labor day and the columns the export groups on. */
  datatype DefectoLaboral = DefectoLaboral(fechaLaboral: Date, turno: string, mandrel: string, codigo: string, defecto: string)

  function ALaboral(d: Defecto): DefectoLaboral
  {
    DefectoLaboral(GetFechaProduccion(d.fecha, d.hora), d.turno, d.mandrel, d.codigo, d.defecto)
  }

  function LabMandrel(x: DefectoLaboral): string { x.mandrel }
  function LabCodigo(x: DefectoLaboral): string { x.codigo }
  function LabFecha(x: DefectoLaboral): Date { x.fechaLaboral }
  function LabDiaTurno(x: DefectoLaboral): (Date, string) { (x.fechaLaboral, x.turno) }

  /** `.Where(d => d.FechaLaboral >= inicio && d.FechaLaboral <= fin)` on projected defects. */
  function EnRangoLaboral(xs: seq<DefectoLaboral>, inicio: Date, fin: Date): (r: seq<DefectoLaboral>)
    ensures forall y :: y in r <==> y in xs && inicio <= y.fechaLaboral <= fin
    ensures multiset(r) <= multiset(xs)
  {
    Filter(xs, (y: DefectoLaboral) => inicio <= y.fechaLaboral <= fin)
  }

  /** The export's defects: projected, kept by labor day, then by shift, mandrels and codes. */
  function DefectosExportados(tabla: seq<Defecto>, inicio: Date, fin: Date, turno: string,
                              mandriles: seq<string>, codigos: seq<string>): seq<DefectoLaboral>
  {
    var enRango := EnRangoLaboral(Map(FetchDates(tabla, DefFecha, inicio - 1, fin + 1), ALaboral), inicio, fin);
    var porTurno := if turno == "" then enRango else Filter(enRango, (x: DefectoLaboral) => x.turno == turno);
    SoloSiHayLista(SoloSiHayLista(porTurno, LabMandrel, mandriles), LabCodigo, codigos)
  }

  lemma ProjectedFromTable(tabla: seq<Defecto>, inicio: Date, fin: Date, x: DefectoLaboral)
    requires x in Map(FetchDates(tabla, DefFecha, inicio - 1, fin + 1), ALaboral)
    ensures exists d :: d in tabla && ALaboral(d) == x
  {
    var fetched := FetchDates(tabla, DefFecha, inicio - 1, fin + 1);
    MapMembers(fetched, ALaboral, x);
    var d :| d in fetched && ALaboral(d) == x;
    assert d in tabla;
  }

  /** The fetch window holds every defect whose labor day is in range. */
  lemma WindowHoldsLaborDay(tabla: seq<Defecto>, inicio: Date, fin: Date, d: Defecto)
    requires d in tabla && inicio <= GetFechaProduccion(d.fecha, d.hora) <= fin
    ensures ALaboral(d) in Map(FetchDates(tabla, DefFecha, inicio - 1, fin + 1), ALaboral)
  {
    var fetched := FetchDates(tabla, DefFecha, inicio - 1, fin + 1);
    var lf := GetFechaProduccion(d.fecha, d.hora);
    assert lf == d.fecha || lf == d.fecha - 1;
    assert inicio - 1 <= DefFecha(d) <= fin + 1;
    assert d in fetched;
    MapMembers(fetched, ALaboral, ALaboral(d));
  }

  /** The first two phases: projected defects of the window whose labor day is in range. */
  lemma ExportWindowMembers(tabla: seq<Defecto>, inicio: Date, fin: Date, x: DefectoLaboral)
    ensures x in EnRangoLaboral(Map(FetchDates(tabla, DefFecha, inicio - 1, fin + 1), ALaboral), inicio, fin) <==>
      (exists d :: d in tabla && ALaboral(d) == x) && inicio <= x.fechaLaboral <= fin
  {
    if x in Map(FetchDates(tabla, DefFecha, inicio - 1, fin + 1), ALaboral) {
      ProjectedFromTable(tabla, inicio, fin, x);
    }
    if inicio <= x.fechaLaboral <= fin && exists d :: d in tabla && ALaboral(d) == x {
      var d :| d in tabla && ALaboral(d) == x;
      WindowHoldsLaborDay(tabla, inicio, fin, d);
    }
  }

  /** The export holds the projection of exactly the table's defects that pass every filter. */
  lemma DefectosExportadosMembers(tabla: seq<Defecto>, inicio: Date, fin: Date, turno: string,
                                  mandriles: seq<string>, codigos: seq<string>, x: DefectoLaboral)
    ensures x in DefectosExportados(tabla, inicio, fin, turno, mandriles, codigos) <==>
      (exists d :: d in tabla && ALaboral(d) == x)
      && inicio <= x.fechaLaboral <= fin && (turno == "" || x.turno == turno)
      && (|mandriles| == 0 || x.mandrel in mandriles) && (|codigos| == 0 || x.codigo in codigos)
  {
    var enRango := EnRangoLaboral(Map(FetchDates(tabla, DefFecha, inicio - 1, fin + 1), ALaboral), inicio, fin);
    ExportWindowMembers(tabla, inicio, fin, x);
    var porTurno := if turno == "" then enRango else Filter(enRango, (y: DefectoLaboral) => y.turno == turno);
    assert x in porTurno <==> x in enRango && (turno == "" || x.turno == turno);
    assert DefectosExportados(tabla, inicio, fin, turno, mandriles, codigos)
        == SoloSiHayLista(SoloSiHayLista(porTurno, LabMandrel, mandriles), LabCodigo, codigos);
  }

  /** The detail sheet's group key is the whole projected row. */
  function ClaveDetalle(x: DefectoLaboral): DefectoLaboral { x }

  /** OrderBy(Fecha).ThenBy(Turno).ThenBy(Mandril). */
  predicate DetalleAntes(a: (DefectoLaboral, int), b: (DefectoLaboral, int))
  {
    a.0.fechaLaboral < b.0.fechaLaboral
    || (a.0.fechaLaboral == b.0.fechaLaboral && StrPairLess((a.0.turno, a.0.mandrel), (b.0.turno, b.0.mandrel)))
  }

  /** `data`: (row, count) per distinct projected row, in (Fecha, Turno, Mandril) order. */
  function Detalle(defs: seq<DefectoLaboral>): seq<(DefectoLaboral, int)>
  {
    SortBy(GroupCounts(defs, ClaveDetalle), DetalleAntes)
  }

  function DetFecha(p: (DefectoLaboral, int)): Date { p.0.fechaLaboral }
  function DetTurno(p: (DefectoLaboral, int)): string { p.0.turno }
  function DetDiaTurno(p: (DefectoLaboral, int)): (Date, string) { (p.0.fechaLaboral, p.0.turno) }

  predicate FechaAntes(a: (Date, int), b: (Date, int)) { a.0 < b.0 }
  predicate TurnoAntes(a: (string, int), b: (string, int)) { StrLess(a.0, b.0) }
  predicate DiaTurnoAntes(a: ((Date, string), int), b: ((Date, string), int))
  {
    a.0.0 < b.0.0 || (a.0.0 == b.0.0 && StrLess(a.0.1, b.0.1))
  }

  /** `totalesPorDia`: per labor day, the sum of the detail counts. */
  function TotalesPorDia(data: seq<(DefectoLaboral, int)>): seq<(Date, int)>
  {
    SortBy(GroupSums(data, DetFecha, GroupValue), FechaAntes)
  }

  /** `totalesPorTurno`: per shift, the sum of the detail counts. */
  function TotalesPorTurno(data: seq<(DefectoLaboral, int)>): seq<(string, int)>
  {
    SortBy(GroupSums(data, DetTurno, GroupValue), TurnoAntes)
  }

  /** `totalesPorDiaTurno`: per (labor day, shift), the sum of the detail counts. */
  function TotalesPorDiaTurno(data: seq<(DefectoLaboral, int)>): seq<((Date, string), int)>
  {
    SortBy(GroupSums(data, DetDiaTurno, GroupValue), DiaTurnoAntes)
  }

  function DiaDe(p: ((Date, string), int)): Date { p.0.0 }

  predicate DiaAntes(a: Date, b: Date) { a < b }

  /** Sorting distinct dates keeps exactly them, strictly increasing. */
  lemma OrdenFechas(ds: seq<Date>)
    requires NoDuplicates(ds)
    ensures var r := SortBy(ds, DiaAntes);
      && (forall x :: x in r <==> x in ds)
      && NoDuplicates(r)
      && (forall i, j :: 0 <= i < j < |r| ==> r[i] < r[j])
  {
    var r := SortBy(ds, DiaAntes);
    forall x ensures x in r <==> x in ds {
      assert x in r <==> x in multiset(r);
    }
    assert StrictOrderOn(ds, DiaAntes);
    SortSorted(ds, DiaAntes);
    NoDuplicatesPermutation(ds, r);
    forall i, j | 0 <= i < j < |r| ensures r[i] < r[j] {
      assert r[i] != r[j];
    }
  }

  /** `fechasUnicas`: the distinct days of the pivot totals, ascending. */
  function FechasUnicas(totales: seq<((Date, string), int)>): seq<Date>
  {
    SortBy(Distinct(Map(totales, DiaDe)), DiaAntes)
  }

  /** One line of the pivot block: the day, its three shift cells and the day total. */
  datatype FilaPivot = FilaPivot(fecha: Date, turno1: int, turno2: int, turno3: int, totalDia: int)

  /** `totalesPorDiaTurno.FirstOrDefault(x => x.Fecha == fecha && x.Turno == turno)?.Total ?? 0`. */
  function Celda(totales: seq<((Date, string), int)>, fecha: Date, turno: string): int
  {
    LookupOrZero(totales, (fecha, turno))
  }

  /** The pivot loop: one line per day with the "1", "2" and "3" cells, zero-filled, and their sum. */
  method PivotPorDia(fechas: seq<Date>, totales: seq<((Date, string), int)>) returns (filas: seq<FilaPivot>)
    ensures |filas| == |fechas|
    ensures forall i :: 0 <= i < |filas| ==>
      filas[i].fecha == fechas[i]
      && filas[i].turno1 == Celda(totales, fechas[i], "1")
      && filas[i].turno2 == Celda(totales, fechas[i], "2")
      && filas[i].turno3 == Celda(totales, fechas[i], "3")
      && filas[i].totalDia == filas[i].turno1 + filas[i].turno2 + filas[i].turno3
  {
    filas := [];
    for k := 0 to |fechas|
      invariant |filas| == k
      invariant forall i :: 0 <= i < k ==>
        filas[i].fecha == fechas[i]
        && filas[i].turno1 == Celda(totales, fechas[i], "1")
        && filas[i].turno2 == Celda(totales, fechas[i], "2")
        && filas[i].turno3 == Celda(totales, fechas[i], "3")
        && filas[i].totalDia == filas[i].turno1 + filas[i].turno2 + filas[i].turno3
    {
      var fecha := fechas[k];
      var totalDia := 0;
      var t1 := Celda(totales, fecha, "1");
      totalDia := totalDia + t1;
      var t2 := Celda(totales, fecha, "2");
      totalDia := totalDia + t2;
      var t3 := Celda(totales, fecha, "3");
      totalDia := totalDia + t3;
      filas := filas + [FilaPivot(fecha, t1, t2, t3, totalDia)];
    }
  }

  /**
   * The detail counts, the per-day totals and the per-shift totals each add
   * up to the number of exported defects.
   */
  lemma ExportConservation(defs: seq<DefectoLaboral>)
    ensures SumOf(Detalle(defs), GroupValue) == |defs|
    ensures SumOf(TotalesPorDia(Detalle(defs)), GroupValue) == |defs|
    ensures SumOf(TotalesPorTurno(Detalle(defs)), GroupValue) == |defs|
  {
    var data := Detalle(defs);
    GroupCountsTotal(defs, ClaveDetalle);
    SumOfPermutation(data, GroupCounts(defs, ClaveDetalle), GroupValue);
    GroupSumsTotal(data, DetFecha, GroupValue);
    SumOfPermutation(TotalesPorDia(data), GroupSums(data, DetFecha, GroupValue), GroupValue);
    GroupSumsTotal(data, DetTurno, GroupValue);
    SumOfPermutation(TotalesPorTurno(data), GroupSums(data, DetTurno, GroupValue), GroupValue);
  }

  /**
   * Looking a coarse key up in sorted sums of the detail counts gives the
   * number of exported defects with that key.
   */
  lemma CoarseLookup<C(!new)>(defs: seq<DefectoLaboral>, gk: ((DefectoLaboral, int)) -> C,
                              ck: DefectoLaboral -> C, lt: ((C, int), (C, int)) -> bool, c: C)
    requires forall p: (DefectoLaboral, int) :: gk(p) == ck(p.0)
    ensures LookupOrZero(SortBy(GroupSums(Detalle(defs), gk, GroupValue), lt), c) == CountKey(defs, ck, c)
  {
    var data := Detalle(defs);
    var g := GroupSums(data, gk, GroupValue);
    GroupSumsDistinctKeys(data, gk, GroupValue);
    LookupPermutation(g, SortBy(g, lt), c);
    LookupGroupSums(data, gk, GroupValue, c);
    SumKeyPermutation(data, GroupCounts(defs, ClaveDetalle), gk, c, GroupValue);
    CoarsenCounts(defs, ClaveDetalle, ck, gk, ck, c);
  }

  /** Each pivot cell counts the exported defects of that labor day and shift (0 when none). */
  lemma PivotCell(defs: seq<DefectoLaboral>, fecha: Date, turno: string)
    ensures Celda(TotalesPorDiaTurno(Detalle(defs)), fecha, turno) == CountKey(defs, LabDiaTurno, (fecha, turno))
  {
    CoarseLookup(defs, DetDiaTurno, LabDiaTurno, DiaTurnoAntes, (fecha, turno));
  }

  /** Each per-day total counts the exported defects of that labor day. */
  lemma DayTotal(defs: seq<DefectoLaboral>, fecha: Date)
    ensures LookupOrZero(TotalesPorDia(Detalle(defs)), fecha) == CountKey(defs, LabFecha, fecha)
  {
    CoarseLookup(defs, DetFecha, LabFecha, FechaAntes, fecha);
  }

  lemma {:induction false} DayIsThreeShifts(defs: seq<DefectoLaboral>, fecha: Date)
    requires forall x :: x in defs ==> x.turno == "1" || x.turno == "2" || x.turno == "3"
    ensures CountKey(defs, LabFecha, fecha) ==
      CountKey(defs, LabDiaTurno, (fecha, "1")) + CountKey(defs, LabDiaTurno, (fecha, "2"))
      + CountKey(defs, LabDiaTurno, (fecha, "3"))
  {
    if |defs| > 0 {
      assert forall x :: x in defs[..|defs| - 1] ==> x in defs;
      DayIsThreeShifts(defs[..|defs| - 1], fecha);
      assert defs[|defs| - 1] in defs;
    }
  }

  /**
   * When every exported defect carries shift "1", "2" or "3", a pivot line's
   * Total Día equals the day's entry in "Totales por día"; a defect with any
   * other shift value is in the latter but in no pivot cell.
   */
  lemma PivotDayMatchesDayTotal(defs: seq<DefectoLaboral>, fecha: Date)
    requires forall x :: x in defs ==> x.turno == "1" || x.turno == "2" || x.turno == "3"
    ensures var t := TotalesPorDiaTurno(Detalle(defs));
      Celda(t, fecha, "1") + Celda(t, fecha, "2") + Celda(t, fecha, "3")
      == LookupOrZero(TotalesPorDia(Detalle(defs)), fecha)
  {
    PivotCell(defs, fecha, "1");
    PivotCell(defs, fecha, "2");
    PivotCell(defs, fecha, "3");
    DayTotal(defs, fecha);
    DayIsThreeShifts(defs, fecha);
  }

  /** A day of the pivot totals comes from an exported defect of that labor day. */
  lemma FechaUnicaHasDefect(defs: seq<DefectoLaboral>, f: Date)
    requires f in FechasUnicas(TotalesPorDiaTurno(Detalle(defs)))
    ensures exists x :: x in defs && x.fechaLaboral == f
  {
    var data := Detalle(defs);
    var t := TotalesPorDiaTurno(data);
    var ds := Distinct(Map(t, DiaDe));
    assert f in multiset(ds);
    MapMembers(t, DiaDe, f);
    var p :| p in t && DiaDe(p) == f;
    assert p in multiset(t);
    GroupSumsMembers(data, DetDiaTurno, GroupValue, p);
    var q :| q in data && DetDiaTurno(q) == p.0;
    assert q in multiset(data);
    GroupCountsMembers(defs, ClaveDetalle, q);
    var x :| x in defs && ClaveDetalle(x) == q.0;
  }

  /** Every labor day with an exported defect is among the pivot's days. */
  lemma DefectDayIsFechaUnica(defs: seq<DefectoLaboral>, x: DefectoLaboral)
    requires x in defs
    ensures x.fechaLaboral in FechasUnicas(TotalesPorDiaTurno(Detalle(defs)))
  {
    var q := DetalleDe(defs, x);
    var p := TotalDe(Detalle(defs), q);
    DiaEnFechasUnicas(TotalesPorDiaTurno(Detalle(defs)), p);
  }

  /** Each exported defect has its detail line. */
  lemma DetalleDe(defs: seq<DefectoLaboral>, x: DefectoLaboral) returns (q: (DefectoLaboral, int))
    requires x in defs
    ensures q in Detalle(defs) && q.0 == x
  {
    var gc := GroupCounts(defs, ClaveDetalle);
    var ks := KeysOf(defs, ClaveDetalle);
    assert ClaveDetalle(x) == x;
    assert x in ks;
    var i :| 0 <= i < |ks| && ks[i] == x;
    q := gc[i];
    assert q in multiset(gc);
  }

  /** Each detail line's (day, shift) has its total line. */
  lemma TotalDe(data: seq<(DefectoLaboral, int)>, q: (DefectoLaboral, int)) returns (p: ((Date, string), int))
    requires q in data
    ensures p in TotalesPorDiaTurno(data) && DiaDe(p) == q.0.fechaLaboral
  {
    var g := GroupSums(data, DetDiaTurno, GroupValue);
    var kd := KeysOf(data, DetDiaTurno);
    assert DetDiaTurno(q) in kd;
    var j :| 0 <= j < |kd| && kd[j] == DetDiaTurno(q);
    p := g[j];
    assert p in multiset(g);
  }

  /** Each total line's day is among the pivot's days. */
  lemma DiaEnFechasUnicas(t: seq<((Date, string), int)>, p: ((Date, string), int))
    requires p in t
    ensures DiaDe(p) in FechasUnicas(t)
  {
    MapMembers(t, DiaDe, DiaDe(p));
    var ds := Distinct(Map(t, DiaDe));
    assert DiaDe(p) in multiset(ds);
  }

  /** A pivot day line exists exactly for each labor day with an exported defect, ascending. */
  lemma FechasUnicasSpec(defs: seq<DefectoLaboral>)
    ensures var fs := FechasUnicas(TotalesPorDiaTurno(Detalle(defs)));
      && (forall f :: f in fs <==> exists x :: x in defs && x.fechaLaboral == f)
      && (forall i, j :: 0 <= i < j < |fs| ==> fs[i] < fs[j])
  {
    var t := TotalesPorDiaTurno(Detalle(defs));
    var fs := FechasUnicas(t);
    forall f | f in fs ensures exists x :: x in defs && x.fechaLaboral == f {
      FechaUnicaHasDefect(defs, f);
    }
    forall x | x in defs ensures x.fechaLaboral in fs {
      DefectDayIsFechaUnica(defs, x);
    }
    OrdenFechas(Distinct(Map(t, DiaDe)));
  }

  lemma DetalleAntesStrict(dom: seq<(DefectoLaboral, int)>)
    ensures StrictOrderOn(dom, DetalleAntes)
  {
    forall a, b, c | a in dom && b in dom && c in dom
      ensures !DetalleAntes(a, a)
      ensures DetalleAntes(a, b) && DetalleAntes(b, c) ==> DetalleAntes(a, c)
    {
      StrPairLessStrict((a.0.turno, a.0.mandrel), (b.0.turno, b.0.mandrel), (c.0.turno, c.0.mandrel));
    }
  }

  /**
   * Each detail line is a distinct exported row with its multiplicity, no
   * row is missing, and lines come in (Fecha, Turno, Mandril) order.
   */
  lemma DetalleSpec(defs: seq<DefectoLaboral>)
    ensures var data := Detalle(defs);
      && (forall p :: p in data ==> p.0 in defs && p.1 == CountKey(defs, ClaveDetalle, p.0) && p.1 >= 1)
      && (forall x :: x in defs ==> exists p :: p in data && p.0 == x)
      && SortedBy(data, DetalleAntes)
  {
    var gc := GroupCounts(defs, ClaveDetalle);
    var data := Detalle(defs);
    forall p | p in data ensures p.0 in defs && p.1 == CountKey(defs, ClaveDetalle, p.0) && p.1 >= 1 {
      assert p in multiset(data);
      GroupCountsMembers(defs, ClaveDetalle, p);
      var x :| x in defs && ClaveDetalle(x) == p.0;
    }
    forall x | x in defs ensures exists p :: p in data && p.0 == x {
      var ks := KeysOf(defs, ClaveDetalle);
      assert ClaveDetalle(x) == x;
      assert x in ks;
      var i :| 0 <= i < |ks| && ks[i] == x;
      assert gc[i] in multiset(gc);
      assert gc[i] in data;
    }
    DetalleAntesStrict(gc);
    SortSorted(gc, DetalleAntes);
  }

  // ---------------------------------------------------------------------
  // GetTop5Defectos / GetTop5Mandriles
  // ---------------------------------------------------------------------

  function CodigoDefectoDe(d: Defecto): (string, string) { (d.codigo, d.defecto) }

  /** OrderByDescending(Total). */
  predicate MasPiezas<K>(a: (K, int), b: (K, int)) { a.1 > b.1 }

  function TotalReal<K>(p: (K, int)): real { p.1 as real }

  function GetTop5Defectos(tabla: seq<Defecto>, inicio: Date, fin: Date): seq<((string, string), int)>
  {
    TopBy(GroupCounts(DefectosDelRango(tabla, inicio, fin), CodigoDefectoDe), MasPiezas, 5)
  }

  function GetTop5Mandriles(tabla: seq<Defecto>, inicio: Date, fin: Date): seq<(string, int)>
  {
    TopBy(GroupCounts(DefectosDelRango(tabla, inicio, fin), DefMandrel), MasPiezas, 5)
  }

  /**
   * Top-N of grouped counts: at most n groups, each with its true size,
   * sizes non-increasing, and no group left out is larger than one kept.
   */
  lemma TopGroups<K(!new)>(rows: seq<Defecto>, key: Defecto -> K, n: nat)
    ensures var g := GroupCounts(rows, key);
            var r := TopBy(g, MasPiezas, n);
      && |r| <= n
      && (forall p :: p in r ==> p.1 == CountKey(rows, key, p.0) && p.1 >= 1)
      && (forall i, j :: 0 <= i < j < |r| ==> r[i].1 >= r[j].1)
      && (forall p, q :: p in g && p !in r && q in r ==> q.1 >= p.1)
  {
    var g := GroupCounts(rows, key);
    var r := TopBy(g, MasPiezas, n);
    assert forall a: (K, int), b: (K, int) :: MasPiezas(a, b) == (TotalReal(a) > TotalReal(b));
    TopByRanks(g, MasPiezas, TotalReal, n);
    forall p | p in r ensures p.1 == CountKey(rows, key, p.0) && p.1 >= 1 {
      GroupCountsMembers(rows, key, p);
    }
    forall i, j | 0 <= i < j < |r| ensures r[i].1 >= r[j].1 {
      assert TotalReal(r[i]) >= TotalReal(r[j]);
    }
    forall p, q | p in g && p !in r && q in r ensures q.1 >= p.1 {
      assert TotalReal(q) >= TotalReal(p);
    }
  }

  lemma GetTop5DefectosSpec(tabla: seq<Defecto>, inicio: Date, fin: Date)
    ensures var rows := DefectosDelRango(tabla, inicio, fin);
            var r := GetTop5Defectos(tabla, inicio, fin);
      && |r| <= 5
      && (forall p :: p in r ==> p.1 == CountKey(rows, CodigoDefectoDe, p.0) && p.1 >= 1)
      && (forall i, j :: 0 <= i < j < |r| ==> r[i].1 >= r[j].1)
      && (forall p, q :: p in GroupCounts(rows, CodigoDefectoDe) && p !in r && q in r ==> q.1 >= p.1)
  {
    TopGroups(DefectosDelRango(tabla, inicio, fin), CodigoDefectoDe, 5);
  }

  lemma GetTop5MandrilesSpec(tabla: seq<Defecto>, inicio: Date, fin: Date)
    ensures var rows := DefectosDelRango(tabla, inicio, fin);
            var r := GetTop5Mandriles(tabla, inicio, fin);
      && |r| <= 5
      && (forall p :: p in r ==> p.1 == CountKey(rows, DefMandrel, p.0) && p.1 >= 1)
      && (forall i, j :: 0 <= i < j < |r| ==> r[i].1 >= r[j].1)
      && (forall p, q :: p in GroupCounts(rows, DefMandrel) && p !in r && q in r ==> q.1 >= p.1)
  {
    TopGroups(DefectosDelRango(tabla, inicio, fin), DefMandrel, 5);
  }
}
