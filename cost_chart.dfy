/**
 * GetTopMandrilesPorDia: the stacked cost chart. Bars are grouped by family
 * (ordinal order), each family showing its Top-5 mandrels by cost, families
 * separated by a "." bar; each bar stacks the costs of its mandrel's Top-3
 * codes by count, one dataset per code.
 *
 * The source labels a bar `familia + " - " + mandril` and later recovers the
 * mandrel with `Split(" - ")[1]`; the model keeps the bar structured
 * (`Etiqueta`) and shows separately what the text round trip does.
 */
module CostChart {
  import opened Collections
  import opened Text
  import opened Sorting
  import opened ShiftCalendar
  import opened Records
  import opened LaborDays
  import opened DefectReports
  import opened CostRollups
  import opened CostSheets

  /** `mandrilesValidos.Contains(d.Mandrel)` in the database: some catalogued name is SQL-equal to `m`. */
  predicate CatalogadoSql(info: Catalogo, m: string)
  {
    exists k :: k in info && IgualSql(m, k)
  }

  /**
   * The defects the database selects: a catalogued mandrel, then the optional
   * mandrel and code lists. The three `Contains` run as SQL `IN`, so case and
   * trailing spaces are ignored.
   */
  function Seleccionados(info: Catalogo, tabla: seq<Defecto>, mandriles: seq<string>, codigos: seq<string>): (r: seq<Defecto>)
    ensures forall d :: d in r <==>
      d in tabla && CatalogadoSql(info, d.mandrel)
      && (|mandriles| == 0 || EnSql(d.mandrel, mandriles)) && (|codigos| == 0 || EnSql(d.codigo, codigos))
    ensures multiset(r) <= multiset(tabla)
  {
    Filter(tabla, (d: Defecto) => CatalogadoSql(info, d.mandrel)
      && (|mandriles| == 0 || EnSql(d.mandrel, mandriles)) && (|codigos| == 0 || EnSql(d.codigo, codigos)))
  }

  /**
   * Where the selection is exact: when no defect spells its mandrel or code
   * as a case or trailing-space variant of a catalog name or a list entry,
   * the database keeps exactly the defects an in-memory `Contains` would.
   */
  lemma SeleccionExacta(info: Catalogo, tabla: seq<Defecto>, mandriles: seq<string>, codigos: seq<string>)
    requires forall d, k :: d in tabla && k in info && IgualSql(d.mandrel, k) ==> d.mandrel == k
    requires forall d, m :: d in tabla && m in mandriles && IgualSql(d.mandrel, m) ==> d.mandrel == m
    requires forall d, c :: d in tabla && c in codigos && IgualSql(d.codigo, c) ==> d.codigo == c
    ensures forall d :: d in Seleccionados(info, tabla, mandriles, codigos) <==>
      d in tabla && d.mandrel in info
      && (|mandriles| == 0 || d.mandrel in mandriles) && (|codigos| == 0 || d.codigo in codigos)
  {
    forall d | d in tabla
      ensures CatalogadoSql(info, d.mandrel) <==> d.mandrel in info
      ensures EnSql(d.mandrel, mandriles) <==> d.mandrel in mandriles
      ensures EnSql(d.codigo, codigos) <==> d.codigo in codigos
    {
      if d.mandrel in info { assert IgualSql(d.mandrel, d.mandrel); }
      EnSqlDeMiembro(d.mandrel, mandriles);
      EnSqlDeMiembro(d.codigo, codigos);
    }
  }

  /**
   * `mandrilInfo[d.Mandrel]` throws KeyNotFoundException: a chart defect
   * whose mandrel the database matched is no exact key of the in-memory
   * dictionary.
   */
  predicate FallaGrafica(info: Catalogo, defs: seq<Defecto>)
  {
    exists d :: d in defs && d.mandrel !in info
  }

  /**
   * The chart's defects: catalogued mandrels, the optional mandrel and code
   * lists, inline labor day in range. The filters commute with the date
   * fetch, so they are applied first; the fetch window is [inicio - 1, fin + 1].
   */
  function DefectosGrafica(info: Catalogo, tabla: seq<Defecto>, inicio: Date, fin: Date,
                           mandriles: seq<string>, codigos: seq<string>): (r: seq<Defecto>)
    ensures forall d :: d in r <==> d in Seleccionados(info, tabla, mandriles, codigos) && inicio <= DiaInline(d) <= fin
  {
    ChartRows(Seleccionados(info, tabla, mandriles, codigos), DefFecha, DefHora, inicio, fin)
  }

  /** The chart's defects as the source fetches them: calendar dates [inicio - 1, fin] only. */
  function DefectosGraficaAsWritten(info: Catalogo, tabla: seq<Defecto>, inicio: Date, fin: Date,
                                    mandriles: seq<string>, codigos: seq<string>): seq<Defecto>
  {
    ChartRowsAsWritten(Seleccionados(info, tabla, mandriles, codigos), DefFecha, DefHora, inicio, fin)
  }

  /**
   * As written the chart holds the corrected chart's defects that are not
   * dated after fin: it drops the early-morning defects of day fin + 1,
   * whose labor day is fin.
   */
  lemma DefectosGraficaAsWrittenSpec(info: Catalogo, tabla: seq<Defecto>, inicio: Date, fin: Date,
                                     mandriles: seq<string>, codigos: seq<string>)
    ensures forall d :: (d in DefectosGraficaAsWritten(info, tabla, inicio, fin, mandriles, codigos)
      <==> d in DefectosGrafica(info, tabla, inicio, fin, mandriles, codigos) && d.fecha <= fin)
  {
    ChartRowsAsWrittenSpec(Seleccionados(info, tabla, mandriles, codigos), DefFecha, DefHora, inicio, fin);
  }

  /** `mandrilInfo[d.Mandrel].Familia`, i.e. `Familia ?? "SIN FAMILIA"`. */
  function FamiliaDefecto(info: Catalogo): Defecto -> string
  {
    (d: Defecto) => FamiliaIngenieria(info, d.mandrel)
  }

  /** `GroupBy(familia).Select(g => g.Key).OrderBy(f => f)`. */
  function FamiliasGrafica(info: Catalogo, defs: seq<Defecto>): seq<string>
  {
    SortBy(KeysOf(defs, FamiliaDefecto(info)), Ascendente)
  }

  /** A family's Top-5 mandrels by count x unit cost. */
  function TopFamilia(info: Catalogo, defs: seq<Defecto>, f: string): seq<string>
  {
    Map(TopPorCosto(DeFamilia(info, defs, f), DefMandrel, CostoUnitario(info), 5),
        (c: Costeado<string>) => c.clave)
  }

  /** `topMandrilesPorFamilia`. */
  function TopPorFamilia(info: Catalogo, defs: seq<Defecto>): (top: map<string, seq<string>>)
    ensures forall f :: f in top <==> f in FamiliasGrafica(info, defs)
  {
    map f | f in FamiliasGrafica(info, defs) :: TopFamilia(info, defs, f)
  }

  lemma FamiliasGraficaSpec(info: Catalogo, defs: seq<Defecto>)
    ensures var r := FamiliasGrafica(info, defs);
      && (forall f :: f in r <==> exists d :: d in defs && FamiliaIngenieria(info, d.mandrel) == f)
      && (forall i, j :: 0 <= i < j < |r| ==> StrLess(r[i], r[j]))
  {
    OrdenAscendente(KeysOf(defs, FamiliaDefecto(info)));
  }

  /** The keys of a Top-N by cost: at most n, each a real key, by non-increasing count x unit cost. */
  lemma TopClavesSpec<T(!new), K(!new)>(rows: seq<T>, key: T -> K, unit: K -> real, n: nat)
    ensures var r := Map(TopPorCosto(rows, key, unit, n), (c: Costeado<K>) => c.clave);
      && |r| <= n
      && (forall k :: k in r ==> k in KeysOf(rows, key))
      && (forall i, j :: 0 <= i < j < |r| ==>
            Veces(CountKey(rows, key, r[i]), unit(r[i])) >= Veces(CountKey(rows, key, r[j]), unit(r[j])))
  {
    var top := TopPorCosto(rows, key, unit, n);
    var r := Map(top, (c: Costeado<K>) => c.clave);
    TopPorCostoSpec(rows, key, unit, n);
    forall k | k in r ensures k in KeysOf(rows, key) {
      var i :| 0 <= i < |r| && r[i] == k;
      assert top[i] in top;
      CosteadosMembers(rows, key, unit, top[i]);
    }
    forall i, j | 0 <= i < j < |r|
      ensures Veces(CountKey(rows, key, r[i]), unit(r[i])) >= Veces(CountKey(rows, key, r[j]), unit(r[j]))
    {
      assert top[i] in top && top[j] in top;
    }
  }

  /** A family's rows. */
  function DeFamilia(info: Catalogo, defs: seq<Defecto>, f: string): seq<Defecto>
  {
    Filter(defs, (d: Defecto) => FamiliaDefecto(info)(d) == f)
  }

  /** A family's Top-5 holds at most 5 mandrels, each with a defect of that family. */
  lemma TopFamiliaMiembros(info: Catalogo, defs: seq<Defecto>, f: string)
    ensures var r := TopFamilia(info, defs, f);
      && |r| <= 5
      && forall m :: m in r ==> exists d :: d in defs && d.mandrel == m && FamiliaIngenieria(info, m) == f
  {
    var fam := DeFamilia(info, defs, f);
    var r := TopFamilia(info, defs, f);
    TopClavesSpec(fam, DefMandrel, CostoUnitario(info), 5);
    assert r == Map(TopPorCosto(fam, DefMandrel, CostoUnitario(info), 5), (c: Costeado<string>) => c.clave);
    forall m | m in r ensures exists d :: d in defs && d.mandrel == m && FamiliaIngenieria(info, m) == f {
      assert m in KeysOf(fam, DefMandrel);
      var d :| d in fam && DefMandrel(d) == m;
      assert d in defs && FamiliaDefecto(info)(d) == f;
    }
  }

  /** A family's Top-5 runs by non-increasing count x unit cost within the family. */
  lemma TopFamiliaOrden(info: Catalogo, defs: seq<Defecto>, f: string)
    ensures var fam := DeFamilia(info, defs, f);
            var r := TopFamilia(info, defs, f);
      forall i, j :: 0 <= i < j < |r| ==>
        Veces(CountKey(fam, DefMandrel, r[i]), CostoDe(info, r[i]))
        >= Veces(CountKey(fam, DefMandrel, r[j]), CostoDe(info, r[j]))
  {
    TopClavesSpec(DeFamilia(info, defs, f), DefMandrel, CostoUnitario(info), 5);
  }

  // ---------------------------------------------------------------------
  // The x axis
  // ---------------------------------------------------------------------

  /** A bar of the x axis: a family separator "." or a (family, mandrel) bar. */
  datatype Etiqueta = Separador | Barra(familia: string, mandril: string)

  const Sep: string := " - "

  /** The label text: "." or `$"{fam} - {mandril}"`. */
  function Texto(e: Etiqueta): string
  {
    match e
    case Separador => "."
    case Barra(f, m) => f + Sep + m
  }

  function Bloque(f: string, ms: seq<string>): seq<Etiqueta>
  {
    Map(ms, (m: string) => Barra(f, m))
  }

  /** Every family's bars, each block followed by a separator (before the trailing one is removed). */
  function ConSeparadores(familias: seq<string>, top: map<string, seq<string>>): seq<Etiqueta>
    requires forall f :: f in familias ==> f in top
  {
    if |familias| == 0 then []
    else
      var f := familias[|familias| - 1];
      ConSeparadores(familias[..|familias| - 1], top) + Bloque(f, top[f]) + [Separador]
  }

  predicate EsSeparador(e: Etiqueta) { e.Separador? }

  /** A family's block holds exactly its mandrels' bars and no separator. */
  lemma BloqueSpec(f: string, ms: seq<string>)
    ensures CountIf(Bloque(f, ms), EsSeparador) == 0
    ensures forall g, m :: Barra(g, m) in Bloque(f, ms) <==> g == f && m in ms
  {
    var b := Bloque(f, ms);
    forall g, m ensures Barra(g, m) in b <==> g == f && m in ms {
      if Barra(g, m) in b {
        var i :| 0 <= i < |b| && b[i] == Barra(g, m);
        assert ms[i] == m;
      }
      if g == f && m in ms {
        var i :| 0 <= i < |ms| && ms[i] == m;
        assert b[i] == Barra(g, m);
      }
    }
  }

  /** One separator per family. */
  lemma {:induction false} ConSeparadoresCount(familias: seq<string>, top: map<string, seq<string>>)
    requires forall f :: f in familias ==> f in top
    ensures CountIf(ConSeparadores(familias, top), EsSeparador) == |familias|
  {
    if |familias| > 0 {
      var fs, f := familias[..|familias| - 1], familias[|familias| - 1];
      var a := ConSeparadores(fs, top);
      var b := Bloque(f, top[f]);
      ConSeparadoresCount(fs, top);
      BloqueSpec(f, top[f]);
      FilterAppend(a, b, EsSeparador);
      FilterAppend(a + b, [Separador], EsSeparador);
    }
  }

  /** The bars are exactly each listed family's mandrels. */
  lemma {:induction false} ConSeparadoresBarras(familias: seq<string>, top: map<string, seq<string>>)
    requires forall f :: f in familias ==> f in top
    ensures forall f, m :: Barra(f, m) in ConSeparadores(familias, top) <==> f in familias && m in top[f]
  {
    if |familias| > 0 {
      var fs, f := familias[..|familias| - 1], familias[|familias| - 1];
      var a, b := ConSeparadores(fs, top), Bloque(f, top[f]);
      assert ConSeparadores(familias, top) == a + b + [Separador];
      ConSeparadoresBarras(fs, top);
      BloqueSpec(f, top[f]);
      assert familias == fs + [f];
      forall g, m ensures Barra(g, m) in a + b + [Separador] <==> g in familias && m in top[g] {
        assert Barra(g, m) in a + b + [Separador] <==> Barra(g, m) in a || Barra(g, m) in b;
        assert g in familias <==> g in fs || g == f;
      }
    }
  }

  lemma ConSeparadoresSpec(familias: seq<string>, top: map<string, seq<string>>)
    requires forall f :: f in familias ==> f in top
    ensures var r := ConSeparadores(familias, top);
      && CountIf(r, EsSeparador) == |familias|
      && (forall f, m :: Barra(f, m) in r <==> f in familias && m in top[f])
      && (|familias| > 0 ==> |r| > 0 && r[|r| - 1] == Separador)
  {
    ConSeparadoresCount(familias, top);
    ConSeparadoresBarras(familias, top);
  }

  /** The labels loop proper: each family's bars followed by ".". */
  method EtiquetasConSeparadores(familias: seq<string>, top: map<string, seq<string>>) returns (labels: seq<Etiqueta>)
    requires forall f :: f in familias ==> f in top
    ensures labels == ConSeparadores(familias, top)
  {
    labels := [];
    for k := 0 to |familias|
      invariant labels == ConSeparadores(familias[..k], top)
    {
      var fam := familias[k];
      var ms := top[fam];
      ghost var antes := labels;
      for j := 0 to |ms|
        invariant labels == antes + Bloque(fam, ms[..j])
      {
        BloquePaso(fam, ms, j);
        labels := labels + [Barra(fam, ms[j])];
      }
      assert ms[..|ms|] == ms;
      labels := labels + [Separador];
      ConSeparadoresPaso(familias, top, k);
    }
    assert familias[..|familias|] == familias;
  }

  /**
   * The labels: every family's bars with "." after each, then the trailing
   * "." removed (`labels.Last() == "."` always holds, since the last block
   * ends with one). The caller has returned early when there are no defects,
   * so there is at least one family.
   */
  method ConstruirEtiquetas(familias: seq<string>, top: map<string, seq<string>>) returns (labels: seq<Etiqueta>)
    requires |familias| > 0
    requires forall f :: f in familias ==> f in top
    ensures labels + [Separador] == ConSeparadores(familias, top)
    ensures CountIf(labels, EsSeparador) == |familias| - 1
    ensures forall f, m :: Barra(f, m) in labels <==> f in familias && m in top[f]
  {
    labels := EtiquetasConSeparadores(familias, top);
    ConSeparadoresSpec(familias, top);
    QuitarUltimo(labels);
    if labels[|labels| - 1] == Separador {
      labels := labels[..|labels| - 1];
    }
  }

  lemma BloquePaso(f: string, ms: seq<string>, j: int)
    requires 0 <= j < |ms|
    ensures Bloque(f, ms[..j + 1]) == Bloque(f, ms[..j]) + [Barra(f, ms[j])]
  {
    assert ms[..j + 1] == ms[..j] + [ms[j]];
  }

  lemma ConSeparadoresPaso(familias: seq<string>, top: map<string, seq<string>>, k: int)
    requires 0 <= k < |familias|
    requires forall f :: f in familias ==> f in top
    ensures forall f :: f in familias[..k] ==> f in top
    ensures ConSeparadores(familias[..k + 1], top)
         == ConSeparadores(familias[..k], top) + Bloque(familias[k], top[familias[k]]) + [Separador]
  {
    assert familias[..k + 1][..k] == familias[..k];
  }

  /** Dropping a trailing separator keeps every bar and one separator fewer. */
  lemma QuitarUltimo(c: seq<Etiqueta>)
    requires |c| > 0 && c[|c| - 1] == Separador
    ensures var r := c[..|c| - 1];
      && r + [Separador] == c
      && CountIf(r, EsSeparador) == CountIf(c, EsSeparador) - 1
      && forall f, m :: Barra(f, m) in r <==> Barra(f, m) in c
  {
    var r := c[..|c| - 1];
    assert c == r + [Separador];
    FilterAppend(r, [Separador], EsSeparador);
  }

  /** The chart's bars as a function of the chart's defects. */
  function EtiquetasGrafica(info: Catalogo, defs: seq<Defecto>): seq<Etiqueta>
  {
    var c := ConSeparadores(FamiliasGrafica(info, defs), TopPorFamilia(info, defs));
    if |c| == 0 then [] else c[..|c| - 1]
  }

  // ---------------------------------------------------------------------
  // The bars' Top-3 codes
  // ---------------------------------------------------------------------

  /** A mandrel's Top-3 codes by count, priced at its unit cost. */
  function CodigosDeMandril(info: Catalogo, defs: seq<Defecto>, m: string): seq<Costeado<string>>
  {
    TopPorPiezas(DeMandril(defs, m), DefCodigo, (_: string) => CostoDe(info, m), 3)
  }

  /** A bar's list: empty for a separator, the mandrel's Top-3 codes otherwise. */
  function ListaDe(info: Catalogo, defs: seq<Defecto>, e: Etiqueta): seq<Costeado<string>>
  {
    match e
    case Separador => []
    case Barra(_, m) => CodigosDeMandril(info, defs, m)
  }

  /** The per-label loop filling `defectosPorMandril`, keyed by bar. */
  method DefectosPorEtiqueta(info: Catalogo, defs: seq<Defecto>, labels: seq<Etiqueta>)
    returns (porEtiqueta: map<Etiqueta, seq<Costeado<string>>>)
    ensures forall e :: e in porEtiqueta <==> e in labels
    ensures forall e :: e in porEtiqueta ==> porEtiqueta[e] == ListaDe(info, defs, e)
  {
    porEtiqueta := map[];
    for k := 0 to |labels|
      invariant forall e :: e in porEtiqueta <==> e in labels[..k]
      invariant forall e :: e in porEtiqueta ==> porEtiqueta[e] == ListaDe(info, defs, e)
    {
      var e := labels[k];
      if e.Separador? {
        porEtiqueta := porEtiqueta[e := []];
      } else {
        porEtiqueta := porEtiqueta[e := CodigosDeMandril(info, defs, e.mandril)];
      }
      assert labels[..k + 1] == labels[..k] + [e];
    }
    assert labels[..|labels|] == labels;
  }

  /**
   * A bar's codes: at most 3, each a code of that mandrel's chart defects
   * with its count (non-increasing) and count x unit cost, no code twice.
   */
  lemma CodigosDeMandrilSpec(info: Catalogo, defs: seq<Defecto>, m: string)
    ensures var r := CodigosDeMandril(info, defs, m);
      && |r| <= 3
      && (forall c :: c in r ==>
            c.piezas == CountKey(DeMandril(defs, m), DefCodigo, c.clave) && c.piezas >= 1
            && c.costo == Veces(c.piezas, CostoDe(info, m)))
      && (forall i, j :: 0 <= i < j < |r| ==> r[i].piezas >= r[j].piezas && r[i].clave != r[j].clave)
  {
    TopPorPiezasKept(DeMandril(defs, m), DefCodigo, (_: string) => CostoDe(info, m), 3);
  }

  function Claves(l: seq<Costeado<string>>): seq<string>
  {
    Map(l, (c: Costeado<string>) => c.clave)
  }

  /** `defectosUnicos`: the codes of every bar's list, first occurrence first, once each. */
  function CodigosUnicos(info: Catalogo, defs: seq<Defecto>, labels: seq<Etiqueta>): (r: seq<string>)
    ensures NoDuplicates(r)
    ensures forall c :: c in r <==> exists e :: e in labels && c in Claves(ListaDe(info, defs, e))
  {
    Distinct(Flatten(Map(labels, (e: Etiqueta) => Claves(ListaDe(info, defs, e)))))
  }

  // ---------------------------------------------------------------------
  // The datasets
  // ---------------------------------------------------------------------

  /** `FirstOrDefault(x => x.Codigo == codigo)`. */
  function PrimeroCon(l: seq<Costeado<string>>, c: string): (r: Option<Costeado<string>>)
    ensures r.Some? ==> r.value in l && r.value.clave == c
    ensures r.None? ==> forall x :: x in l ==> x.clave != c
  {
    if |l| == 0 then None
    else if l[0].clave == c then Some(l[0])
    else PrimeroCon(l[1..], c)
  }

  /** One stacked cell: 0 under a separator, else the code's cost in the bar's list, 0 if absent. */
  function CeldaGrafica(e: Etiqueta, l: seq<Costeado<string>>, c: string): real
  {
    if e.Separador? then 0.0
    else match PrimeroCon(l, c)
      case None => 0.0
      case Some(x) => x.costo
  }

  /** A dataset: its code ("Defecto " + codigo in the source) and one cost per bar. */
  datatype Dataset = Dataset(codigo: string, data: seq<real>)

  /** The datasets loop: one dataset per code, one cell per bar. */
  method ConstruirDatasets(codigos: seq<string>, labels: seq<Etiqueta>, porEtiqueta: map<Etiqueta, seq<Costeado<string>>>)
    returns (datasets: seq<Dataset>)
    requires forall e :: e in labels ==> e in porEtiqueta
    ensures |datasets| == |codigos|
    ensures forall i :: 0 <= i < |codigos| ==> datasets[i].codigo == codigos[i] && |datasets[i].data| == |labels|
    ensures forall i, j :: 0 <= i < |codigos| && 0 <= j < |labels| ==>
      datasets[i].data[j] == CeldaGrafica(labels[j], porEtiqueta[labels[j]], codigos[i])
  {
    datasets := [];
    for i := 0 to |codigos|
      invariant |datasets| == i
      invariant forall a :: 0 <= a < i ==> datasets[a].codigo == codigos[a] && |datasets[a].data| == |labels|
      invariant forall a, j :: 0 <= a < i && 0 <= j < |labels| ==>
        datasets[a].data[j] == CeldaGrafica(labels[j], porEtiqueta[labels[j]], codigos[a])
    {
      var codigo := codigos[i];
      var data: seq<real> := [];
      for j := 0 to |labels|
        invariant |data| == j
        invariant forall b :: 0 <= b < j ==> data[b] == CeldaGrafica(labels[b], porEtiqueta[labels[b]], codigo)
      {
        var etiqueta := labels[j];
        if etiqueta == Separador {
          data := data + [0.0];
        } else {
          var def := PrimeroCon(porEtiqueta[etiqueta], codigo);
          data := data + [if def.Some? then def.value.costo else 0.0];
        }
      }
      datasets := datasets + [Dataset(codigo, data)];
    }
  }

  /** In a list that names each code once, the first entry for a code is that code's cost sum. */
  lemma {:induction false} PrimeroConUnico(l: seq<Costeado<string>>, c: string)
    requires forall i, j :: 0 <= i < j < |l| ==> l[i].clave != l[j].clave
    ensures SumKeyReal(l, (x: Costeado<string>) => x.clave, c, CostoDeFila)
         == match PrimeroCon(l, c) case None => 0.0 case Some(x) => x.costo
  {
    var key := (x: Costeado<string>) => x.clave;
    if |l| > 0 {
      var t := l[1..];
      assert l == [l[0]] + t;
      PrimeroConUnico(t, c);
      SumKeyRealCons(l[0], t, key, c, CostoDeFila);
      if l[0].clave == c {
        assert forall x :: x in t ==> key(x) != c by {
          forall x | x in t ensures key(x) != c {
            var j :| 0 <= j < |t| && t[j] == x;
            assert l[j + 1] == x;
          }
        }
      }
    }
  }

  /** SumKeyReal over a list with one element put in front. */
  lemma {:induction false} SumKeyRealCons<T(!new), K(!new)>(x: T, t: seq<T>, key: T -> K, k: K, val: T -> real)
    ensures SumKeyReal([x] + t, key, k, val) == (if key(x) == k then val(x) else 0.0) + SumKeyReal(t, key, k, val)
  {
    if |t| > 0 {
      var t', y := t[..|t| - 1], t[|t| - 1];
      SumKeyRealCons(x, t', key, k, val);
      assert ([x] + t)[..|[x] + t| - 1] == [x] + t';
    }
  }

  /**
   * A bar's stack height: over codes that name every code of the bar's list
   * once, the cells add up to the total cost of the list.
   */
  lemma StackHeight(e: Etiqueta, l: seq<Costeado<string>>, codigos: seq<string>)
    requires e.Barra?
    requires forall i, j :: 0 <= i < j < |l| ==> l[i].clave != l[j].clave
    requires NoDuplicates(codigos)
    requires forall x :: x in l ==> x.clave in codigos
    ensures SumReal(codigos, (c: string) => CeldaGrafica(e, l, c)) == SumReal(l, CostoDeFila)
  {
    var key := (x: Costeado<string>) => x.clave;
    var cell := (c: string) => CeldaGrafica(e, l, c);
    forall c ensures cell(c) == SumKeyReal(l, key, c, CostoDeFila) {
      PrimeroConUnico(l, c);
    }
    SumRealByKeys(l, key, codigos, cell, CostoDeFila);
    SumRealConservation(l, key, codigos, CostoDeFila);
  }

  // ---------------------------------------------------------------------
  // The endpoint
  // ---------------------------------------------------------------------

  /**
   * The bars: each family of the chart's defects contributes exactly its
   * Top-5 mandrels, and families are parted by one separator each.
   */
  lemma EtiquetasGraficaSpec(info: Catalogo, defs: seq<Defecto>)
    requires |defs| > 0
    ensures var r := EtiquetasGrafica(info, defs);
      && CountIf(r, EsSeparador) == |FamiliasGrafica(info, defs)| - 1
      && forall f, m :: Barra(f, m) in r <==>
           (exists d :: d in defs && FamiliaIngenieria(info, d.mandrel) == f) && m in TopFamilia(info, defs, f)
  {
    var familias := FamiliasGrafica(info, defs);
    var top := TopPorFamilia(info, defs);
    var c := ConSeparadores(familias, top);
    FamiliasGraficaSpec(info, defs);
    assert defs[0] in defs;
    assert FamiliaIngenieria(info, defs[0].mandrel) in familias;
    ConSeparadoresSpec(familias, top);
    QuitarUltimo(c);
    var r := c[..|c| - 1];
    assert EtiquetasGrafica(info, defs) == r;
    forall f, m ensures Barra(f, m) in r <==> f in familias && m in TopFamilia(info, defs, f) {
      if f in familias {
        assert top[f] == TopFamilia(info, defs, f);
      }
    }
  }

  /** The chart for a non-empty set of defects: bars, then one dataset per code. */
  method GraficaDe(info: Catalogo, defs: seq<Defecto>) returns (labels: seq<Etiqueta>, datasets: seq<Dataset>)
    requires |defs| > 0
    ensures labels == EtiquetasGrafica(info, defs)
    ensures |datasets| == |CodigosUnicos(info, defs, labels)|
    ensures forall i :: 0 <= i < |datasets| ==>
      datasets[i].codigo == CodigosUnicos(info, defs, labels)[i] && |datasets[i].data| == |labels|
    ensures forall i, j :: 0 <= i < |datasets| && 0 <= j < |labels| ==>
      datasets[i].data[j] == CeldaGrafica(labels[j], ListaDe(info, defs, labels[j]), datasets[i].codigo)
  {
    var familias := FamiliasGrafica(info, defs);
    FamiliasGraficaSpec(info, defs);
    assert defs[0] in defs;
    assert FamiliaIngenieria(info, defs[0].mandrel) in familias;
    var top := TopPorFamilia(info, defs);
    labels := ConstruirEtiquetas(familias, top);
    var c := ConSeparadores(familias, top);
    assert labels == c[..|c| - 1];
    var porEtiqueta := DefectosPorEtiqueta(info, defs, labels);
    var unicos := CodigosUnicos(info, defs, labels);
    datasets := ConstruirDatasets(unicos, labels, porEtiqueta);
    forall i, j | 0 <= i < |datasets| && 0 <= j < |labels|
      ensures datasets[i].data[j] == CeldaGrafica(labels[j], ListaDe(info, defs, labels[j]), datasets[i].codigo)
    {
      assert labels[j] in labels;
      assert datasets[i].codigo == unicos[i];
    }
  }

  /**
   * GetTopMandrilesPorDia over the full fetch window. No defects: no bars and
   * no datasets. A defect whose mandrel is not an exact catalog key: the
   * action fails (`falla`). Otherwise the bars are EtiquetasGrafica, one
   * dataset per distinct code of the bars' lists, and each cell is that
   * code's cost in that bar (0 under a separator or when the code is not in
   * the bar's Top-3).
   */
  method GetTopMandrilesPorDia(cat: Catalogo, tabla: seq<Defecto>, inicio: Date, fin: Date,
                               mandriles: seq<string>, codigos: seq<string>)
    returns (falla: bool, labels: seq<Etiqueta>, datasets: seq<Dataset>)
    ensures var info := Inspeccion(cat);
            var defs := DefectosGrafica(info, tabla, inicio, fin, mandriles, codigos);
      && (falla <==> FallaGrafica(info, defs))
      && (falla ==> labels == [] && datasets == [])
      && (!falla ==> labels == EtiquetasGrafica(info, defs))
      && (|defs| == 0 ==> !falla && labels == [] && datasets == [])
      && (!falla ==> |datasets| == |CodigosUnicos(info, defs, labels)|)
      && (!falla ==> forall i :: 0 <= i < |datasets| ==>
            datasets[i].codigo == CodigosUnicos(info, defs, labels)[i] && |datasets[i].data| == |labels|)
      && (!falla ==> forall i, j :: 0 <= i < |datasets| && 0 <= j < |labels| ==>
            datasets[i].data[j] == CeldaGrafica(labels[j], ListaDe(info, defs, labels[j]), datasets[i].codigo))
  {
    var info := Inspeccion(cat);
    var defs := DefectosGrafica(info, tabla, inicio, fin, mandriles, codigos);
    if |defs| == 0 {
      assert FamiliasGrafica(info, defs) == [];
      falla, labels, datasets := false, [], [];
      assert CodigosUnicos(info, defs, labels) == [];
    } else if exists d :: d in defs && d.mandrel !in info {
      falla, labels, datasets := true, [], [];
    } else {
      falla := false;
      labels, datasets := GraficaDe(info, defs);
    }
  }

  /**
   * A defect spelled "m-01" against the catalog name "M-01": the database
   * selects it, and the chart fails on the dictionary lookup.
   */
  lemma MandrilEnMinusculasFalla(dia: Date)
    ensures var info := map["M-01" := MandrilInfo("INSPECCION", Some(1.0), None)];
            var d := Defecto(1, dia, Hms(10, 0, 0), "m-01", "17a", "", "1", "1", "");
      d in DefectosGrafica(info, [d], dia, dia, [], []) && FallaGrafica(info, DefectosGrafica(info, [d], dia, dia, [], []))
  {
    var info := map["M-01" := MandrilInfo("INSPECCION", Some(1.0), None)];
    var d := Defecto(1, dia, Hms(10, 0, 0), "m-01", "17a", "", "1", "1", "");
    assert ToUpper("m-01") == "M-01";
    assert ClaveSql("M-01") == "M-01";
    assert IgualSql(d.mandrel, "M-01");
    assert CatalogadoSql(info, d.mandrel);
    assert d in Seleccionados(info, [d], [], []);
    assert DiaInline(d) == dia;
  }

  /**
   * Every bar's stack adds up to the total cost of its mandrel's Top-3
   * codes: each code of the list has exactly one dataset.
   */
  lemma GraficaStack(info: Catalogo, defs: seq<Defecto>, labels: seq<Etiqueta>, j: int)
    requires 0 <= j < |labels| && labels[j].Barra?
    ensures var unicos := CodigosUnicos(info, defs, labels);
            var l := ListaDe(info, defs, labels[j]);
      SumReal(unicos, (c: string) => CeldaGrafica(labels[j], l, c)) == SumReal(l, CostoDeFila)
  {
    var e := labels[j];
    var l := ListaDe(info, defs, e);
    CodigosDeMandrilSpec(info, defs, e.mandril);
    forall x | x in l ensures x.clave in CodigosUnicos(info, defs, labels) {
      var i :| 0 <= i < |l| && l[i] == x;
      assert Claves(l)[i] == x.clave;
      assert e in labels;
    }
    StackHeight(e, l, CodigosUnicos(info, defs, labels));
  }

  // ---------------------------------------------------------------------
  // The label text round trip: `label.Split(" - ")[1]`
  // ---------------------------------------------------------------------

  /** " - " occurs in `s` at position i. */
  predicate SepAt(s: string, i: int)
  {
    0 <= i && i + 3 <= |s| && s[i] == ' ' && s[i + 1] == '-' && s[i + 2] == ' '
  }

  /** The first occurrence of " - " at or after position i. */
  function FirstSep(s: string, i: nat): (r: Option<nat>)
    requires i <= |s|
    ensures r.Some? ==> i <= r.value && SepAt(s, r.value) && forall j :: i <= j < r.value ==> !SepAt(s, j)
    ensures r.None? ==> forall j :: i <= j ==> !SepAt(s, j)
    decreases |s| - i
  {
    if i + 3 > |s| then None
    else if SepAt(s, i) then Some(i)
    else FirstSep(s, i + 1)
  }

  /** String.Split(" - "): the pieces between successive occurrences, left to right. */
  function Split(s: string): (r: seq<string>)
    ensures |r| >= 1
    decreases |s|
  {
    match FirstSep(s, 0)
    case None => [s]
    case Some(k) => [s[..k]] + Split(s[k + 3..])
  }

  /** `label.Split(" - ")[1]`; None where the index is out of range. */
  function MandrilDeTexto(texto: string): Option<string>
  {
    var parts := Split(texto);
    if |parts| < 2 then None else Some(parts[1])
  }

  /**
   * The source's per-label step on the label text: "." gives an empty list;
   * otherwise the mandrel is read back from the text and looked up in the
   * catalog, where a missing key throws (None).
   */
  function ListaDeTextoAsWritten(info: Catalogo, defs: seq<Defecto>, texto: string): Option<seq<Costeado<string>>>
  {
    if texto == "." then Some([])
    else match MandrilDeTexto(texto)
      case None => None
      case Some(m) => if m in info then Some(CodigosDeMandril(info, defs, m)) else None
  }

  predicate SinGuion(s: string) { forall i :: 0 <= i < |s| ==> s[i] != '-' }

  /** Splitting recovers (family, mandrel) when the family has no '-' and the mandrel no " - ". */
  lemma SplitEtiqueta(f: string, m: string)
    requires SinGuion(f)
    requires forall j :: !SepAt(m, j)
    ensures Split(f + Sep + m) == [f, m]
  {
    var s := f + Sep + m;
    var n := |f|;
    assert SepAt(s, n);
    forall j | 0 <= j < n ensures !SepAt(s, j) {
      if j + 1 < n { assert s[j + 1] == f[j + 1]; } else { assert s[j + 1] == ' '; }
    }
    var r := FirstSep(s, 0);
    assert r == Some(n);
    assert s[..n] == f;
    assert s[n + 3..] == m;
    assert FirstSep(m, 0).None?;
  }

  /** Under those conditions the text round trip gives the bar's own list. */
  lemma ListaDeTextoAgrees(info: Catalogo, defs: seq<Defecto>, f: string, m: string)
    requires SinGuion(f)
    requires forall j :: !SepAt(m, j)
    requires m in info
    ensures ListaDeTextoAsWritten(info, defs, Texto(Barra(f, m))) == Some(ListaDe(info, defs, Barra(f, m)))
  {
    SplitEtiqueta(f, m);
    assert Texto(Barra(f, m)) != "." by {
      assert |Texto(Barra(f, m))| >= 3;
    }
  }

  /**
   * A family named "A - B" breaks the round trip: the bar of mandrel "M"
   * reads back mandrel "B", which the catalog lacks, so the lookup throws,
   * while the bar itself has a well-defined list.
   */
  lemma SplitCounterexample()
    ensures var info := map["M" := MandrilInfo("INSPECCION", Some(2.0), Some("A - B"))];
            var e := Barra("A - B", "M");
      && Texto(e) == "A - B - M"
      && MandrilDeTexto(Texto(e)) == Some("B")
      && ListaDeTextoAsWritten(info, [], Texto(e)) == None
      && ListaDe(info, [], e) == []
  {
    assert Texto(Barra("A - B", "M")) == "A - B - M";
    LeerEtiquetaAmbigua();
    assert "A - B - M" != ".";
  }

  /** The label "A - B - M" splits into "A", "B", "M": the second piece is "B". */
  lemma LeerEtiquetaAmbigua()
    ensures MandrilDeTexto("A - B - M") == Some("B")
  {
    var s := "A - B - M";
    assert SepAt(s, 1) && !SepAt(s, 0);
    assert FirstSep(s, 0) == Some(1);
    var t := s[4..];
    assert t == "B - M";
    assert SepAt(t, 1) && !SepAt(t, 0);
    assert FirstSep(t, 0) == Some(1);
    assert t[..1] == "B";
    assert Split(s)[1] == "B";
  }
}
