/**
 * Cost rollups of the defects controller: a defect costs its mandrel's unit
 * cost from the INSPECCION catalog (`Costo ?? 0`, and 0 for a mandrel the
 * catalog lacks), so a group of defects costs its size times that unit cost.
 *
 * Covered here: the cost table GetDefectosAgrupadosConCosto, the Top-5
 * mandrels per day / Top-3 codes per mandrel of ExportarDefectosExcel, and
 * the per-mandrel charts GetDefectosPorMandril and GetCostoPorMandril with
 * their two different family filters.
 */
module CostRollups {
  import opened Collections
  import opened Text
  import opened Sorting
  import opened ShiftCalendar
  import opened Records
  import opened LaborDays
  import opened DefectReports

  // ---------------------------------------------------------------------
  // Costed groups: GroupBy(key).Select(g => (g.Key, g.Count(), g.Count() * unit))
  // ---------------------------------------------------------------------

  datatype Costeado<K> = Costeado(clave: K, piezas: int, costo: real)

  function Costear<K>(unit: K -> real, g: (K, int)): Costeado<K>
  {
    Costeado(g.0, g.1, Veces(g.1, unit(g.0)))
  }

  /** The groups of `rows` by `key`, first-occurrence order, each with its count and cost. */
  function Costeados<T(!new), K(==, !new)>(rows: seq<T>, key: T -> K, unit: K -> real): (r: seq<Costeado<K>>)
    ensures |r| == |KeysOf(rows, key)|
  {
    Map(GroupCounts(rows, key), (g: (K, int)) => Costear(unit, g))
  }

  function CostoDeFila<K>(c: Costeado<K>): real { c.costo }
  function PiezasDeFila<K>(c: Costeado<K>): real { c.piezas as real }

  /** OrderByDescending(CostoTotal). */
  predicate MasCosto<K>(a: Costeado<K>, b: Costeado<K>) { a.costo > b.costo }

  /** OrderByDescending(TotalPiezas). */
  predicate MasPiezasCosteado<K>(a: Costeado<K>, b: Costeado<K>) { a.piezas > b.piezas }

  /** `...OrderByDescending(x => x.CostoTotal).Take(n)`. */
  function TopPorCosto<T(!new), K(==, !new)>(rows: seq<T>, key: T -> K, unit: K -> real, n: nat): seq<Costeado<K>>
  {
    TopBy(Costeados(rows, key, unit), MasCosto, n)
  }

  /** `OrderByDescending(TotalCosto)` over all groups. */
  function OrdenPorCosto<T(!new), K(==, !new)>(rows: seq<T>, key: T -> K, unit: K -> real): seq<Costeado<K>>
  {
    SortBy(Costeados(rows, key, unit), MasCosto)
  }

  /** `...OrderByDescending(x => x.TotalPiezas).Take(n)`. */
  function TopPorPiezas<T(!new), K(==, !new)>(rows: seq<T>, key: T -> K, unit: K -> real, n: nat): seq<Costeado<K>>
  {
    TopBy(Costeados(rows, key, unit), MasPiezasCosteado, n)
  }

  /** Each costed group is a real group: its true size, at least 1, and size x unit cost. */
  lemma CosteadosMembers<T(!new), K(!new)>(rows: seq<T>, key: T -> K, unit: K -> real, c: Costeado<K>)
    requires c in Costeados(rows, key, unit)
    ensures c.piezas == CountKey(rows, key, c.clave) && c.piezas >= 1
    ensures c.costo == Veces(c.piezas, unit(c.clave))
    ensures c.clave in KeysOf(rows, key)
  {
    var g := GroupCounts(rows, key);
    var i :| 0 <= i < |g| && Costeados(rows, key, unit)[i] == c;
    assert g[i] in g;
    GroupCountsMembers(rows, key, g[i]);
  }

  /** No key is costed twice. */
  lemma CosteadosDistintos<T(!new), K(!new)>(rows: seq<T>, key: T -> K, unit: K -> real)
    ensures var c := Costeados(rows, key, unit);
      forall i, j :: 0 <= i < j < |c| ==> c[i].clave != c[j].clave
  {
    var ks := KeysOf(rows, key);
    var c := Costeados(rows, key, unit);
    assert forall i :: 0 <= i < |c| ==> c[i].clave == ks[i];
  }

  /** A Top-N by pieces never names the same key twice. */
  lemma TopPorPiezasDistintos<T(!new), K(!new)>(rows: seq<T>, key: T -> K, unit: K -> real, n: nat)
    ensures var r := TopPorPiezas(rows, key, unit, n);
      forall i, j :: 0 <= i < j < |r| ==> r[i].clave != r[j].clave
  {
    var all := Costeados(rows, key, unit);
    var r := TopPorPiezas(rows, key, unit, n);
    CosteadosDistintos(rows, key, unit);
    NoDuplicatesSub(all, r);
    forall i, j | 0 <= i < j < |r| ensures r[i].clave != r[j].clave {
      assert r[i] in multiset(r) && r[j] in multiset(r);
      CosteadosMembers(rows, key, unit, r[i]);
      CosteadosMembers(rows, key, unit, r[j]);
    }
  }

  /** The group costs add up to the cost of every row. */
  lemma CosteadosTotal<T(!new), K(!new)>(rows: seq<T>, key: T -> K, unit: K -> real)
    ensures SumReal(Costeados(rows, key, unit), CostoDeFila) == SumReal(rows, (x: T) => unit(key(x)))
  {
    var h := (g: (K, int)) => Veces(g.1, unit(g.0));
    SumRealOfMap(GroupCounts(rows, key), (g: (K, int)) => Costear(unit, g), CostoDeFila, h);
    WeightedGroupCounts(rows, key, unit, h, (x: T) => unit(key(x)));
  }

  /**
   * Top-N by cost: min(n, number of groups) groups, each a true costed
   * group, costs non-increasing, and no group left out costs more than one kept.
   */
  lemma TopPorCostoSpec<T(!new), K(!new)>(rows: seq<T>, key: T -> K, unit: K -> real, n: nat)
    ensures var all := Costeados(rows, key, unit);
            var r := TopPorCosto(rows, key, unit, n);
      && |r| == (if n < |KeysOf(rows, key)| then n else |KeysOf(rows, key)|)
      && (forall c :: c in r ==>
            c in all && c.piezas == CountKey(rows, key, c.clave) && c.piezas >= 1
            && c.costo == Veces(c.piezas, unit(c.clave)))
      && (forall i, j :: 0 <= i < j < |r| ==> r[i].costo >= r[j].costo)
      && (forall c, e :: c in all && c !in r && e in r ==> e.costo >= c.costo)
  {
    var all := Costeados(rows, key, unit);
    var r := TopPorCosto(rows, key, unit, n);
    assert forall a: Costeado<K>, b: Costeado<K> :: MasCosto(a, b) == (CostoDeFila(a) > CostoDeFila(b));
    TopByRanks(all, MasCosto, CostoDeFila, n);
    forall c | c in r
      ensures c.piezas == CountKey(rows, key, c.clave) && c.piezas >= 1
      ensures c.costo == Veces(c.piezas, unit(c.clave))
    {
      CosteadosMembers(rows, key, unit, c);
    }
  }

  /** The part of TopPorCostoSpec about the groups kept: at most n, true costed groups, costs non-increasing. */
  lemma TopPorCostoKept<T(!new), K(!new)>(rows: seq<T>, key: T -> K, unit: K -> real, n: nat)
    ensures var r := TopPorCosto(rows, key, unit, n);
      && |r| <= n
      && (forall c :: c in r ==>
            c.piezas == CountKey(rows, key, c.clave) && c.piezas >= 1
            && c.costo == Veces(c.piezas, unit(c.clave)))
      && (forall i, j :: 0 <= i < j < |r| ==> r[i].costo >= r[j].costo)
  {
    TopPorCostoSpec(rows, key, unit, n);
  }

  /** The part of TopPorPiezasSpec about the groups kept, with their keys distinct. */
  lemma TopPorPiezasKept<T(!new), K(!new)>(rows: seq<T>, key: T -> K, unit: K -> real, n: nat)
    ensures var r := TopPorPiezas(rows, key, unit, n);
      && |r| <= n
      && (forall c :: c in r ==>
            c.piezas == CountKey(rows, key, c.clave) && c.piezas >= 1
            && c.costo == Veces(c.piezas, unit(c.clave)))
      && (forall i, j :: 0 <= i < j < |r| ==> r[i].piezas >= r[j].piezas && r[i].clave != r[j].clave)
  {
    TopPorPiezasSpec(rows, key, unit, n);
    TopPorPiezasDistintos(rows, key, unit, n);
  }

  /** Top-N by pieces: the same guarantees with the count as the ranking key. */
  lemma TopPorPiezasSpec<T(!new), K(!new)>(rows: seq<T>, key: T -> K, unit: K -> real, n: nat)
    ensures var all := Costeados(rows, key, unit);
            var r := TopPorPiezas(rows, key, unit, n);
      && |r| == (if n < |KeysOf(rows, key)| then n else |KeysOf(rows, key)|)
      && (forall c :: c in r ==>
            c in all && c.piezas == CountKey(rows, key, c.clave) && c.piezas >= 1
            && c.costo == Veces(c.piezas, unit(c.clave)))
      && (forall i, j :: 0 <= i < j < |r| ==> r[i].piezas >= r[j].piezas)
      && (forall c, e :: c in all && c !in r && e in r ==> e.piezas >= c.piezas)
  {
    var all := Costeados(rows, key, unit);
    var r := TopPorPiezas(rows, key, unit, n);
    assert forall a: Costeado<K>, b: Costeado<K> :: MasPiezasCosteado(a, b) == (PiezasDeFila(a) > PiezasDeFila(b));
    TopByRanks(all, MasPiezasCosteado, PiezasDeFila, n);
    forall c | c in r
      ensures c.piezas == CountKey(rows, key, c.clave) && c.piezas >= 1
      ensures c.costo == Veces(c.piezas, unit(c.clave))
    {
      CosteadosMembers(rows, key, unit, c);
    }
    forall i, j | 0 <= i < j < |r| ensures r[i].piezas >= r[j].piezas {
      assert PiezasDeFila(r[i]) >= PiezasDeFila(r[j]);
    }
    forall c, e | c in all && c !in r && e in r ensures e.piezas >= c.piezas {
      assert PiezasDeFila(e) >= PiezasDeFila(c);
    }
  }

  // ---------------------------------------------------------------------
  // Ranking codes by count (the chart) or by count x cost (the Excel report)
  // ---------------------------------------------------------------------

  /** At a positive unit cost, more pieces cost strictly more. */
  lemma {:induction false} VecesStrictlyIncreasing(x: int, y: int, c: real)
    requires c > 0.0 && 0 <= x < y
    ensures Veces(x, c) < Veces(y, c)
  {
    if x < y - 1 {
      VecesStrictlyIncreasing(x, y - 1, c);
    }
  }

  lemma {:induction false} VecesOfZero(n: int)
    ensures Veces(n, 0.0) == 0.0
  {
    if n > 0 { VecesOfZero(n - 1); }
  }

  /**
   * Within one mandrel every code shares the unit cost, so when that cost is
   * positive the two rankings of its codes are the same list, ties included.
   */
  lemma RankingEquivalence<T(!new), K(!new)>(rows: seq<T>, key: T -> K, unit: K -> real, c: real, n: nat)
    requires c > 0.0 && forall k :: unit(k) == c
    ensures TopPorCosto(rows, key, unit, n) == TopPorPiezas(rows, key, unit, n)
  {
    var all := Costeados(rows, key, unit);
    forall a, b | a in all && b in all ensures MasCosto(a, b) == MasPiezasCosteado(a, b) {
      CosteadosMembers(rows, key, unit, a);
      CosteadosMembers(rows, key, unit, b);
      if a.piezas < b.piezas { VecesStrictlyIncreasing(a.piezas, b.piezas, c); }
      if b.piezas < a.piezas { VecesStrictlyIncreasing(b.piezas, a.piezas, c); }
    }
    SortCongruent(all, MasCosto, MasPiezasCosteado);
  }

  /** At unit cost 0 every cost ties, so the cost ranking keeps first-occurrence order. */
  lemma RankingAtZeroCost<T(!new), K(!new)>(rows: seq<T>, key: T -> K, unit: K -> real, n: nat)
    requires forall k :: unit(k) == 0.0
    ensures TopPorCosto(rows, key, unit, n) == Take(Costeados(rows, key, unit), n)
  {
    var all := Costeados(rows, key, unit);
    forall a, b | a in all && b in all ensures !MasCosto(a, b) {
      CosteadosMembers(rows, key, unit, a);
      CosteadosMembers(rows, key, unit, b);
      VecesOfZero(a.piezas);
      VecesOfZero(b.piezas);
    }
    SortAllTies(all, MasCosto);
  }

  function Ident(s: string): string { s }
  function SinCosto(s: string): real { 0.0 }

  lemma ZeroCostGroups()
    ensures Costeados(["A", "B", "B"], Ident, SinCosto) == [Costeado("A", 1, 0.0), Costeado("B", 2, 0.0)]
  {
    var rows := ["A", "B", "B"];
    assert rows[..2] == ["A", "B"] && rows[..2][..1] == ["A"] && ["A"][..0] == [];
    assert Map(rows, Ident) == ["A", "B", "B"];
    assert Distinct(["A"]) == ["A"];
    assert Distinct(["A", "B"]) == ["A", "B"];
    assert KeysOf(rows, Ident) == ["A", "B"];
    assert CountKey(rows, Ident, "A") == 1;
    assert CountKey(rows, Ident, "B") == 2;
    assert Veces(1, 0.0) == 0.0 && Veces(2, 0.0) == 0.0;
  }

  /**
   * A mandrel of cost 0 with code "A" once and then code "B" twice: by count
   * "B" comes first, by cost the codes keep their order and "A" comes first.
   */
  lemma RankingDiffersAtZeroCost()
    ensures TopPorPiezas(["A", "B", "B"], Ident, SinCosto, 3)[0].clave == "B"
    ensures TopPorCosto(["A", "B", "B"], Ident, SinCosto, 3)[0].clave == "A"
  {
    ZeroCostByCount();
    ZeroCostByCost();
  }

  lemma ZeroCostByCount()
    ensures TopPorPiezas(["A", "B", "B"], Ident, SinCosto, 3)[0].clave == "B"
  {
    ZeroCostGroups();
    TopPiezasDeDos(Costeados(["A", "B", "B"], Ident, SinCosto), Costeado("A", 1, 0.0), Costeado("B", 2, 0.0));
  }

  /** Of two groups, the one with more pieces heads the count ranking. */
  lemma TopPiezasDeDos<K>(all: seq<Costeado<K>>, a: Costeado<K>, b: Costeado<K>)
    requires all == [a, b] && a.piezas < b.piezas
    ensures TopBy(all, MasPiezasCosteado, 3) == [b, a]
  {
    assert all[..1] == [a] && [a][..0] == [];
    assert SortBy([a], MasPiezasCosteado) == [a];
  }

  lemma ZeroCostByCost()
    ensures TopPorCosto(["A", "B", "B"], Ident, SinCosto, 3)[0].clave == "A"
  {
    ZeroCostGroups();
    RankingAtZeroCost(["A", "B", "B"], Ident, SinCosto, 3);
  }

  // ---------------------------------------------------------------------
  // GetDefectosAgrupadosConCosto: rows by (labor day, mandrel, code) with cost
  // ---------------------------------------------------------------------

  /** The labor day under ProduccionHelper. */
  function LaborHelper(d: Defecto): Date { GetFechaProduccion(d.fecha, d.hora) }

  function ClaveConCosto(d: Defecto): (Date, string, string) { (LaborHelper(d), d.mandrel, d.codigo) }

  /** The table's family: `Familia ?? ""` for a catalogued mandrel, "SIN FAMILIA" otherwise. */
  function FamiliaConCosto(info: Catalogo, m: string): string
  {
    if m in info then FamiliaOVacia(info[m].familia) else SinFamilia
  }

  datatype FilaConCosto = FilaConCosto(
    fecha: Date, mandril: string, familia: string, codigo: string, totalPiezas: int, costo: real)

  function AFilaConCosto(info: Catalogo, g: ((Date, string, string), int)): FilaConCosto
  {
    FilaConCosto(g.0.0, g.0.1, FamiliaConCosto(info, g.0.1), g.0.2, g.1, Veces(g.1, CostoDe(info, g.0.1)))
  }

  predicate MasPiezasConCosto(a: FilaConCosto, b: FilaConCosto) { a.totalPiezas > b.totalPiezas }

  function FilaPiezas(f: FilaConCosto): int { f.totalPiezas }
  function FilaPiezasReal(f: FilaConCosto): real { f.totalPiezas as real }
  function FilaCosto(f: FilaConCosto): real { f.costo }

  /** The whole table's defects whose helper labor day is in range, then the two list filters. */
  function DefectosConCosto(tabla: seq<Defecto>, inicio: Date, fin: Date,
                            mandriles: seq<string>, codigos: seq<string>): (r: seq<Defecto>)
    ensures forall d :: d in r <==>
      d in tabla && inicio <= LaborHelper(d) <= fin
      && (|mandriles| == 0 || d.mandrel in mandriles) && (|codigos| == 0 || d.codigo in codigos)
  {
    var enRango := KeepHelperDays(tabla, DefFecha, DefHora, inicio, fin);
    assert forall d :: d in enRango <==> d in tabla && inicio <= GetFechaProduccion(DefFecha(d), DefHora(d)) <= fin;
    SoloSiHayLista(SoloSiHayLista(enRango, DefMandrel, mandriles), DefCodigo, codigos)
  }

  /** GroupBy(labor day, mandrel, code), priced, then OrderByDescending(totalPiezas). */
  function AgruparConCosto(info: Catalogo, rows: seq<Defecto>): seq<FilaConCosto>
  {
    SortBy(Map(GroupCounts(rows, ClaveConCosto), (g: ((Date, string, string), int)) => AFilaConCosto(info, g)),
           MasPiezasConCosto)
  }

  function GetDefectosAgrupadosConCosto(cat: Catalogo, tabla: seq<Defecto>, inicio: Date, fin: Date,
                                        mandriles: seq<string>, codigos: seq<string>): seq<FilaConCosto>
  {
    AgruparConCosto(Inspeccion(cat), DefectosConCosto(tabla, inicio, fin, mandriles, codigos))
  }

  lemma FilasConCostoMembers(info: Catalogo, rows: seq<Defecto>, f: FilaConCosto)
    requires f in Map(GroupCounts(rows, ClaveConCosto), (g: ((Date, string, string), int)) => AFilaConCosto(info, g))
    ensures f.totalPiezas == CountKey(rows, ClaveConCosto, (f.fecha, f.mandril, f.codigo)) && f.totalPiezas >= 1
    ensures f.costo == Veces(f.totalPiezas, CostoDe(info, f.mandril))
    ensures f.familia == FamiliaConCosto(info, f.mandril)
  {
    var g := GroupCounts(rows, ClaveConCosto);
    var i :| 0 <= i < |g| && AFilaConCosto(info, g[i]) == f;
    assert g[i] in g;
    GroupCountsMembers(rows, ClaveConCosto, g[i]);
  }

  /**
   * One row per (labor day, mandrel, code) group: its true size, cost = size x
   * unit cost (0 and "SIN FAMILIA" off the catalog, `Familia ?? ""` on it),
   * sizes non-increasing.
   */
  lemma AgruparConCostoFilas(info: Catalogo, rows: seq<Defecto>)
    ensures var r := AgruparConCosto(info, rows);
      && |r| == |KeysOf(rows, ClaveConCosto)|
      && (forall f :: f in r ==>
            f.totalPiezas == CountKey(rows, ClaveConCosto, (f.fecha, f.mandril, f.codigo)) && f.totalPiezas >= 1
            && f.costo == Veces(f.totalPiezas, CostoDe(info, f.mandril))
            && (f.mandril in info ==> f.familia == FamiliaOVacia(info[f.mandril].familia))
            && (f.mandril !in info ==> f.familia == SinFamilia && f.costo == 0.0))
      && (forall i, j :: 0 <= i < j < |r| ==> r[i].totalPiezas >= r[j].totalPiezas)
  {
    var m := Map(GroupCounts(rows, ClaveConCosto), (g: ((Date, string, string), int)) => AFilaConCosto(info, g));
    var r := SortBy(m, MasPiezasConCosto);
    forall f | f in r
      ensures f.totalPiezas == CountKey(rows, ClaveConCosto, (f.fecha, f.mandril, f.codigo)) && f.totalPiezas >= 1
      ensures f.costo == Veces(f.totalPiezas, CostoDe(info, f.mandril))
      ensures f.familia == FamiliaConCosto(info, f.mandril)
      ensures f.mandril !in info ==> f.costo == 0.0
    {
      assert f in multiset(m);
      FilasConCostoMembers(info, rows, f);
      VecesOfZero(f.totalPiezas);
    }
    assert forall a, b :: MasPiezasConCosto(a, b) == (FilaPiezasReal(a) > FilaPiezasReal(b));
    SortDescending(m, MasPiezasConCosto, FilaPiezasReal);
    forall i, j | 0 <= i < j < |r| ensures r[i].totalPiezas >= r[j].totalPiezas {
      assert FilaPiezasReal(r[i]) >= FilaPiezasReal(r[j]);
    }
  }

  /** The sizes add up to the number of defects and the costs to the cost of every defect. */
  lemma AgruparConCostoTotales(info: Catalogo, rows: seq<Defecto>)
    ensures SumOf(AgruparConCosto(info, rows), FilaPiezas) == |rows|
    ensures SumReal(AgruparConCosto(info, rows), FilaCosto) == SumReal(rows, (d: Defecto) => CostoDe(info, d.mandrel))
  {
    var g := GroupCounts(rows, ClaveConCosto);
    var toFila := (p: ((Date, string, string), int)) => AFilaConCosto(info, p);
    var m := Map(g, toFila);
    var r := SortBy(m, MasPiezasConCosto);
    SumOfPermutation(r, m, FilaPiezas);
    SumOfMap(g, toFila, FilaPiezas, GroupValue);
    GroupCountsTotal(rows, ClaveConCosto);
    SumRealPermutation(r, m, FilaCosto);
    var h := (p: ((Date, string, string), int)) => Veces(p.1, CostoDe(info, p.0.1));
    SumRealOfMap(g, toFila, FilaCosto, h);
    WeightedGroupCounts(rows, ClaveConCosto, (k: (Date, string, string)) => CostoDe(info, k.1), h,
                        (d: Defecto) => CostoDe(info, d.mandrel));
  }

  // ---------------------------------------------------------------------
  // ExportarDefectosExcel: per labor day, Top-5 mandrels by cost and per
  // mandrel Top-3 codes by cost
  // ---------------------------------------------------------------------

  /** The defects of one labor day (one group of `GroupBy(labor day)`). */
  function DelDia(defs: seq<Defecto>, f: Date): seq<Defecto>
  {
    Filter(defs, (d: Defecto) => LaborHelper(d) == f)
  }

  /** The defects of one mandrel (a group's `Registros`). */
  function DeMandril(rows: seq<Defecto>, m: string): seq<Defecto>
  {
    Filter(rows, (d: Defecto) => d.mandrel == m)
  }

  function CostoUnitario(costos: Catalogo): string -> real
  {
    (m: string) => CostoDe(costos, m)
  }

  function TopMandrilesDia(costos: Catalogo, delDia: seq<Defecto>): seq<Costeado<string>>
  {
    TopPorCosto(delDia, DefMandrel, CostoUnitario(costos), 5)
  }

  function TopCodigosMandril(costos: Catalogo, registros: seq<Defecto>, m: string): seq<Costeado<string>>
  {
    TopPorCosto(registros, DefCodigo, (_: string) => CostoDe(costos, m), 3)
  }

  datatype BloqueMandril = BloqueMandril(mandril: Costeado<string>, codigos: seq<Costeado<string>>)
  datatype BloqueDia = BloqueDia(fecha: Date, mandriles: seq<BloqueMandril>)

  function BloqueDe(costos: Catalogo, defs: seq<Defecto>, f: Date): BloqueDia
  {
    var delDia := DelDia(defs, f);
    BloqueDia(f, Map(TopMandrilesDia(costos, delDia),
      (c: Costeado<string>) => BloqueMandril(c, TopCodigosMandril(costos, DeMandril(delDia, c.clave), c.clave))))
  }

  /** `GroupBy(labor day).OrderBy(g => g.Key)`: the keys. */
  function DiasLaborales(defs: seq<Defecto>): seq<Date>
  {
    SortBy(KeysOf(defs, LaborHelper), DiaAntes)
  }

  /** The numbers of the report: one block per labor day with defects, in date order. */
  function ExportarDefectosExcel(cat: Catalogo, tabla: seq<Defecto>, inicio: Date, fin: Date): (r: seq<BloqueDia>)
    ensures |r| == |DiasLaborales(DefectosDelRango(tabla, inicio, fin))|
  {
    var costos := Inspeccion(cat);
    var defs := DefectosDelRango(tabla, inicio, fin);
    Map(DiasLaborales(defs), (f: Date) => BloqueDe(costos, defs, f))
  }

  /** The report's days: strictly increasing, exactly the labor days that have a defect. */
  lemma DiasLaboralesSpec(defs: seq<Defecto>)
    ensures var r := DiasLaborales(defs);
      && (forall f :: f in r <==> exists d :: d in defs && LaborHelper(d) == f)
      && (forall i, j :: 0 <= i < j < |r| ==> r[i] < r[j])
  {
    OrdenFechas(KeysOf(defs, LaborHelper));
  }

  /** A mandrel's Top-3 codes: at most 3, counted among its defects, priced at its unit cost, costs non-increasing. */
  lemma TopCodigosMandrilSpec(costos: Catalogo, registros: seq<Defecto>, m: string)
    ensures var ds := TopCodigosMandril(costos, registros, m);
      && |ds| <= 3
      && (forall i, j :: 0 <= i < j < |ds| ==> ds[i].costo >= ds[j].costo)
      && (forall e :: e in ds ==>
            e.piezas == CountKey(registros, DefCodigo, e.clave) && e.piezas >= 1
            && e.costo == Veces(e.piezas, CostoDe(costos, m)))
  {
    TopPorCostoKept(registros, DefCodigo, (_: string) => CostoDe(costos, m), 3);
  }

  /**
   * One day's Top-5 mandrels: each with its true count of the day's defects
   * and cost = count x unit cost (0 off the catalog), costs non-increasing,
   * no mandrel left out costing more than one kept.
   */
  lemma TopMandrilesDiaSpec(costos: Catalogo, delDia: seq<Defecto>)
    ensures var top := TopMandrilesDia(costos, delDia);
      && |top| <= 5
      && (forall i, j :: 0 <= i < j < |top| ==> top[i].costo >= top[j].costo)
      && (forall c :: c in top ==>
            c.piezas == CountKey(delDia, DefMandrel, c.clave) && c.piezas >= 1
            && c.costo == Veces(c.piezas, CostoDe(costos, c.clave))
            && (c.clave !in costos ==> c.costo == 0.0))
      && (forall c, e :: c in Costeados(delDia, DefMandrel, CostoUnitario(costos)) && c !in top && e in top
            ==> e.costo >= c.costo)
  {
    var top := TopMandrilesDia(costos, delDia);
    TopPorCostoSpec(delDia, DefMandrel, CostoUnitario(costos), 5);
    forall c | c in top ensures c.clave !in costos ==> c.costo == 0.0 {
      VecesOfZero(c.piezas);
    }
  }

  /** The blocks' days are the labor days, in order. */
  lemma ExportarDefectosExcelFechas(cat: Catalogo, tabla: seq<Defecto>, inicio: Date, fin: Date, i: int)
    requires 0 <= i < |ExportarDefectosExcel(cat, tabla, inicio, fin)|
    ensures var dias := DiasLaborales(DefectosDelRango(tabla, inicio, fin));
      ExportarDefectosExcel(cat, tabla, inicio, fin)[i] == BloqueDe(Inspeccion(cat), DefectosDelRango(tabla, inicio, fin), dias[i])
      && ExportarDefectosExcel(cat, tabla, inicio, fin)[i].fecha == dias[i]
  {
  }

  /** Each block is the block of its own day, and the days strictly increase. */
  lemma ExportarDefectosExcelBloques(cat: Catalogo, tabla: seq<Defecto>, inicio: Date, fin: Date)
    ensures var defs := DefectosDelRango(tabla, inicio, fin);
            var r := ExportarDefectosExcel(cat, tabla, inicio, fin);
      && (forall i :: 0 <= i < |r| ==> r[i] == BloqueDe(Inspeccion(cat), defs, r[i].fecha))
      && (forall i, j :: 0 <= i < j < |r| ==> r[i].fecha < r[j].fecha)
  {
    var defs := DefectosDelRango(tabla, inicio, fin);
    var dias := DiasLaborales(defs);
    var r := ExportarDefectosExcel(cat, tabla, inicio, fin);
    DiasLaboralesSpec(defs);
    forall i | 0 <= i < |r| ensures r[i] == BloqueDe(Inspeccion(cat), defs, r[i].fecha) && r[i].fecha == dias[i] {
      ExportarDefectosExcelFechas(cat, tabla, inicio, fin, i);
    }
  }

  /** Every block's day is a labor day of the range on which some defect was recorded. */
  lemma ExportarDefectosExcelDias(cat: Catalogo, tabla: seq<Defecto>, inicio: Date, fin: Date)
    ensures var r := ExportarDefectosExcel(cat, tabla, inicio, fin);
      forall i :: 0 <= i < |r| ==>
        && inicio <= r[i].fecha <= fin
        && exists d :: d in tabla && LaborHelper(d) == r[i].fecha
  {
    var defs := DefectosDelRango(tabla, inicio, fin);
    var dias := DiasLaborales(defs);
    var r := ExportarDefectosExcel(cat, tabla, inicio, fin);
    DiasLaboralesSpec(defs);
    forall i | 0 <= i < |r|
      ensures inicio <= r[i].fecha <= fin
      ensures exists d :: d in tabla && LaborHelper(d) == r[i].fecha
    {
      ExportarDefectosExcelFechas(cat, tabla, inicio, fin, i);
      assert dias[i] in dias;
      var d :| d in defs && LaborHelper(d) == dias[i];
      assert d in tabla;
    }
  }

  /** Every labor day of the range that has a defect gets a block. */
  lemma ExportarDefectosExcelPorDia(cat: Catalogo, tabla: seq<Defecto>, inicio: Date, fin: Date)
    ensures var dias := DiasLaborales(DefectosDelRango(tabla, inicio, fin));
            var r := ExportarDefectosExcel(cat, tabla, inicio, fin);
      forall i :: 0 <= i < |dias| ==> r[i].fecha == dias[i]
  {
    var dias := DiasLaborales(DefectosDelRango(tabla, inicio, fin));
    forall i | 0 <= i < |dias| ensures ExportarDefectosExcel(cat, tabla, inicio, fin)[i].fecha == dias[i] {
      ExportarDefectosExcelFechas(cat, tabla, inicio, fin, i);
    }
  }

  lemma ExportarDefectosExcelCompleto(cat: Catalogo, tabla: seq<Defecto>, inicio: Date, fin: Date)
    ensures var r := ExportarDefectosExcel(cat, tabla, inicio, fin);
      forall d :: d in tabla && inicio <= LaborHelper(d) <= fin ==>
        exists i :: 0 <= i < |r| && r[i].fecha == LaborHelper(d)
  {
    var defs := DefectosDelRango(tabla, inicio, fin);
    var dias := DiasLaborales(defs);
    var r := ExportarDefectosExcel(cat, tabla, inicio, fin);
    ExportarDefectosExcelPorDia(cat, tabla, inicio, fin);
    DiasLaboralesSpec(defs);
    CubreDias(r, defs, dias);
  }

  lemma CubreDias(r: seq<BloqueDia>, defs: seq<Defecto>, dias: seq<Date>)
    requires |r| == |dias| && forall i :: 0 <= i < |dias| ==> r[i].fecha == dias[i]
    requires forall f :: f in dias <==> exists d :: d in defs && LaborHelper(d) == f
    ensures forall d :: d in defs ==> exists i :: 0 <= i < |r| && r[i].fecha == LaborHelper(d)
  {
    forall d | d in defs ensures exists i :: 0 <= i < |r| && r[i].fecha == LaborHelper(d) {
      assert LaborHelper(d) in dias;
      var i :| 0 <= i < |dias| && dias[i] == LaborHelper(d);
    }
  }

  // ---------------------------------------------------------------------
  // GetDefectosPorMandril and GetCostoPorMandril
  // ---------------------------------------------------------------------

  /** The defects of the range after the mandrel and code list filters. */
  function DefectosPorMandrilBase(tabla: seq<Defecto>, inicio: Date, fin: Date,
                                  mandriles: seq<string>, codigos: seq<string>): (r: seq<Defecto>)
    ensures forall d :: d in r <==>
      d in tabla && inicio <= LaborHelper(d) <= fin
      && (|mandriles| == 0 || d.mandrel in mandriles) && (|codigos| == 0 || d.codigo in codigos)
  {
    SoloSiHayLista(SoloSiHayLista(DefectosDelRango(tabla, inicio, fin), DefMandrel, mandriles), DefCodigo, codigos)
  }

  /**
   * GetDefectosPorMandril's family of a defect: the catalog holds the
   * normalised family, a missing entry reads as null, and null is normalised
   * again to "SIN FAMILIA".
   */
  function FamiliaPorMandril(info: Catalogo, m: string): string
  {
    FamiliaNormalizada(if m in info then Some(FamiliaNormalizada(info[m].familia)) else None)
  }

  lemma FamiliaPorMandrilCases(info: Catalogo, m: string)
    ensures m in info ==> FamiliaPorMandril(info, m) == FamiliaNormalizada(info[m].familia)
    ensures m !in info ==> FamiliaPorMandril(info, m) == SinFamilia
  {
  }

  function FiltroFamiliaPorMandril(info: Catalogo, rows: seq<Defecto>, familias: seq<string>): seq<Defecto>
  {
    if |familias| > 0 then Filter(rows, (d: Defecto) => FamiliaPorMandril(info, d.mandrel) in familias) else rows
  }

  /** GetCostoPorMandril's family filter: a mandrel the catalog lacks fails it. */
  function FiltroFamiliaCostoPorMandril(info: Catalogo, rows: seq<Defecto>, familias: seq<string>): seq<Defecto>
  {
    if |familias| > 0 then
      Filter(rows, (d: Defecto) => d.mandrel in info && FamiliaNormalizada(info[d.mandrel].familia) in familias)
    else rows
  }

  /**
   * The two family filters agree on catalogued mandrels; a defect of a
   * mandrel the catalog lacks counts as "SIN FAMILIA" in
   * GetDefectosPorMandril and is always dropped by GetCostoPorMandril.
   */
  lemma FamilyFiltersDiffer(info: Catalogo, rows: seq<Defecto>, familias: seq<string>, d: Defecto)
    requires d in rows && |familias| > 0
    ensures d.mandrel in info ==>
      (d in FiltroFamiliaPorMandril(info, rows, familias) <==> d in FiltroFamiliaCostoPorMandril(info, rows, familias))
    ensures d.mandrel !in info ==>
      (d in FiltroFamiliaPorMandril(info, rows, familias) <==> SinFamilia in familias)
      && d !in FiltroFamiliaCostoPorMandril(info, rows, familias)
  {
    FamiliaPorMandrilCases(info, d.mandrel);
  }

  function GetDefectosPorMandril(cat: Catalogo, tabla: seq<Defecto>, inicio: Date, fin: Date,
                                 mandriles: seq<string>, codigos: seq<string>, familias: seq<string>): seq<(string, int)>
  {
    var rows := DefectosPorMandrilBase(tabla, inicio, fin, mandriles, codigos);
    SortBy(GroupCounts(FiltroFamiliaPorMandril(Inspeccion(cat), rows, familias), DefMandrel), MasPiezas)
  }

  function GetCostoPorMandril(cat: Catalogo, tabla: seq<Defecto>, inicio: Date, fin: Date,
                              mandriles: seq<string>, codigos: seq<string>, familias: seq<string>): seq<Costeado<string>>
  {
    var info := Inspeccion(cat);
    var rows := DefectosPorMandrilBase(tabla, inicio, fin, mandriles, codigos);
    OrdenPorCosto(FiltroFamiliaCostoPorMandril(info, rows, familias), DefMandrel, CostoUnitario(info))
  }

  /** Every mandrel with a kept defect, once, with its count; counts non-increasing and adding up. */
  lemma GetDefectosPorMandrilSpec(cat: Catalogo, tabla: seq<Defecto>, inicio: Date, fin: Date,
                                  mandriles: seq<string>, codigos: seq<string>, familias: seq<string>)
    ensures var rows := FiltroFamiliaPorMandril(Inspeccion(cat),
                          DefectosPorMandrilBase(tabla, inicio, fin, mandriles, codigos), familias);
            var r := GetDefectosPorMandril(cat, tabla, inicio, fin, mandriles, codigos, familias);
      && |r| == |KeysOf(rows, DefMandrel)|
      && (forall p :: p in r ==> p.1 == CountKey(rows, DefMandrel, p.0) && p.1 >= 1)
      && (forall i, j :: 0 <= i < j < |r| ==> r[i].1 >= r[j].1)
      && SumOf(r, GroupValue) == |rows|
  {
    var rows := FiltroFamiliaPorMandril(Inspeccion(cat),
                  DefectosPorMandrilBase(tabla, inicio, fin, mandriles, codigos), familias);
    var g := GroupCounts(rows, DefMandrel);
    var r := SortBy(g, MasPiezas);
    forall p | p in r ensures p.1 == CountKey(rows, DefMandrel, p.0) && p.1 >= 1 {
      assert p in multiset(g);
      GroupCountsMembers(rows, DefMandrel, p);
    }
    assert forall a: (string, int), b: (string, int) :: MasPiezas(a, b) == (TotalReal(a) > TotalReal(b));
    SortDescending(g, MasPiezas, TotalReal);
    forall i, j | 0 <= i < j < |r| ensures r[i].1 >= r[j].1 {
      assert TotalReal(r[i]) >= TotalReal(r[j]);
    }
    SumOfPermutation(r, g, GroupValue);
    GroupCountsTotal(rows, DefMandrel);
  }

  /** Every group once, with count x unit cost; costs non-increasing and adding up to the rows' cost. */
  lemma OrdenPorCostoSpec<T(!new), K(!new)>(rows: seq<T>, key: T -> K, unit: K -> real, val: T -> real)
    requires forall x :: val(x) == unit(key(x))
    ensures var r := OrdenPorCosto(rows, key, unit);
      && |r| == |KeysOf(rows, key)|
      && (forall c :: c in r ==>
            c.piezas == CountKey(rows, key, c.clave) && c.piezas >= 1 && c.costo == Veces(c.piezas, unit(c.clave)))
      && (forall i, j :: 0 <= i < j < |r| ==> r[i].costo >= r[j].costo)
      && SumReal(r, CostoDeFila) == SumReal(rows, val)
  {
    var all := Costeados(rows, key, unit);
    var r := SortBy(all, MasCosto);
    forall c | c in r
      ensures c.piezas == CountKey(rows, key, c.clave) && c.piezas >= 1 && c.costo == Veces(c.piezas, unit(c.clave))
    {
      assert c in multiset(all);
      CosteadosMembers(rows, key, unit, c);
    }
    assert forall a: Costeado<K>, b: Costeado<K> :: MasCosto(a, b) == (CostoDeFila(a) > CostoDeFila(b));
    SortDescending(all, MasCosto, CostoDeFila);
    SumRealPermutation(r, all, CostoDeFila);
    CosteadosTotal(rows, key, unit);
    SumRealCongruent(rows, (x: T) => unit(key(x)), val);
  }

  /** Every mandrel with a kept defect, once, with count x unit cost; costs non-increasing and adding up. */
  lemma GetCostoPorMandrilSpec(cat: Catalogo, tabla: seq<Defecto>, inicio: Date, fin: Date,
                               mandriles: seq<string>, codigos: seq<string>, familias: seq<string>)
    ensures var info := Inspeccion(cat);
            var rows := FiltroFamiliaCostoPorMandril(info,
                          DefectosPorMandrilBase(tabla, inicio, fin, mandriles, codigos), familias);
            var r := GetCostoPorMandril(cat, tabla, inicio, fin, mandriles, codigos, familias);
      && |r| == |KeysOf(rows, DefMandrel)|
      && (forall c :: c in r ==>
            c.piezas == CountKey(rows, DefMandrel, c.clave) && c.piezas >= 1
            && c.costo == Veces(c.piezas, CostoDe(info, c.clave)))
      && (forall i, j :: 0 <= i < j < |r| ==> r[i].costo >= r[j].costo)
      && SumReal(r, CostoDeFila) == SumReal(rows, (d: Defecto) => CostoDe(info, d.mandrel))
  {
    var info := Inspeccion(cat);
    var rows := FiltroFamiliaCostoPorMandril(info,
                  DefectosPorMandrilBase(tabla, inicio, fin, mandriles, codigos), familias);
    OrdenPorCostoSpec(rows, DefMandrel, CostoUnitario(info), (d: Defecto) => CostoDe(info, d.mandrel));
  }
}
