/**
 * The rows the reports read: defect records, scanned-piece records, the
 * mandrel catalog and the work tables ("mesas"). A nullable text column of an
 * event row is a string: the model has no null for it and covers the rows
 * whose text is present. The catalog's unit cost and family, whose null the
 * reports test for, are `Option`s.
 */
module Records {
  import opened Collections
  import opened ShiftCalendar
  import opened Text

  /** A row of RegistrodeDefectos. */
  datatype Defecto = Defecto(
    id: int, fecha: Date, hora: TimeOfDay,
    mandrel: string, codigo: string, defecto: string,
    nuMesa: string, turno: string, tm: string)

  /** A row of RegistrodePiezasEscaneadas; `ndpiezas` is the scanned quantity as text. */
  datatype Pieza = Pieza(
    id: int, fecha: Date, hora: TimeOfDay,
    mandrel: string, ndpiezas: string,
    turno: string, nuMesa: string, tm: string)

  /** The catalog columns the reports use: unit cost and family, both nullable. */
  datatype MandrilInfo = MandrilInfo(area: string, costo: Option<real>, familia: Option<string>)

  /** The mandrel catalog keyed by MandrilNombre. */
  type Catalogo = map<string, MandrilInfo>

  /** A row of Mesas: numeric id, label, and an optional goal per shift. */
  datatype Mesa = Mesa(idMesa: int, numerodeMesa: string, meta: Option<int>)

  /** A row of the User table (operators): key Id, employee number and name. */
  datatype User = User(id: int, numerodeEmpleado: string, nombre: string)

  /** `int.TryParse(x.Ndpiezas, out var n) ? n : 0`: the scanned quantity, 0 when it does not parse. */
  function PzPiezas(p: Pieza): (n: int)
    ensures ParseInteger(p.ndpiezas, Int32Min, Int32Max).None? ==> n == 0
    ensures ParseInteger(p.ndpiezas, Int32Min, Int32Max).Some? ==> n == ParseInteger(p.ndpiezas, Int32Min, Int32Max).value
  {
    ParseInt32OrZero(p.ndpiezas)
  }

  function DefFecha(d: Defecto): Date { d.fecha }
  function DefHora(d: Defecto): TimeOfDay { d.hora }
  function PzFecha(p: Pieza): Date { p.fecha }
  function PzHora(p: Pieza): TimeOfDay { p.hora }

  // ---------------------------------------------------------------------
  // Catalog lookups and the three family normalisations
  // ---------------------------------------------------------------------

  /**
   * `Mandriles.Where(m => m.Area == "INSPECCION")`, evaluated by the database:
   * an area spelled in another case or with trailing spaces is kept.
   */
  function Inspeccion(cat: Catalogo): (r: Catalogo)
    ensures forall m :: m in r <==> m in cat && IgualSql(cat[m].area, "INSPECCION")
    ensures forall m :: m in r ==> r[m] == cat[m]
    ensures forall m :: m in cat && cat[m].area == "INSPECCION" ==> m in r
  {
    map m | m in cat && IgualSql(cat[m].area, "INSPECCION") :: cat[m]
  }

  /** A mandrel whose area is "Inspeccion " is an inspection mandrel; one in "MOLDEO" is not. */
  lemma InspeccionVariante(info: MandrilInfo)
    ensures "M-01" in Inspeccion(map["M-01" := info.(area := "Inspeccion ")])
    ensures "M-01" !in Inspeccion(map["M-01" := info.(area := "MOLDEO")])
  {
    assert SinEspaciosFinales("Inspeccion ") == "Inspeccion" by {
      assert "Inspeccion "[..10] == "Inspeccion";
    }
    assert ToUpper("Inspeccion") == "INSPECCION";
    assert ClaveSql("INSPECCION") == "INSPECCION";
    assert ClaveSql("MOLDEO") == "MOLDEO";
  }

  const SinFamilia: string := "SIN FAMILIA"

  /** `string.IsNullOrWhiteSpace(m.Familia) ? "SIN FAMILIA" : m.Familia`. */
  function FamiliaNormalizada(f: Option<string>): (r: string)
    ensures !IsBlank(r)
    ensures f.Some? && !IsBlank(f.value) ==> r == f.value
    ensures f.None? || IsBlank(f.value) ==> r == SinFamilia
  {
    assert !IsWhiteSpace(SinFamilia[0]);
    if f.None? || IsBlank(f.value) then SinFamilia else f.value
  }

  /** `m.Familia ?? "SIN FAMILIA"`: only null is replaced, a blank family passes through. */
  function FamiliaONull(f: Option<string>): (r: string)
    ensures f.Some? ==> r == f.value
    ensures f.None? ==> r == SinFamilia
  {
    if f.Some? then f.value else SinFamilia
  }

  /** `m.Familia ?? ""`. */
  function FamiliaOVacia(f: Option<string>): (r: string)
    ensures f.Some? ==> r == f.value
    ensures f.None? ==> r == ""
  {
    if f.Some? then f.value else ""
  }

  /**
   * Where the call sites part ways: the IsNullOrWhiteSpace form and the
   * `?? "SIN FAMILIA"` form disagree exactly on a non-null blank family (which
   * the second keeps); `?? ""` and `?? "SIN FAMILIA"` disagree exactly on null.
   */
  lemma FamiliaNormalisationsDiffer(f: Option<string>)
    ensures FamiliaNormalizada(f) != FamiliaONull(f) <==> f.Some? && IsBlank(f.value)
    ensures FamiliaONull(f) != FamiliaOVacia(f) <==> f.None?
    ensures FamiliaNormalizada(Some("")) == SinFamilia && FamiliaONull(Some("")) == ""
  {
    assert !IsWhiteSpace(SinFamilia[0]);
    if f.Some? && IsBlank(f.value) {
      assert f.value != SinFamilia;
    }
  }

  /** `m.Costo ?? 0`. */
  function CostoOCero(c: Option<real>): (r: real)
    ensures c.None? ==> r == 0.0
    ensures c.Some? ==> r == c.value
  {
    if c.Some? then c.value else 0.0
  }

  /** Unit cost of a mandrel; a mandrel missing from the catalog costs 0. */
  function CostoDe(cat: Catalogo, mandrel: string): (r: real)
    ensures mandrel !in cat ==> r == 0.0
    ensures mandrel in cat ==> r == CostoOCero(cat[mandrel].costo)
  {
    if mandrel in cat then CostoOCero(cat[mandrel].costo) else 0.0
  }
}
