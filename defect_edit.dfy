/**
 * Editing a defect row (RegistrodeDefectosController.EditarDefecto): the
 * selected "code|description" is split, the row with the model's Id is
 * fetched, each of seven columns that differs from the model is overwritten
 * and listed as a change, and a log entry is written only when something
 * changed. The row is a tracked entity whose columns are updated in place.
 */
module DefectEdit {
  import opened Collections
  import opened Text
  import ShiftCalendar
  import Records

  /** The columns EditarDefecto compares, in the order it compares them. */
  datatype Campo = NuMesa | Turno | Mandrel | Codigo | Defecto | Hora | Tm

  const Campos: seq<Campo> := [NuMesa, Turno, Mandrel, Codigo, Defecto, Hora, Tm]

  /** A column's value: text, or the time of day for Hora. */
  datatype Valor = Texto(s: string) | Tiempo(t: ShiftCalendar.TimeOfDay)

  /** One entry of `cambios`: the column with its old and its new value. */
  datatype Cambio = Cambio(campo: Campo, antes: Valor, despues: Valor)

  function ValorDe(d: Records.Defecto, c: Campo): Valor
  {
    match c
    case NuMesa => Texto(d.nuMesa)
    case Turno => Texto(d.turno)
    case Mandrel => Texto(d.mandrel)
    case Codigo => Texto(d.codigo)
    case Defecto => Texto(d.defecto)
    case Hora => Tiempo(d.hora)
    case Tm => Texto(d.tm)
  }

  /** The row after the edit: the seven columns from the model and the selection, Id and Fecha kept. */
  function Editado(d: Records.Defecto, model: Records.Defecto, codigo: string, defecto: string): (r: Records.Defecto)
    ensures r.id == d.id && r.fecha == d.fecha
    ensures ValorDe(r, Codigo) == Texto(codigo) && ValorDe(r, Defecto) == Texto(defecto)
    ensures forall c :: c != Codigo && c != Defecto ==> ValorDe(r, c) == ValorDe(model, c)
  {
    d.(nuMesa := model.nuMesa, turno := model.turno, mandrel := model.mandrel,
       codigo := codigo, defecto := defecto, hora := model.hora, tm := model.tm)
  }

  /** The change one column contributes: its old and new value, when they differ. */
  function Uno(a: Records.Defecto, b: Records.Defecto, c: Campo): seq<Cambio>
  {
    if ValorDe(a, c) != ValorDe(b, c) then [Cambio(c, ValorDe(a, c), ValorDe(b, c))] else []
  }

  /** The change list between two rows over the given columns, in column order. */
  function Diferencias(a: Records.Defecto, b: Records.Defecto, campos: seq<Campo>): (r: seq<Cambio>)
    ensures |r| <= |campos|
  {
    if |campos| == 0 then []
    else Diferencias(a, b, campos[..|campos| - 1]) + Uno(a, b, campos[|campos| - 1])
  }

  /** The columns named by a change list. */
  function CamposDe(cs: seq<Cambio>): seq<Campo>
  {
    Map(cs, (x: Cambio) => x.campo)
  }

  /**
   * The change list names exactly the columns whose values differ, each
   * once and in column order, and carries their old and new values.
   */
  lemma {:induction false} DiferenciasExactas(a: Records.Defecto, b: Records.Defecto, campos: seq<Campo>)
    requires NoDuplicates(campos)
    ensures forall c :: c in CamposDe(Diferencias(a, b, campos)) <==> c in campos && ValorDe(a, c) != ValorDe(b, c)
    ensures forall x :: x in Diferencias(a, b, campos) ==> x.antes == ValorDe(a, x.campo) && x.despues == ValorDe(b, x.campo)
    ensures NoDuplicates(CamposDe(Diferencias(a, b, campos)))
    decreases |campos|
  {
    if |campos| > 0 {
      var c := campos[|campos| - 1];
      var init := campos[..|campos| - 1];
      var previo := Diferencias(a, b, init);
      assert campos == init + [c];
      assert NoDuplicates(init) && c !in init;
      DiferenciasExactas(a, b, init);
      assert Diferencias(a, b, campos) == previo + Uno(a, b, c);
      if ValorDe(a, c) != ValorDe(b, c) {
        CamposDeSnoc(previo, Cambio(c, ValorDe(a, c), ValorDe(b, c)));
        SnocSinRepetir(CamposDe(previo), c);
      } else {
        assert Diferencias(a, b, campos) == previo;
      }
    }
  }

  /** Naming the columns of a change list commutes with appending one change. */
  lemma CamposDeSnoc(cs: seq<Cambio>, x: Cambio)
    ensures CamposDe(cs + [x]) == CamposDe(cs) + [x.campo]
  {
  }

  /** Appending a column not yet listed keeps the list free of repeats. */
  lemma SnocSinRepetir(s: seq<Campo>, k: Campo)
    requires NoDuplicates(s) && k !in s
    ensures NoDuplicates(s + [k])
  {
  }

  /** Every column is among the seven. */
  lemma TodosLosCampos()
    ensures forall c :: c in Campos
  {
    forall c ensures c in Campos {
      match c
      case NuMesa => assert Campos[0] == c;
      case Turno => assert Campos[1] == c;
      case Mandrel => assert Campos[2] == c;
      case Codigo => assert Campos[3] == c;
      case Defecto => assert Campos[4] == c;
      case Hora => assert Campos[5] == c;
      case Tm => assert Campos[6] == c;
    }
  }

  /** Over the seven columns: every column that differs is listed, once, and no other. */
  lemma CambiosListados(a: Records.Defecto, b: Records.Defecto)
    ensures forall c :: c in CamposDe(Diferencias(a, b, Campos)) <==> ValorDe(a, c) != ValorDe(b, c)
    ensures NoDuplicates(CamposDe(Diferencias(a, b, Campos)))
  {
    TodosLosCampos();
    DiferenciasExactas(a, b, Campos);
  }

  /** Two rows with the same Id and Fecha produce no changes exactly when they are equal. */
  lemma SinCambiosSiIguales(a: Records.Defecto, b: Records.Defecto)
    requires a.id == b.id && a.fecha == b.fecha
    ensures Diferencias(a, b, Campos) == [] <==> a == b
  {
    DiferenciasPrefijos(a, b);
    if Diferencias(a, b, Campos) == [] {
      assert Uno(a, b, NuMesa) == [] && Uno(a, b, Turno) == [] && Uno(a, b, Mandrel) == [];
      assert Uno(a, b, Codigo) == [] && Uno(a, b, Defecto) == [] && Uno(a, b, Hora) == [] && Uno(a, b, Tm) == [];
    }
  }

  /** Saving the same edit a second time changes nothing and lists no change. */
  lemma EditarDosVeces(d: Records.Defecto, model: Records.Defecto, codigo: string, defecto: string)
    ensures Editado(Editado(d, model, codigo, defecto), model, codigo, defecto) == Editado(d, model, codigo, defecto)
    ensures var e := Editado(d, model, codigo, defecto);
      Diferencias(e, Editado(e, model, codigo, defecto), Campos) == []
  {
    var e := Editado(d, model, codigo, defecto);
    SinCambiosSiIguales(e, Editado(e, model, codigo, defecto));
  }

  /** A defect row as the context tracks it: Id is the key, the other columns are updated in place. */
  class RegistroDefecto {
    const id: int
    var fecha: ShiftCalendar.Date
    var hora: ShiftCalendar.TimeOfDay
    var mandrel: string
    var codigo: string
    var defecto: string
    var nuMesa: string
    var turno: string
    var tm: string

    /** The row's current values. */
    function Valor(): (r: Records.Defecto)
      reads this
      ensures r.id == id
    {
      Records.Defecto(id, fecha, hora, mandrel, codigo, defecto, nuMesa, turno, tm)
    }

    constructor (d: Records.Defecto)
      ensures Valor() == d
    {
      id := d.id;
      fecha := d.fecha;
      hora := d.hora;
      mandrel := d.mandrel;
      codigo := d.codigo;
      defecto := d.defecto;
      nuMesa := d.nuMesa;
      turno := d.turno;
      tm := d.tm;
    }

    /**
     * One block of the comparison: when column `c` differs from `v`, the
     * change is listed and the column overwritten.
     */
    method Comparar(c: Campo, v: Valor) returns (cambio: seq<Cambio>)
      requires v.Tiempo? <==> c == Hora
      modifies this
      ensures Valor() == Escribir(old(Valor()), c, v)
      ensures cambio == Uno(old(Valor()), Valor(), c)
    {
      var actual := ValorDe(Valor(), c);
      cambio := [];
      if actual != v {
        cambio := [Cambio(c, actual, v)];
        match c {
          case NuMesa => nuMesa := v.s;
          case Turno => turno := v.s;
          case Mandrel => mandrel := v.s;
          case Codigo => codigo := v.s;
          case Defecto => defecto := v.s;
          case Hora => hora := v.t;
          case Tm => tm := v.s;
        }
      }
    }

    /**
     * EditarDefecto's seven comparisons in order: NuMesa, Turno, Mandrel
     * and Hora and Tm from the model, Codigo and Defecto from the selection.
     */
    method Actualizar(model: Records.Defecto, nuevoCodigo: string, nuevoDefecto: string) returns (cambios: seq<Cambio>)
      modifies this
      ensures Valor() == Editado(old(Valor()), model, nuevoCodigo, nuevoDefecto)
      ensures cambios == Diferencias(old(Valor()), Valor(), Campos)
    {
      ghost var antes := Valor();
      ghost var despues := Editado(antes, model, nuevoCodigo, nuevoDefecto);
      var cambio := Comparar(NuMesa, Texto(model.nuMesa));
      cambios := cambio;
      cambio := Comparar(Turno, Texto(model.turno));
      cambios := cambios + cambio;
      cambio := Comparar(Mandrel, Texto(model.mandrel));
      cambios := cambios + cambio;
      assert cambios == Diferencias(antes, despues, Campos[..3]) by {
        DiferenciasPrefijos(antes, despues);
      }
      cambio := Comparar(Codigo, Texto(nuevoCodigo));
      cambios := cambios + cambio;
      cambio := Comparar(Defecto, Texto(nuevoDefecto));
      cambios := cambios + cambio;
      cambio := Comparar(Hora, Tiempo(model.hora));
      cambios := cambios + cambio;
      cambio := Comparar(Tm, Texto(model.tm));
      cambios := cambios + cambio;
      assert Valor() == despues;
      DiferenciasPrefijos(antes, despues);
    }
  }

  /** A row with column `c` set to `v`. */
  function Escribir(d: Records.Defecto, c: Campo, v: Valor): (r: Records.Defecto)
    requires v.Tiempo? <==> c == Hora
    ensures ValorDe(r, c) == v
    ensures forall c' :: c' != c ==> ValorDe(r, c') == ValorDe(d, c')
    ensures r.id == d.id && r.fecha == d.fecha
  {
    match c
    case NuMesa => d.(nuMesa := v.s)
    case Turno => d.(turno := v.s)
    case Mandrel => d.(mandrel := v.s)
    case Codigo => d.(codigo := v.s)
    case Defecto => d.(defecto := v.s)
    case Hora => d.(hora := v.t)
    case Tm => d.(tm := v.s)
  }

  /** Diferencias over each prefix of the seven columns, one column more each time. */
  lemma DiferenciasPrefijos(a: Records.Defecto, b: Records.Defecto)
    ensures Diferencias(a, b, Campos[..3]) == Uno(a, b, NuMesa) + Uno(a, b, Turno) + Uno(a, b, Mandrel)
    ensures Diferencias(a, b, Campos[..4]) == Diferencias(a, b, Campos[..3]) + Uno(a, b, Codigo)
    ensures Diferencias(a, b, Campos[..5]) == Diferencias(a, b, Campos[..4]) + Uno(a, b, Defecto)
    ensures Diferencias(a, b, Campos[..6]) == Diferencias(a, b, Campos[..5]) + Uno(a, b, Hora)
    ensures Diferencias(a, b, Campos) == Diferencias(a, b, Campos[..6]) + Uno(a, b, Tm)
  {
    assert Campos[..1] == [NuMesa] && Campos[..1][..0] == [];
    assert Diferencias(a, b, Campos[..1]) == Uno(a, b, NuMesa);
    assert Campos[..2][..1] == Campos[..1] && Campos[..2][1] == Turno;
    assert Diferencias(a, b, Campos[..2]) == Uno(a, b, NuMesa) + Uno(a, b, Turno);
    assert Campos[..3][..2] == Campos[..2] && Campos[..3][2] == Mandrel;
    assert Campos[..4][..3] == Campos[..3] && Campos[..4][3] == Codigo;
    assert Campos[..5][..4] == Campos[..4] && Campos[..5][4] == Defecto;
    assert Campos[..6][..5] == Campos[..5] && Campos[..6][5] == Hora;
    assert Campos[..6] == Campos[..|Campos| - 1] && Campos[6] == Tm;
  }
  // ---------------------------------------------------------------------
  // The request: selection, lookup, update and log
  // ---------------------------------------------------------------------

  /** The selection "code|description": its first two pieces, trimmed; None when there is no second piece. */
  function Seleccion(s: string): (r: Option<(string, string)>)
    ensures r.None? <==> '|' !in s
  {
    SplitHasSecond(s, '|');
    var partes := SplitChar(s, '|');
    if |partes| < 2 then None else Some((Trim(partes[0]), Trim(partes[1])))
  }

  /** The view's value round-trips: splitting "code|description" gives back both halves, trimmed. */
  lemma SeleccionDeUnir(codigo: string, defecto: string)
    requires '|' !in codigo && '|' !in defecto
    ensures Seleccion(codigo + "|" + defecto) == Some((Trim(codigo), Trim(defecto)))
  {
    JoinSplit([codigo, defecto], '|');
    assert JoinChar([codigo, defecto], '|') == codigo + "|" + defecto by {
      assert [codigo, defecto][1..] == [defecto];
    }
  }

  /** Why a request fails: no selection, a selection Split cannot index (the caught exception), no such row. */
  datatype Error = SeleccionVacia | ErrorAlGuardar | NoExiste

  datatype Respuesta = Exito | Fallo(error: Error)

  /** A Logs row; the timestamp is not modelled. */
  datatype Log = Log(usuario: string, accion: string, nivel: string, categoria: string,
                     defectoId: int, cambios: seq<Cambio>)

  /** `User.Identity?.Name ?? "Sistema"`. */
  function UsuarioDelLog(identidad: Option<string>): string
  {
    if identidad.Some? then identidad.value else "Sistema"
  }

  /** The log appended after a save: one entry when something changed, none otherwise. */
  function LogDeEdicion(identidad: Option<string>, id: int, cambios: seq<Cambio>): (r: seq<Log>)
    ensures |r| <= 1
    ensures r == [] <==> cambios == []
    ensures forall l :: l in r ==> l.defectoId == id && l.cambios == cambios && l.accion == "Actualizar Defecto"
  {
    if cambios != [] then [Log(UsuarioDelLog(identidad), "Actualizar Defecto", "Info", "Producción", id, cambios)]
    else []
  }

  /** `FirstOrDefault(d => d.Id == id)`. */
  function Buscar(rs: seq<RegistroDefecto>, id: int): (r: Option<RegistroDefecto>)
    ensures r.None? <==> forall x :: x in rs ==> x.id != id
    ensures r.Some? ==> r.value in rs && r.value.id == id
  {
    if |rs| == 0 then None
    else if rs[0].id == id then Some(rs[0])
    else Buscar(rs[1..], id)
  }

  /** The first row with the Id is the one Buscar returns. */
  lemma {:induction false} BuscarPrimero(rs: seq<RegistroDefecto>, id: int, k: int)
    requires 0 <= k < |rs| && rs[k].id == id
    requires forall j :: 0 <= j < k ==> rs[j].id != id
    ensures Buscar(rs, id) == Some(rs[k])
  {
    if k > 0 {
      BuscarPrimero(rs[1..], id, k - 1);
    }
  }

  /** The defect rows and the log table of the database context. */
  class Contexto {
    var defectos: seq<RegistroDefecto>
    var logs: seq<Log>

    /** The tracked row objects. */
    function Filas(): set<RegistroDefecto>
      reads this
    {
      set x | x in defectos
    }

    /** `FirstOrDefault(d => d.Id == id)` as a search: the first position holding the Id, or |defectos|. */
    method Indice(id: int) returns (k: int)
      ensures 0 <= k <= |defectos|
      ensures k == |defectos| <==> Buscar(defectos, id).None?
      ensures k < |defectos| ==> Buscar(defectos, id) == Some(defectos[k])
    {
      k := 0;
      while k < |defectos| && defectos[k].id != id
        invariant 0 <= k <= |defectos|
        invariant forall j :: 0 <= j < k ==> defectos[j].id != id
      {
        k := k + 1;
      }
      if k < |defectos| {
        BuscarPrimero(defectos, id, k);
      }
    }

    /**
     * EditarDefecto: an empty selection fails, a selection without '|'
     * fails (Split leaves no second piece), a missing Id fails; otherwise
     * the first row with the model's Id gets the model's columns and the
     * selected code and description, nothing else changes, and a log entry
     * listing the changed columns is appended only if there was one.
     */
    method EditarDefecto(model: Records.Defecto, codigoDeDefecto: string, identidad: Option<string>)
      returns (r: Respuesta)
      modifies this, Filas()
      ensures defectos == old(defectos)
      ensures codigoDeDefecto == [] ==> r == Fallo(SeleccionVacia)
      ensures codigoDeDefecto != [] && Seleccion(codigoDeDefecto).None? ==> r == Fallo(ErrorAlGuardar)
      ensures codigoDeDefecto != [] && Seleccion(codigoDeDefecto).Some? && Buscar(defectos, model.id).None?
              ==> r == Fallo(NoExiste)
      ensures r.Fallo? ==> logs == old(logs) && forall x :: x in defectos ==> unchanged(x)
      ensures r.Exito? <==> codigoDeDefecto != [] && Seleccion(codigoDeDefecto).Some? && Buscar(defectos, model.id).Some?
      ensures r.Exito? ==>
        var sel := Seleccion(codigoDeDefecto).value;
        var reg := Buscar(defectos, model.id).value;
        && reg.Valor() == Editado(old(reg.Valor()), model, sel.0, sel.1)
        && (forall x :: x in defectos && x != reg ==> unchanged(x))
        && logs == old(logs) + LogDeEdicion(identidad, model.id, Diferencias(old(reg.Valor()), reg.Valor(), Campos))
    {
      if codigoDeDefecto == [] {
        return Fallo(SeleccionVacia);
      }
      var seleccion := Seleccion(codigoDeDefecto);
      if seleccion.None? {
        return Fallo(ErrorAlGuardar);
      }
      var (codigo, defecto) := seleccion.value;
      var k := Indice(model.id);
      if k == |defectos| {
        return Fallo(NoExiste);
      }
      var registro := defectos[k];
      var cambios := registro.Actualizar(model, codigo, defecto);
      if |cambios| > 0 {
        logs := logs + [Log(UsuarioDelLog(identidad), "Actualizar Defecto", "Info", "Producción", registro.id, cambios)];
      }
      return Exito;
    }
  }
}
