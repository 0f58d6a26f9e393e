/**
 * The operator table (RegistrodeUsersController): employee numbers are
 * normalised to start with "00", must parse as a 64-bit integer and must be
 * unique; names are stored upper-cased; rows are keyed by Id.
 */
module EmployeeRegistry {
  import opened Collections
  import opened Text
  import opened Records
  import opened KeyedTables

  /** The "00" prefix every stored employee number carries. */
  const Prefijo: string := "00"

  /** `if (!n.StartsWith("00")) n = "00" + n`. */
  function Normalizar(numero: string): (r: string)
    ensures StartsWith(r, Prefijo)
    ensures |numero| <= |r| <= |numero| + 2 && r[|r| - |numero|..] == numero
    ensures StartsWith(numero, Prefijo) ==> r == numero
  {
    if StartsWith(numero, Prefijo) then numero else Prefijo + numero
  }

  /** Normalising twice is normalising once. */
  lemma NormalizarIdempotente(numero: string)
    ensures Normalizar(Normalizar(numero)) == Normalizar(numero)
  {
  }

  /** A normalised number is a fixed point, and a number is normalised exactly when it starts with "00". */
  lemma NormalizadoSiEmpiezaConCeros(numero: string)
    ensures Normalizar(numero) == numero <==> StartsWith(numero, Prefijo)
  {
    if Normalizar(numero) == numero {
      assert StartsWith(Normalizar(numero), Prefijo);
    }
  }

  /** `long.TryParse(n, out _)`. */
  predicate EsNumerico(numero: string)
  {
    ParseInteger(numero, Int64Min, Int64Max).Some?
  }

  /** The employee number as SQL Server's `=` sees it. */
  function ClaveNumero(u: User): string { ClaveSql(u.numerodeEmpleado) }
  function IdDe(u: User): int { u.id }

  /** `Users.Any(u => u.NumerodeEmpleado == n)`, evaluated by the database. */
  predicate NumeroUsado(filas: seq<User>, numero: string)
  {
    HasKey(filas, ClaveNumero, ClaveSql(numero))
  }

  /** `Users.Any(u => u.NumerodeEmpleado == n && u.Id != id)`, evaluated by the database. */
  predicate NumeroUsadoPorOtro(filas: seq<User>, numero: string, id: int)
  {
    exists i :: 0 <= i < |filas| && IgualSql(filas[i].numerodeEmpleado, numero) && filas[i].id != id
  }

  /**
   * Int64 parsing allows trailing white space, so "00123 " passes the
   * numeric check; the database's `=` then finds "00123" and reports a
   * duplicate.
   */
  lemma NumeroConEspacioEsDuplicado(filas: seq<User>, k: int)
    requires 0 <= k < |filas|
    ensures NumeroUsado(filas, filas[k].numerodeEmpleado + " ")
    ensures EsNumerico(filas[k].numerodeEmpleado) ==> EsNumerico(filas[k].numerodeEmpleado + " ")
  {
    var n := filas[k].numerodeEmpleado;
    EspacioFinalIgnorado(n);
    assert ClaveNumero(filas[k]) == ClaveSql(n + " ");
    if EsNumerico(n) {
      ParseEspacioFinal(n, Int64Min, Int64Max);
    }
  }

  /** `Nombre?.ToUpperInvariant()`, a null name stored as null (read as ""). */
  function NombreEnMayusculas(nombre: Option<string>): (r: string)
    ensures nombre.None? ==> r == ""
    ensures nombre.Some? ==> |r| == |nombre.value| && forall i :: 0 <= i < |r| ==> r[i] == UpperChar(nombre.value[i])
  {
    if nombre.Some? then ToUpper(nombre.value) else ""
  }

  /** The posted form: NumerodeEmpleado and Nombre are nullable. */
  datatype Formulario = Formulario(id: int, numerodeEmpleado: Option<string>, nombre: Option<string>)

  /**
   * Why a request fails: ModelState invalid, a null number (StartsWith
   * throws), a number that is not an Int64, a duplicate number, or an
   * Edit/Delete of an Id with no row (Update throws when no row is
   * affected; Delete reports "not found").
   */
  datatype Error = ErrorDeValidacion | Excepcion | NoNumerico | Duplicado | NoEncontrado

  datatype Respuesta = Exito | Fallo(error: Error)

  /** Ids are the table key; Create and Edit keep employee numbers unique up to SQL `=`. */
  predicate TablaValida(filas: seq<User>)
  {
    UniqueBy(filas, IdDe) && UniqueBy(filas, ClaveNumero)
  }

  /** A row added with a new Id and an unused number keeps the table valid. */
  lemma AgregarValido(filas: seq<User>, u: User)
    requires TablaValida(filas)
    requires !HasKey(filas, IdDe, u.id) && !NumeroUsado(filas, u.numerodeEmpleado)
    ensures TablaValida(filas + [u])
  {
    AppendUnique(filas, IdDe, u);
    AppendUnique(filas, ClaveNumero, u);
  }

  /** Row `k` replaced under its own Id by a number no other Id uses keeps the table valid. */
  lemma ReemplazarValido(filas: seq<User>, k: int, u: User)
    requires TablaValida(filas) && 0 <= k < |filas| && filas[k].id == u.id
    requires !NumeroUsadoPorOtro(filas, u.numerodeEmpleado, u.id)
    ensures TablaValida(filas[k := u])
  {
    forall j | 0 <= j < |filas| && j != k ensures ClaveNumero(filas[j]) != ClaveNumero(u) {
      assert IdDe(filas[j]) != IdDe(filas[k]);
    }
    ReplaceUnique(filas, IdDe, k, u);
    ReplaceUnique(filas, ClaveNumero, k, u);
  }

  /** Re-saving a row with its own number is not a duplicate: Edit's check skips the row's own Id. */
  lemma MismoNumeroNoEsDuplicado(filas: seq<User>, k: int)
    requires TablaValida(filas) && 0 <= k < |filas|
    ensures !NumeroUsadoPorOtro(filas, filas[k].numerodeEmpleado, filas[k].id)
    ensures NumeroUsado(filas, filas[k].numerodeEmpleado)
  {
    assert ClaveNumero(filas[k]) == ClaveSql(filas[k].numerodeEmpleado);
  }

  /** Removing the row with an Id keeps the table valid and removes exactly that row. */
  lemma QuitarValido(filas: seq<User>, k: int)
    requires TablaValida(filas) && 0 <= k < |filas|
    ensures TablaValida(RemoveAt(filas, k))
    ensures forall u :: u in RemoveAt(filas, k) <==> u in filas && u.id != filas[k].id
  {
    RemoveAtUnique(filas, IdDe, k);
    RemoveAtUnique(filas, ClaveNumero, k);
  }

  /** The User table. */
  class TablaUsers {
    var filas: seq<User>

    /**
     * Create: the number is normalised in place, rejected unless it parses
     * as an Int64, then rejected if any row holds it; the name is
     * upper-cased and the row added. Every failure leaves the table as it
     * was.
     */
    method Create(user: Formulario, modeloValido: bool, idNuevo: int) returns (r: Respuesta)
      requires !HasKey(filas, IdDe, idNuevo)
      modifies this
      ensures !modeloValido ==> r == Fallo(ErrorDeValidacion)
      ensures modeloValido && user.numerodeEmpleado.None? ==> r == Fallo(Excepcion)
      ensures modeloValido && user.numerodeEmpleado.Some? ==>
        var n := Normalizar(user.numerodeEmpleado.value);
        && (!EsNumerico(n) ==> r == Fallo(NoNumerico))
        && (EsNumerico(n) && NumeroUsado(old(filas), n) ==> r == Fallo(Duplicado))
        && (EsNumerico(n) && !NumeroUsado(old(filas), n) ==>
              r == Exito && filas == old(filas) + [User(idNuevo, n, NombreEnMayusculas(user.nombre))])
      ensures r.Fallo? ==> filas == old(filas)
      ensures TablaValida(old(filas)) ==> TablaValida(filas)
    {
      if !modeloValido {
        return Fallo(ErrorDeValidacion);
      }
      if user.numerodeEmpleado.None? {
        return Fallo(Excepcion);
      }
      var numero := user.numerodeEmpleado.value;
      if !StartsWith(numero, Prefijo) {
        numero := Prefijo + numero;
      }
      if !EsNumerico(numero) {
        return Fallo(NoNumerico);
      }
      if NumeroUsado(filas, numero) {
        return Fallo(Duplicado);
      }
      var nuevo := User(idNuevo, numero, NombreEnMayusculas(user.nombre));
      if TablaValida(filas) {
        AgregarValido(filas, nuevo);
      }
      filas := filas + [nuevo];
      return Exito;
    }

    /**
     * Edit: the same normalisation and Int64 check, a duplicate check that
     * skips the row's own Id, the name upper-cased, and the row with that
     * Id replaced.
     */
    method Edit(user: Formulario, modeloValido: bool) returns (r: Respuesta)
      modifies this
      ensures !modeloValido ==> r == Fallo(ErrorDeValidacion)
      ensures modeloValido && user.numerodeEmpleado.None? ==> r == Fallo(Excepcion)
      ensures modeloValido && user.numerodeEmpleado.Some? ==>
        var n := Normalizar(user.numerodeEmpleado.value);
        && (!EsNumerico(n) ==> r == Fallo(NoNumerico))
        && (EsNumerico(n) && NumeroUsadoPorOtro(old(filas), n, user.id) ==> r == Fallo(Duplicado))
        && ((EsNumerico(n) && !NumeroUsadoPorOtro(old(filas), n, user.id) && !HasKey(old(filas), IdDe, user.id))
              ==> r == Fallo(NoEncontrado))
        && ((EsNumerico(n) && !NumeroUsadoPorOtro(old(filas), n, user.id) && HasKey(old(filas), IdDe, user.id)) ==>
              r == Exito &&
              filas == old(filas)[IndexOf(old(filas), IdDe, user.id).value := User(user.id, n, NombreEnMayusculas(user.nombre))])
      ensures r.Fallo? ==> filas == old(filas)
      ensures TablaValida(old(filas)) ==> TablaValida(filas)
    {
      if !modeloValido {
        return Fallo(ErrorDeValidacion);
      }
      if user.numerodeEmpleado.None? {
        return Fallo(Excepcion);
      }
      var numero := user.numerodeEmpleado.value;
      if !StartsWith(numero, Prefijo) {
        numero := Prefijo + numero;
      }
      if !EsNumerico(numero) {
        return Fallo(NoNumerico);
      }
      if NumeroUsadoPorOtro(filas, numero, user.id) {
        return Fallo(Duplicado);
      }
      var k := IndexOf(filas, IdDe, user.id);
      if k.None? {
        return Fallo(NoEncontrado);
      }
      var nuevo := User(user.id, numero, NombreEnMayusculas(user.nombre));
      if TablaValida(filas) {
        ReemplazarValido(filas, k.value, nuevo);
      }
      filas := filas[k.value := nuevo];
      return Exito;
    }

    /** Delete: an Id with no row fails with nothing changed; otherwise that row is removed. */
    method Delete(id: int) returns (r: Respuesta)
      modifies this
      ensures !HasKey(old(filas), IdDe, id) ==> r == Fallo(NoEncontrado) && filas == old(filas)
      ensures HasKey(old(filas), IdDe, id) ==> r == Exito && filas == RemoveAt(old(filas), IndexOf(old(filas), IdDe, id).value)
      ensures TablaValida(old(filas)) ==> TablaValida(filas) && !HasKey(filas, IdDe, id)
    {
      var k := IndexOf(filas, IdDe, id);
      if k.None? {
        return Fallo(NoEncontrado);
      }
      if TablaValida(filas) {
        QuitarValido(filas, k.value);
        RemoveAtUnique(filas, IdDe, k.value);
      }
      filas := RemoveAt(filas, k.value);
      return Exito;
    }
  }
}
