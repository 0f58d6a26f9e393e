/**
 * The login accounts (UsuariosController): a table of Usuarios keyed by Id
 * whose NombreUsuario the create and edit actions keep unique, and which an
 * administrator may not delete while signed in as that account.
 */
module Accounts {
  import opened Collections
  import opened Text
  import opened KeyedTables

  /** A Usuarios row; FechaAlta is a timestamp the model only carries. */
  datatype Usuario = Usuario(
    id: int, nombreUsuario: string, passwordHash: string, rol: string,
    fechaAlta: int, securityStamp: string)

  function IdDe(u: Usuario): int { u.id }
  /** The name as SQL Server's `=` sees it. */
  function ClaveNombre(u: Usuario): string { ClaveSql(u.nombreUsuario) }

  /** `Usuarios.Any(u => u.NombreUsuario == nombre)`, evaluated by the database. */
  predicate NombreUsado(filas: seq<Usuario>, nombre: string)
  {
    HasKey(filas, ClaveNombre, ClaveSql(nombre))
  }

  /** `Usuarios.Any(u => u.NombreUsuario == nombre && u.Id != id)`, evaluated by the database. */
  predicate NombreUsadoPorOtro(filas: seq<Usuario>, nombre: string, id: int)
  {
    exists i :: 0 <= i < |filas| && IgualSql(filas[i].nombreUsuario, nombre) && filas[i].id != id
  }

  /** Ids are the table key; Crear and Editar keep user names unique up to SQL `=`. */
  predicate TablaValida(filas: seq<Usuario>)
  {
    UniqueBy(filas, IdDe) && UniqueBy(filas, ClaveNombre)
  }

  /** An existing name with a trailing space, or in other case, counts as taken. */
  lemma NombreVarianteUsado(filas: seq<Usuario>, k: int, nombre: string)
    requires 0 <= k < |filas| && IgualSql(nombre, filas[k].nombreUsuario)
    ensures NombreUsado(filas, nombre)
    ensures NombreUsado(filas, filas[k].nombreUsuario + " ")
  {
    EspacioFinalIgnorado(filas[k].nombreUsuario);
    assert ClaveNombre(filas[k]) == ClaveSql(nombre);
  }

  /** `string.IsNullOrWhiteSpace(password)`, with null as None. */
  predicate SinPassword(password: Option<string>)
  {
    password.None? || IsBlank(password.value)
  }

  /** The row after Editar: new name and role, and a new hash only when a password was typed. */
  function Editado(u: Usuario, nombre: string, rol: string, password: Option<string>, hash: string -> string): (r: Usuario)
    ensures r.id == u.id && r.fechaAlta == u.fechaAlta && r.securityStamp == u.securityStamp
    ensures r.nombreUsuario == nombre && r.rol == rol
    ensures SinPassword(password) ==> r.passwordHash == u.passwordHash
    ensures !SinPassword(password) ==> r.passwordHash == hash(password.value)
  {
    var conNombre := u.(nombreUsuario := nombre, rol := rol);
    if SinPassword(password) then conNombre else conNombre.(passwordHash := hash(password.value))
  }

  /** A new account with a new Id and an unused name keeps the table valid. */
  lemma CrearValido(filas: seq<Usuario>, u: Usuario)
    requires TablaValida(filas)
    requires !HasKey(filas, IdDe, u.id) && !NombreUsado(filas, u.nombreUsuario)
    ensures TablaValida(filas + [u])
  {
    AppendUnique(filas, IdDe, u);
    AppendUnique(filas, ClaveNombre, u);
  }

  /** Renaming row `k` to a name no other Id holds keeps the table valid. */
  lemma EditarValido(filas: seq<Usuario>, k: int, u: Usuario)
    requires TablaValida(filas) && 0 <= k < |filas| && filas[k].id == u.id
    requires !NombreUsadoPorOtro(filas, u.nombreUsuario, u.id)
    ensures TablaValida(filas[k := u])
  {
    forall j | 0 <= j < |filas| && j != k ensures ClaveNombre(filas[j]) != ClaveNombre(u) {
      assert IdDe(filas[j]) != IdDe(filas[k]);
    }
    ReplaceUnique(filas, IdDe, k, u);
    ReplaceUnique(filas, ClaveNombre, k, u);
  }

  /** Keeping one's own name is allowed: the check skips the row's own Id. */
  lemma MismoNombrePermitido(filas: seq<Usuario>, k: int)
    requires TablaValida(filas) && 0 <= k < |filas|
    ensures !NombreUsadoPorOtro(filas, filas[k].nombreUsuario, filas[k].id)
  {
  }

  /** Deleting row `k` keeps the table valid, and afterwards no account has its name or its Id. */
  lemma EliminarValido(filas: seq<Usuario>, k: int)
    requires TablaValida(filas) && 0 <= k < |filas|
    ensures TablaValida(RemoveAt(filas, k))
    ensures !NombreUsado(RemoveAt(filas, k), filas[k].nombreUsuario)
    ensures !HasKey(RemoveAt(filas, k), IdDe, filas[k].id)
    ensures forall u :: u in RemoveAt(filas, k) <==> u in filas && u.id != filas[k].id
  {
    RemoveAtUnique(filas, IdDe, k);
    RemoveAtUnique(filas, ClaveNombre, k);
  }

  /** Why an action fails: a taken name, an unknown Id, or deleting the signed-in account. */
  datatype Error = Duplicado | NoEncontrado | PropioUsuario

  datatype Respuesta = Exito | Fallo(error: Error)

  /** The Usuarios table. */
  class TablaUsuarios {
    var filas: seq<Usuario>

    /**
     * Crear: a taken name fails with nothing changed; otherwise the bound
     * model is added as it came, under the Id the database assigns. The
     * `password` argument plays no part.
     */
    method Crear(model: Usuario, password: string, idNuevo: int) returns (r: Respuesta)
      requires !HasKey(filas, IdDe, idNuevo)
      modifies this
      ensures NombreUsado(old(filas), model.nombreUsuario) ==> r == Fallo(Duplicado) && filas == old(filas)
      ensures !NombreUsado(old(filas), model.nombreUsuario) ==> r == Exito && filas == old(filas) + [model.(id := idNuevo)]
      ensures TablaValida(old(filas)) ==> TablaValida(filas)
    {
      if NombreUsado(filas, model.nombreUsuario) {
        return Fallo(Duplicado);
      }
      var nuevo := model.(id := idNuevo);
      if TablaValida(filas) {
        CrearValido(filas, nuevo);
      }
      filas := filas + [nuevo];
      return Exito;
    }

    /**
     * Editar: an unknown Id fails, then a name held by another Id fails;
     * otherwise the row gets the name and role, and the hash of the
     * password when one was typed. SecurityStamp is not touched.
     */
    method Editar(id: int, nombreUsuario: string, rol: string, password: Option<string>, hash: string -> string)
      returns (r: Respuesta)
      modifies this
      ensures !HasKey(old(filas), IdDe, id) ==> r == Fallo(NoEncontrado) && filas == old(filas)
      ensures HasKey(old(filas), IdDe, id) && NombreUsadoPorOtro(old(filas), nombreUsuario, id)
              ==> r == Fallo(Duplicado) && filas == old(filas)
      ensures HasKey(old(filas), IdDe, id) && !NombreUsadoPorOtro(old(filas), nombreUsuario, id) ==>
        var k := IndexOf(old(filas), IdDe, id).value;
        r == Exito && filas == old(filas)[k := Editado(old(filas)[k], nombreUsuario, rol, password, hash)]
      ensures TablaValida(old(filas)) ==> TablaValida(filas)
    {
      var k := IndexOf(filas, IdDe, id);
      if k.None? {
        return Fallo(NoEncontrado);
      }
      if NombreUsadoPorOtro(filas, nombreUsuario, id) {
        return Fallo(Duplicado);
      }
      var usuario := filas[k.value];
      usuario := usuario.(nombreUsuario := nombreUsuario, rol := rol);
      if !SinPassword(password) {
        usuario := usuario.(passwordHash := hash(password.value));
      }
      if TablaValida(filas) {
        EditarValido(filas, k.value, usuario);
      }
      filas := filas[k.value := usuario];
      return Exito;
    }

    /**
     * EliminarConfirmado: an unknown Id fails; the account whose name is
     * the signed-in identity is refused; otherwise the row is removed.
     */
    method EliminarConfirmado(id: int, identidad: Option<string>) returns (r: Respuesta)
      modifies this
      ensures !HasKey(old(filas), IdDe, id) ==> r == Fallo(NoEncontrado) && filas == old(filas)
      ensures HasKey(old(filas), IdDe, id) ==>
        var k := IndexOf(old(filas), IdDe, id).value;
        && (identidad == Some(old(filas)[k].nombreUsuario) ==> r == Fallo(PropioUsuario) && filas == old(filas))
        && (identidad != Some(old(filas)[k].nombreUsuario) ==> r == Exito && filas == RemoveAt(old(filas), k))
      ensures TablaValida(old(filas)) ==> TablaValida(filas)
    {
      var k := IndexOf(filas, IdDe, id);
      if k.None? {
        return Fallo(NoEncontrado);
      }
      var usuario := filas[k.value];
      if identidad == Some(usuario.nombreUsuario) {
        return Fallo(PropioUsuario);
      }
      if TablaValida(filas) {
        EliminarValido(filas, k.value);
      }
      filas := RemoveAt(filas, k.value);
      return Exito;
    }
  }
}
