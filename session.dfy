/**
 * Two pieces of the request pipeline (Program.cs): the middleware that
 * remembers the last page a user viewed in the session key "UltimaVista",
 * and the cookie check that rejects a principal whose account is gone or
 * whose security stamp no longer matches.
 */
module Session {
  import opened Collections
  import opened Text
  import opened KeyedTables
  import opened Accounts

  // ---------------------------------------------------------------------
  // The "last view" middleware
  // ---------------------------------------------------------------------

  /** Path prefixes that are never recorded: sign-in pages, static files and the SignalR hubs. */
  const PrefijosExcluidos: seq<string> := ["/Auth", "/css", "/js", "/lib", "/images", "/logsHub", "/produccionHub"]

  /** Path fragments that are never recorded: data endpoints, exports, parameters and detail views. */
  const FragmentosExcluidos: seq<string> := ["/Get", "/Tabla", "/Load", "/Export", "/Json", "?", "Detalle"]

  /**
   * The middleware's condition, in the order it tests it (a null path is "").
   * Every comparison is modelled as ordinal and case-sensitive; the source's
   * `StartsWith(string)` uses the current culture, `Contains` is ordinal.
   */
  predicate SeRegistra(metodo: string, path: string)
  {
    && metodo == "GET"
    && !IsBlank(path)
    && !StartsWith(path, "/Auth")
    && !StartsWith(path, "/css")
    && !StartsWith(path, "/js")
    && !StartsWith(path, "/lib")
    && !StartsWith(path, "/images")
    && !StartsWith(path, "/logsHub")
    && !StartsWith(path, "/produccionHub")
    && !Contains(path, "/Get")
    && !Contains(path, "/Tabla")
    && !Contains(path, "/Load")
    && !Contains(path, "/Export")
    && !Contains(path, "/Json")
    && !Contains(path, "?")
    && !Contains(path, "Detalle")
  }

  /**
   * The condition by its lists: a GET with a non-blank path that starts
   * with none of the excluded prefixes and contains none of the excluded
   * fragments.
   */
  lemma SeRegistraPorListas(metodo: string, path: string)
    ensures SeRegistra(metodo, path) <==>
      && metodo == "GET"
      && !IsBlank(path)
      && (forall i :: 0 <= i < |PrefijosExcluidos| ==> !StartsWith(path, PrefijosExcluidos[i]))
      && (forall i :: 0 <= i < |FragmentosExcluidos| ==> !Contains(path, FragmentosExcluidos[i]))
  {
    var todosPrefijos := forall i :: 0 <= i < |PrefijosExcluidos| ==> !StartsWith(path, PrefijosExcluidos[i]);
    var todosFragmentos := forall i :: 0 <= i < |FragmentosExcluidos| ==> !Contains(path, FragmentosExcluidos[i]);
    assert todosPrefijos <==>
      !StartsWith(path, "/Auth") && !StartsWith(path, "/css") && !StartsWith(path, "/js")
      && !StartsWith(path, "/lib") && !StartsWith(path, "/images") && !StartsWith(path, "/logsHub")
      && !StartsWith(path, "/produccionHub")
    by {
      assert PrefijosExcluidos[0] == "/Auth" && PrefijosExcluidos[1] == "/css" && PrefijosExcluidos[2] == "/js";
      assert PrefijosExcluidos[3] == "/lib" && PrefijosExcluidos[4] == "/images";
      assert PrefijosExcluidos[5] == "/logsHub" && PrefijosExcluidos[6] == "/produccionHub";
    }
    assert todosFragmentos <==>
      !Contains(path, "/Get") && !Contains(path, "/Tabla") && !Contains(path, "/Load")
      && !Contains(path, "/Export") && !Contains(path, "/Json") && !Contains(path, "?")
      && !Contains(path, "Detalle")
    by {
      assert FragmentosExcluidos[0] == "/Get" && FragmentosExcluidos[1] == "/Tabla" && FragmentosExcluidos[2] == "/Load";
      assert FragmentosExcluidos[3] == "/Export" && FragmentosExcluidos[4] == "/Json";
      assert FragmentosExcluidos[5] == "?" && FragmentosExcluidos[6] == "Detalle";
    }
  }

  /** A path starting with an excluded prefix is never recorded. */
  lemma PrefijoExcluido(metodo: string, path: string, pre: string)
    requires pre in PrefijosExcluidos && StartsWith(path, pre)
    ensures !SeRegistra(metodo, path)
  {
    SeRegistraPorListas(metodo, path);
  }

  /** A path with an excluded fragment anywhere in it is never recorded. */
  lemma FragmentoExcluido(metodo: string, path: string, frag: string, k: int)
    requires frag in FragmentosExcluidos
    requires 0 <= k <= |path| - |frag| && path[k..k + |frag|] == frag
    ensures !SeRegistra(metodo, path)
  {
    SeRegistraPorListas(metodo, path);
    FragmentoContenido(path, frag, k);
  }

  /** A fragment occurring at position k is contained. */
  lemma {:induction false} FragmentoContenido(path: string, frag: string, k: int)
    requires 0 <= k <= |path| - |frag| && path[k..k + |frag|] == frag
    ensures Contains(path, frag)
    decreases k
  {
    if k == 0 {
      assert path[..|frag|] == frag;
    } else {
      assert path[1..][k - 1..k - 1 + |frag|] == path[k..k + |frag|];
      FragmentoContenido(path[1..], frag, k - 1);
    }
  }

  /** The session of one browser. */
  class Sesion {
    var ultimaVista: Option<string>

    /**
     * The middleware: a recordable request stores its path exactly, any
     * other request leaves the session as it was; the request then goes on
     * down the pipeline either way.
     */
    method RegistrarVista(metodo: string, path: string)
      modifies this
      ensures SeRegistra(metodo, path) ==> ultimaVista == Some(path)
      ensures !SeRegistra(metodo, path) ==> ultimaVista == old(ultimaVista)
    {
      if SeRegistra(metodo, path) {
        ultimaVista := Some(path);
      }
    }
  }

  /** Only a GET with a non-blank path can be recorded. */
  lemma SoloGetConRuta(metodo: string, path: string)
    requires SeRegistra(metodo, path)
    ensures metodo == "GET" && |path| > 0
  {
  }

  // ---------------------------------------------------------------------
  // The cookie check
  // ---------------------------------------------------------------------

  /**
   * `Usuarios.FirstOrDefault(u => u.NombreUsuario == userName)`, evaluated
   * by the database; a null name matches nobody.
   */
  function CuentaDe(filas: seq<Usuario>, nombre: Option<string>): (r: Option<Usuario>)
    ensures r.None? <==> nombre.None? || !NombreUsado(filas, nombre.value)
    ensures r.Some? ==> r.value in filas && IgualSql(r.value.nombreUsuario, nombre.value)
  {
    if nombre.None? then None
    else
      var k := IndexOf(filas, ClaveNombre, ClaveSql(nombre.value));
      if k.None? then None else Some(filas[k.value])
  }

  /** OnValidatePrincipal: `user == null || user.SecurityStamp != claim` rejects the principal and signs it out. */
  predicate Rechazado(filas: seq<Usuario>, nombre: Option<string>, stamp: Option<string>)
  {
    var cuenta := CuentaDe(filas, nombre);
    cuenta.None? || Some(cuenta.value.securityStamp) != stamp
  }

  /**
   * With names unique up to SQL `=`: a principal is accepted exactly when
   * some account's name equals its name under SQL `=` and that account's
   * stamp equals the claim.
   */
  lemma RechazadoSiiSinCuentaOStampDistinto(filas: seq<Usuario>, nombre: Option<string>, stamp: Option<string>)
    requires TablaValida(filas)
    ensures !Rechazado(filas, nombre, stamp) <==>
      nombre.Some? && stamp.Some? &&
      exists i :: 0 <= i < |filas| && IgualSql(filas[i].nombreUsuario, nombre.value) && filas[i].securityStamp == stamp.value
  {
    if nombre.Some? && stamp.Some? &&
       exists i :: 0 <= i < |filas| && IgualSql(filas[i].nombreUsuario, nombre.value) && filas[i].securityStamp == stamp.value
    {
      var i :| 0 <= i < |filas| && IgualSql(filas[i].nombreUsuario, nombre.value) && filas[i].securityStamp == stamp.value;
      CuentaUnica(filas, nombre.value, i);
    }
    if !Rechazado(filas, nombre, stamp) {
      var k := IndexOf(filas, ClaveNombre, ClaveSql(nombre.value)).value;
      assert filas[k] == CuentaDe(filas, nombre).value;
    }
  }

  /** With names unique up to SQL `=`, the account found is the only row SQL-equal to the name. */
  lemma CuentaUnica(filas: seq<Usuario>, nombre: string, i: int)
    requires TablaValida(filas) && 0 <= i < |filas| && IgualSql(filas[i].nombreUsuario, nombre)
    ensures CuentaDe(filas, Some(nombre)) == Some(filas[i])
  {
    IndexOfUnique(filas, ClaveNombre, i);
    assert ClaveNombre(filas[i]) == ClaveSql(nombre);
  }

  /** After an account is deleted, every principal carrying its name is rejected on its next request. */
  lemma EliminadoEsRechazado(filas: seq<Usuario>, k: int, stamp: Option<string>)
    requires TablaValida(filas) && 0 <= k < |filas|
    ensures Rechazado(RemoveAt(filas, k), Some(filas[k].nombreUsuario), stamp)
  {
    EliminarValido(filas, k);
  }

  /** After an account is renamed to a name that is not SQL-equal to the old one, a principal carrying the old name is rejected. */
  lemma RenombradoEsRechazado(filas: seq<Usuario>, k: int, nuevo: Usuario, stamp: Option<string>)
    requires TablaValida(filas) && 0 <= k < |filas| && nuevo.id == filas[k].id
    requires !IgualSql(nuevo.nombreUsuario, filas[k].nombreUsuario)
    ensures Rechazado(filas[k := nuevo], Some(filas[k].nombreUsuario), stamp)
  {
    var viejo := ClaveSql(filas[k].nombreUsuario);
    var r := filas[k := nuevo];
    forall j | 0 <= j < |r| ensures ClaveNombre(r[j]) != viejo {
      if j != k {
        assert r[j] == filas[j];
      }
    }
  }

  /**
   * Editar keeps the SecurityStamp, so a rename the database sees as the
   * same name ("admin" to "admin " or "ADMIN") leaves a cookie issued under
   * the old name, with the account's stamp, accepted.
   */
  lemma RenombradoIgualSqlSigueAceptado(filas: seq<Usuario>, k: int, nombre: string, rol: string,
                                        password: Option<string>, hash: string -> string)
    requires TablaValida(filas) && 0 <= k < |filas|
    requires IgualSql(nombre, filas[k].nombreUsuario)
    ensures var r := filas[k := Editado(filas[k], nombre, rol, password, hash)];
      !Rechazado(r, Some(filas[k].nombreUsuario), Some(filas[k].securityStamp))
  {
    var u := Editado(filas[k], nombre, rol, password, hash);
    var r := filas[k := u];
    EditarValido(filas, k, u);
    assert r[k] == u;
    RechazadoSiiSinCuentaOStampDistinto(r, Some(filas[k].nombreUsuario), Some(filas[k].securityStamp));
  }
}
