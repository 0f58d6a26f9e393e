/**
 * The operator board (InspeccionTM and its TV twin InspeccionTMTV, which run
 * the same code): for one labor day and shift, one card per (mesa, TM) pair
 * seen in the scans or the defects, with good and bad pieces, the table's
 * goal, the goal pro-rated to the time elapsed in the shift, and a status
 * band. Cards are ordered by the number embedded in the mesa label.
 *
 * Time is in seconds. The source's `(meta / 480.0) * minutos` in double
 * precision is modelled as the exact quotient meta * segundos / 28800
 * truncated toward zero.
 */
module GoalTracker {
  import opened Collections
  import opened Text
  import opened Sorting
  import opened ShiftCalendar
  import opened Records
  import opened LaborDays
  import opened EmployeeRegistry

  /** The (NuMesa, Tm) grouping key. */
  type MesaTm = (string, string)

  function PzClave(p: Pieza): MesaTm { (p.nuMesa, p.tm) }
  function DefClave(d: Defecto): MesaTm { (d.nuMesa, d.tm) }

  // ---------------------------------------------------------------------
  // The rows of one shift of one labor day
  // ---------------------------------------------------------------------

  /**
   * The window [fecha - 1, fecha + 1] holds every row whose helper labor day
   * is fecha, so the second filter alone decides membership.
   */
  lemma TurnoWindow<T(!new)>(tabla: seq<T>, fecha: T -> Date, hora: T -> TimeOfDay, turno: T -> string,
                             dia: Date, t: string, p: T -> bool)
    requires forall x :: p(x) == (GetFechaProduccion(fecha(x), hora(x)) == dia && turno(x) == t)
    ensures forall x :: x in Filter(FetchDates(tabla, fecha, dia - 1, dia + 1), p) <==> x in tabla && p(x)
  {
  }

  /** produccionesRaw: dates [fecha - 1, fecha + 1] fetched, then the helper's labor day is fecha and the shift matches. */
  function PiezasDelTurno(tabla: seq<Pieza>, fecha: Date, turno: string): (r: seq<Pieza>)
    ensures forall p :: p in r <==> p in tabla && GetFechaProduccion(p.fecha, p.hora) == fecha && p.turno == turno
  {
    var keep := (p: Pieza) => GetFechaProduccion(p.fecha, p.hora) == fecha && p.turno == turno;
    TurnoWindow(tabla, PzFecha, PzHora, (p: Pieza) => p.turno, fecha, turno, keep);
    Filter(FetchDates(tabla, PzFecha, fecha - 1, fecha + 1), keep)
  }

  /** defectosRaw: the same two-phase filter over the defect table. */
  function DefectosDelTurno(tabla: seq<Defecto>, fecha: Date, turno: string): (r: seq<Defecto>)
    ensures forall d :: d in r <==> d in tabla && GetFechaProduccion(d.fecha, d.hora) == fecha && d.turno == turno
  {
    var keep := (d: Defecto) => GetFechaProduccion(d.fecha, d.hora) == fecha && d.turno == turno;
    TurnoWindow(tabla, DefFecha, DefHora, (d: Defecto) => d.turno, fecha, turno, keep);
    Filter(FetchDates(tabla, DefFecha, fecha - 1, fecha + 1), keep)
  }

  // ---------------------------------------------------------------------
  // Grouping by (mesa, TM) and the union of keys
  // ---------------------------------------------------------------------

  /** `producciones`: per (mesa, TM), the sum of the parsed quantities. */
  function Producciones(prods: seq<Pieza>): seq<(MesaTm, int)>
  {
    GroupSums(prods, PzClave, PzPiezas)
  }

  /** `defectos`: per (mesa, TM), the number of defect rows. */
  function DefectosTM(defs: seq<Defecto>): seq<(MesaTm, int)>
  {
    GroupCounts(defs, DefClave)
  }

  function ClaveDe(g: (MesaTm, int)): MesaTm { g.0 }

  /** The keys of a grouping are the distinct keys of its rows, in first-occurrence order. */
  lemma ClavesDeSumas<T(!new)>(s: seq<T>, key: T -> MesaTm, val: T -> int)
    ensures Map(GroupSums(s, key, val), ClaveDe) == KeysOf(s, key)
  {
  }

  lemma ClavesDeConteos<T(!new)>(s: seq<T>, key: T -> MesaTm)
    ensures Map(GroupCounts(s, key), ClaveDe) == KeysOf(s, key)
  {
  }

  /** `union`: the keys with good pieces, then the keys with only defects; each key once. */
  function ClavesUnion(prods: seq<Pieza>, defs: seq<Defecto>): (r: seq<MesaTm>)
    ensures NoDuplicates(r)
    ensures forall k :: k in r <==> (exists p :: p in prods && PzClave(p) == k) || (exists d :: d in defs && DefClave(d) == k)
  {
    ClavesDeSumas(prods, PzClave, PzPiezas);
    ClavesDeConteos(defs, DefClave);
    Union(Map(Producciones(prods), ClaveDe), Map(DefectosTM(defs), ClaveDe))
  }

  // ---------------------------------------------------------------------
  // Table number, goal and employee lookups
  // ---------------------------------------------------------------------

  /** `int.TryParse(digits, out var num) ? num : 0` over the digits of a mesa label. */
  function NumeroMesa(mesa: string): (n: int)
    ensures 0 <= n <= Int32Max
    ensures |DigitsOf(mesa)| > 0 && DecimalValue(DigitsOf(mesa)) <= Int32Max ==> n == DecimalValue(DigitsOf(mesa))
    ensures |DigitsOf(mesa)| == 0 || DecimalValue(DigitsOf(mesa)) > Int32Max ==> n == 0
  {
    var d := DigitsOf(mesa);
    ParseDigits(d, Int32Min, Int32Max);
    ParseInt32OrZero(d)
  }

  /** `m.IdMesa == numeroMesa || m.NumerodeMesa == numeroMesa.ToString()`. */
  predicate EsLaMesa(m: Mesa, n: nat)
  {
    m.idMesa == n || m.numerodeMesa == NatToString(n)
  }

  const MetaPorDefecto: int := 1800

  /** `mesaInfo?.Meta ?? 1800`, where mesaInfo is the first table that matches the label's number. */
  function MetaDe(mesas: seq<Mesa>, mesa: string): (r: int)
  {
    var info := FirstWhere(mesas, m => EsLaMesa(m, NumeroMesa(mesa)));
    if info.Some? && info.value.meta.Some? then info.value.meta.value else MetaPorDefecto
  }

  /**
   * The goal of a card: 1800 when no table matches or the first matching
   * table has no goal, otherwise that table's goal.
   */
  lemma MetaDeSpec(mesas: seq<Mesa>, mesa: string)
    ensures (forall m :: m in mesas ==> !EsLaMesa(m, NumeroMesa(mesa))) ==> MetaDe(mesas, mesa) == MetaPorDefecto
    ensures forall i :: (0 <= i < |mesas| && EsLaMesa(mesas[i], NumeroMesa(mesa))
                         && forall j :: 0 <= j < i ==> !EsLaMesa(mesas[j], NumeroMesa(mesa))) ==>
              MetaDe(mesas, mesa) == if mesas[i].meta.Some? then mesas[i].meta.value else MetaPorDefecto
  {
    var p := (m: Mesa) => EsLaMesa(m, NumeroMesa(mesa));
    forall i | 0 <= i < |mesas| && p(mesas[i]) && (forall j :: 0 <= j < i ==> !p(mesas[j]))
      ensures FirstWhere(mesas, p) == Some(mesas[i])
    {
      FirstWhereAt(mesas, p, i);
    }
  }

  /** `usuario?.NumerodeEmpleado ?? "0000"` for the first user named like the TM. */
  function NumeroEmpleado(users: seq<User>, tm: string): (r: string)
    ensures (forall u :: u in users ==> u.nombre != tm) ==> r == "0000"
    ensures (exists u :: u in users && u.nombre == tm) ==> exists u :: u in users && u.nombre == tm && r == u.numerodeEmpleado
  {
    match FirstWhere(users, (u: User) => u.nombre == tm)
    case None => "0000"
    case Some(u) => u.numerodeEmpleado
  }

  // ---------------------------------------------------------------------
  // The last mandrel scanned by a (mesa, TM)
  // ---------------------------------------------------------------------

  /** `r.Fecha.ToDateTime(r.Hora)` as a count of seconds. */
  function Instante(p: Pieza): int { p.fecha * 86400 + p.hora }

  /**
   * The first row of `OrderByDescending(fecha + hora)` among the scans of
   * key k: the latest one, and the earliest in table order among equally
   * late ones (the sort is stable).
   */
  function UltimaPieza(prods: seq<Pieza>, k: MesaTm): (r: Option<Pieza>)
    ensures r.None? <==> forall p :: p in prods ==> PzClave(p) != k
    ensures r.Some? ==> exists i :: (0 <= i < |prods| && prods[i] == r.value && PzClave(r.value) == k
              && forall j :: 0 <= j < i && PzClave(prods[j]) == k ==> Instante(prods[j]) < Instante(r.value))
    ensures r.Some? ==> forall p :: p in prods && PzClave(p) == k ==> Instante(p) <= Instante(r.value)
  {
    if |prods| == 0 then None
    else
      var s', x := prods[..|prods| - 1], prods[|prods| - 1];
      var r' := UltimaPieza(s', k);
      assert forall p :: p in prods ==> p in s' || p == x;
      assert forall j :: 0 <= j < |s'| ==> prods[j] == s'[j];
      if PzClave(x) == k && (r'.None? || Instante(x) > Instante(r'.value)) then
        Some(x)
      else
        r'
  }

  /** `... .Select(r => r.Mandrel).FirstOrDefault() ?? "N/A"`. */
  function UltimoMandril(prods: seq<Pieza>, k: MesaTm): (r: string)
    ensures (forall p :: p in prods ==> PzClave(p) != k) ==> r == "N/A"
    ensures (exists p :: p in prods && PzClave(p) == k) ==>
              exists p :: p in prods && PzClave(p) == k && r == p.mandrel
                && forall q :: q in prods && PzClave(q) == k ==> Instante(q) <= Instante(p)
  {
    match UltimaPieza(prods, k)
    case None => "N/A"
    case Some(p) => p.mandrel
  }

  // ---------------------------------------------------------------------
  // Elapsed time in the shift
  // ---------------------------------------------------------------------

  /** Eight hours (480 minutes) in seconds. */
  const DuracionTurno: int := 8 * 60 * 60

  /** `inicioTurno`: 07:00:00 for "1", 15:45:00 for "2", 23:50:00 for anything else. */
  function InicioTurno(turno: string): (r: TimeOfDay)
    ensures turno == "1" ==> r == Hms(7, 0, 0)
    ensures turno == "2" ==> r == Hms(15, 45, 0)
    ensures turno != "1" && turno != "2" ==> r == Hms(23, 50, 0)
  {
    if turno == "1" then Hms(7, 0, 0) else if turno == "2" then Hms(15, 45, 0) else Hms(23, 50, 0)
  }

  /** The two clamps: below 0 becomes 0, above the shift length becomes the shift length. */
  function Acotar(x: int): (r: int)
    ensures 0 <= r <= DuracionTurno
    ensures 0 <= x <= DuracionTurno ==> r == x
    ensures x < 0 ==> r == 0
    ensures x > DuracionTurno ==> r == DuracionTurno
  {
    if x < 0 then 0 else if x > DuracionTurno then DuracionTurno else x
  }

  /** `minutosTranscurridos` as written: `ahora.TimeOfDay - inicioTurno`, clamped. */
  function TranscurridoAsWritten(turno: string, ahora: TimeOfDay): (r: int)
    ensures 0 <= r <= DuracionTurno
    ensures ahora < InicioTurno(turno) ==> r == 0
    ensures InicioTurno(turno) <= ahora <= InicioTurno(turno) + DuracionTurno ==> r == ahora - InicioTurno(turno)
    ensures ahora > InicioTurno(turno) + DuracionTurno ==> r == DuracionTurno
  {
    Acotar(ahora - InicioTurno(turno))
  }

  /**
   * The elapsed time the board evidently intends: shift 3 runs from 23:50
   * past midnight, so from 00:00:00 to 06:59:59 its clock has been running
   * since 23:50 of the day before. Every other case is as written.
   */
  function Transcurrido(turno: string, ahora: TimeOfDay): (r: int)
    ensures 0 <= r <= DuracionTurno
    ensures !(turno != "1" && turno != "2" && ahora < Hms(7, 0, 0)) ==> r == TranscurridoAsWritten(turno, ahora)
  {
    var desde := ahora - InicioTurno(turno);
    if turno != "1" && turno != "2" && ahora < Hms(7, 0, 0) then Acotar(desde + 86400) else Acotar(desde)
  }

  /** In shift 3 after midnight, the time since 23:50 of the previous day: ten minutes plus the time of day. */
  lemma TurnoTresTrasMedianoche(turno: string, ahora: TimeOfDay)
    requires turno != "1" && turno != "2" && ahora < Hms(7, 0, 0)
    ensures Transcurrido(turno, ahora) == ahora + Hms(0, 10, 0)
    ensures TranscurridoAsWritten(turno, ahora) == 0
  {
  }

  /** The clamp written step by step, as the action does by reassignment. */
  method MinutosTranscurridos(turno: string, ahora: TimeOfDay) returns (transcurridos: int)
    ensures transcurridos == TranscurridoAsWritten(turno, ahora)
    ensures 0 <= transcurridos <= DuracionTurno
    ensures ahora < InicioTurno(turno) ==> transcurridos == 0
  {
    var inicio := InicioTurno(turno);
    transcurridos := ahora - inicio;
    if transcurridos < 0 {
      transcurridos := 0;
    }
    if transcurridos > DuracionTurno {
      transcurridos := DuracionTurno;
    }
  }

  // ---------------------------------------------------------------------
  // The pro-rated goal
  // ---------------------------------------------------------------------

  /** An elapsed time within the shift, as both clocks return it. */
  type Segundos = s: int | 0 <= s <= DuracionTurno

  /** The C# `(int)` cast of a quotient: division truncated toward zero. */
  function TruncDiv(a: int, b: int): int
    requires b > 0
  {
    if a >= 0 then a / b else -((-a) / b)
  }

  /** Truncation toward zero: |q * b| is at most |a| and within b of it, with the sign of a. */
  lemma TruncDivBounds(a: int, b: int)
    requires b > 0
    ensures var q := TruncDiv(a, b);
      && (a >= 0 ==> 0 <= q && q * b <= a < q * b + b)
      && (a < 0 ==> q <= 0 && q * b - b < a <= q * b)
  {
    var n := if a >= 0 then a else -a;
    var d, m := n / b, n % b;
    assert n == d * b + m && 0 <= m < b;
    assert d >= 0;
  }

  /** `metaEsperada`: the goal scaled by the elapsed fraction of the shift, truncated toward zero. */
  function MetaEsperada(meta: int, segundos: int): (r: int)
    requires 0 <= segundos <= DuracionTurno
  {
    TruncDiv(meta * segundos, DuracionTurno)
  }

  lemma MulMonotone(a: int, x: int, y: int)
    requires 0 <= a && x <= y
    ensures a * x <= a * y
  {
    assert a * y - a * x == a * (y - x);
  }

  lemma MulCancel(a: int, b: int, c: int)
    requires c > 0 && a * c <= b * c
    ensures a <= b
  {
    assert (b - a) * c == b * c - a * c;
  }

  lemma MulCancelStrict(a: int, b: int, c: int)
    requires c > 0 && a * c < b * c
    ensures a < b
  {
    assert (b - a) * c == b * c - a * c;
  }

  /**
   * The pro-rated goal lies between 0 and the goal (between the goal and 0
   * for a negative goal); it is 0 at the start of the shift and the whole
   * goal at the end.
   */
  lemma MetaEsperadaBounds(meta: int, segundos: int)
    requires 0 <= segundos <= DuracionTurno
    ensures meta >= 0 ==> 0 <= MetaEsperada(meta, segundos) <= meta
    ensures meta < 0 ==> meta <= MetaEsperada(meta, segundos) <= 0
    ensures segundos == 0 ==> MetaEsperada(meta, segundos) == 0
    ensures segundos == DuracionTurno ==> MetaEsperada(meta, segundos) == meta
  {
    var q, a := MetaEsperada(meta, segundos), meta * segundos;
    TruncDivBounds(a, DuracionTurno);
    if meta >= 0 {
      MulMonotone(meta, segundos, DuracionTurno);
      assert DuracionTurno * meta == meta * DuracionTurno;
      MulCancel(q, meta, DuracionTurno);
      if segundos == DuracionTurno {
        assert a < (q + 1) * DuracionTurno;
        MulCancelStrict(meta, q + 1, DuracionTurno);
      }
      if segundos == 0 {
        MulCancel(q, 0, DuracionTurno);
      }
    } else {
      MulMonotone(-meta, segundos, DuracionTurno);
      if a < 0 {
        MulCancel(meta, q, DuracionTurno);
        if segundos == DuracionTurno {
          assert (q - 1) * DuracionTurno < meta * DuracionTurno;
          MulCancelStrict(q - 1, meta, DuracionTurno);
        }
      }
    }
  }

  /** For a non-negative goal the pro-rated goal never decreases as the shift goes on. */
  lemma MetaEsperadaMonotone(meta: int, s1: int, s2: int)
    requires meta >= 0 && 0 <= s1 <= s2 <= DuracionTurno
    ensures MetaEsperada(meta, s1) <= MetaEsperada(meta, s2)
  {
    var q1, q2 := MetaEsperada(meta, s1), MetaEsperada(meta, s2);
    TruncDivBounds(meta * s1, DuracionTurno);
    TruncDivBounds(meta * s2, DuracionTurno);
    MulMonotone(meta, s1, s2);
    assert q1 * DuracionTurno < (q2 + 1) * DuracionTurno;
    MulCancelStrict(q1, q2 + 1, DuracionTurno);
  }

  // ---------------------------------------------------------------------
  // Status bands
  // ---------------------------------------------------------------------

  datatype Estado = Sobreproduccion | EnMeta | CercaDeLaMeta | FueraDeMeta

  /** The width of the bands around the pro-rated goal. */
  const AnchoBanda: int := 100

  /**
   * The four bands, tested from the top: at least 100 over the pro-rated
   * goal, at the goal, within 100 under it, or further under.
   */
  function Clasificar(total: int, esperada: int): (r: Estado)
    ensures r == Sobreproduccion <==> total >= esperada + AnchoBanda
    ensures r == EnMeta <==> esperada <= total < esperada + AnchoBanda
    ensures r == CercaDeLaMeta <==> esperada - AnchoBanda <= total < esperada
    ensures r == FueraDeMeta <==> total < esperada - AnchoBanda
  {
    if total >= esperada + AnchoBanda then Sobreproduccion
    else if total >= esperada then EnMeta
    else if total >= esperada - AnchoBanda then CercaDeLaMeta
    else FueraDeMeta
  }

  /** The bands from lowest to highest. */
  function Nivel(e: Estado): nat
  {
    match e
    case FueraDeMeta => 0
    case CercaDeLaMeta => 1
    case EnMeta => 2
    case Sobreproduccion => 3
  }

  /** More pieces never move a card to a lower band; a higher pro-rated goal never moves it up. */
  lemma ClasificarMonotone(t1: int, t2: int, e1: int, e2: int)
    requires t1 <= t2 && e2 <= e1
    ensures Nivel(Clasificar(t1, e1)) <= Nivel(Clasificar(t2, e2))
  {
  }

  /** The status text shown on the card. */
  function EstadoTexto(e: Estado): string
  {
    match e
    case Sobreproduccion => "Sobreproducción"
    case EnMeta => "En meta"
    case CercaDeLaMeta => "Cerca de la meta"
    case FueraDeMeta => "Fuera de meta"
  }

  /** The card's CSS classes. */
  function ColorClass(e: Estado): string
  {
    match e
    case Sobreproduccion => "bg-danger text-white"
    case EnMeta => "bg-green-500 text-white"
    case CercaDeLaMeta => "bg-yellow-400 text-black"
    case FueraDeMeta => "bg-red-300 text-black"
  }

  /** Distinct bands show distinct texts and distinct colours. */
  lemma EstadoTextoInjective(a: Estado, b: Estado)
    requires a != b
    ensures EstadoTexto(a) != EstadoTexto(b) && ColorClass(a) != ColorClass(b)
  {
    match a
    case Sobreproduccion => assert EstadoTexto(a)[0] == 'S';
    case EnMeta => assert EstadoTexto(a)[0] == 'E' && ColorClass(a)[3] == 'g';
    case CercaDeLaMeta => assert EstadoTexto(a)[0] == 'C' && ColorClass(a)[3] == 'y';
    case FueraDeMeta => assert EstadoTexto(a)[0] == 'F' && ColorClass(a)[3] == 'r';
  }

  // ---------------------------------------------------------------------
  // Cards and their order
  // ---------------------------------------------------------------------

  /** An InspeccionTMViewModel without the photo URL; the colour follows from `estado`. */
  datatype FilaTM = FilaTM(
    tm: string, mesa: string, numeroEmpleado: string,
    piezasBuenas: int, piezasMalas: int, totalPiezas: int,
    meta: int, metaEsperada: int, estado: Estado, mandril: string)

  function ClaveFila(f: FilaTM): MesaTm { (f.mesa, f.tm) }
  function Buenas(f: FilaTM): int { f.piezasBuenas }
  function Malas(f: FilaTM): int { f.piezasMalas }

  /** The card of one union key. */
  function FilaDe(k: MesaTm, prods: seq<Pieza>, defs: seq<Defecto>, mesas: seq<Mesa>, users: seq<User>,
                  segundos: Segundos): FilaTM
  {
    var buenas := LookupOrZero(Producciones(prods), k);
    var malas := LookupOrZero(DefectosTM(defs), k);
    var total := buenas + malas;
    var meta := MetaDe(mesas, k.0);
    var esperada := MetaEsperada(meta, segundos);
    FilaTM(k.1, k.0, NumeroEmpleado(users, k.1), buenas, malas, total, meta, esperada,
           Clasificar(total, esperada), UltimoMandril(prods, k))
  }

  /**
   * What a card says: zero-filled group sum and count of its key, their
   * total, a pro-rated goal within [0, goal], and the band of the total.
   */
  lemma FilaDeSpec(k: MesaTm, prods: seq<Pieza>, defs: seq<Defecto>, mesas: seq<Mesa>, users: seq<User>,
                   segundos: Segundos)
    ensures var f := FilaDe(k, prods, defs, mesas, users, segundos);
      && ClaveFila(f) == k
      && f.piezasBuenas == SumKey(prods, PzClave, k, PzPiezas)
      && f.piezasMalas == CountKey(defs, DefClave, k)
      && f.totalPiezas == f.piezasBuenas + f.piezasMalas
      && (f.meta >= 0 ==> 0 <= f.metaEsperada <= f.meta)
      && f.estado == Clasificar(f.totalPiezas, f.metaEsperada)
  {
    LookupGroupSums(prods, PzClave, PzPiezas, k);
    LookupGroupCounts(defs, DefClave, k);
    MetaEsperadaBounds(MetaDe(mesas, k.0), segundos);
  }

  /** One card per union key, in union order. */
  function FilasTM(prods: seq<Pieza>, defs: seq<Defecto>, mesas: seq<Mesa>, users: seq<User>,
                   segundos: Segundos): (r: seq<FilaTM>)
    ensures |r| == |ClavesUnion(prods, defs)|
    ensures forall i :: 0 <= i < |r| ==> r[i] == FilaDe(ClavesUnion(prods, defs)[i], prods, defs, mesas, users, segundos)
  {
    var ks := ClavesUnion(prods, defs);
    seq(|ks|, i requires 0 <= i < |ks| => FilaDe(ks[i], prods, defs, mesas, users, segundos))
  }

  /** The sort key: the number formed by the label's digits, int.MaxValue when they do not parse. */
  function MesaOrden(mesa: string): (r: int)
    ensures 0 <= r <= Int32Max
    ensures |DigitsOf(mesa)| == 0 || DecimalValue(DigitsOf(mesa)) > Int32Max ==> r == Int32Max
    ensures |DigitsOf(mesa)| > 0 && DecimalValue(DigitsOf(mesa)) <= Int32Max ==> r == DecimalValue(DigitsOf(mesa))
  {
    var d := DigitsOf(mesa);
    ParseDigits(d, Int32Min, Int32Max);
    match ParseInteger(d, Int32Min, Int32Max)
    case Some(n) => n
    case None => Int32Max
  }

  predicate MesaAntes(a: FilaTM, b: FilaTM) { MesaOrden(a.mesa) < MesaOrden(b.mesa) }

  function OrdenFila(f: FilaTM): real { MesaOrden(f.mesa) as real }

  /** The cards of a shift's rows, in ascending order of the label's number (stable). */
  function Tablero(prods: seq<Pieza>, defs: seq<Defecto>, mesas: seq<Mesa>, users: seq<User>,
                   segundos: Segundos): seq<FilaTM>
  {
    SortBy(FilasTM(prods, defs, mesas, users, segundos), MesaAntes)
  }

  /** The labor day shown: the requested date, or the helper's labor day of now. */
  function DiaDeLaVista(fecha: Option<Date>, hoy: Date, ahora: TimeOfDay): (r: Date)
    ensures fecha.Some? ==> r == fecha.value
    ensures fecha.None? ==> r == hoy || r == hoy - 1
  {
    if fecha.Some? then fecha.value else GetFechaProduccion(hoy, ahora)
  }

  /** `int.Parse` of an employee number for the photo file name: None where it throws. */
  function ParseInt32(n: string): (r: Option<int>)
    ensures r.Some? ==> Int32Min <= r.value <= Int32Max
  {
    ParseInteger(n, Int32Min, Int32Max)
  }

  /** `long.Parse`, the range the employee registry checks numbers against. */
  function ParseInt64(n: string): (r: Option<int>)
    ensures r.Some? ==> Int64Min <= r.value <= Int64Max
    ensures r.Some? <==> EsNumerico(n)
  {
    ParseInteger(n, Int64Min, Int64Max)
  }

  /**
   * Every card's photo file name goes through a parse of its employee
   * number: the cards when every number parses, None (the exception that
   * ends the action) when one does not.
   */
  function ConNumerosDeFoto(filas: seq<FilaTM>, parse: string -> Option<int>): (r: Option<seq<FilaTM>>)
    ensures r.None? <==> exists f :: f in filas && parse(f.numeroEmpleado).None?
    ensures r.Some? ==> r.value == filas
  {
    if forall i :: 0 <= i < |filas| ==> parse(filas[i].numeroEmpleado).Some? then Some(filas) else None
  }

  /**
   * The board for a date (or today's labor day) and a shift (or the current
   * one, 07:00 rule), as written: elapsed time `now - start` and the photo
   * number through Int32 `int.Parse`.
   */
  function InspeccionTM(tablaPiezas: seq<Pieza>, tablaDefectos: seq<Defecto>, mesas: seq<Mesa>, users: seq<User>,
                        fecha: Option<Date>, turno: string, hoy: Date, ahora: TimeOfDay): Option<seq<FilaTM>>
  {
    var dia := DiaDeLaVista(fecha, hoy, ahora);
    var t := TurnoOrCurrent(turno, SelectorDesde0700(ahora));
    var filas := Tablero(PiezasDelTurno(tablaPiezas, dia, t), DefectosDelTurno(tablaDefectos, dia, t), mesas, users,
                         TranscurridoAsWritten(t, ahora));
    ConNumerosDeFoto(filas, ParseInt32)
  }

  /**
   * The board as evidently intended: the night shift's clock runs past
   * midnight, and the photo number is read with the same Int64 range that
   * the employee registry accepts.
   */
  function InspeccionTMCorregido(tablaPiezas: seq<Pieza>, tablaDefectos: seq<Defecto>, mesas: seq<Mesa>, users: seq<User>,
                                 fecha: Option<Date>, turno: string, hoy: Date, ahora: TimeOfDay): Option<seq<FilaTM>>
  {
    var dia := DiaDeLaVista(fecha, hoy, ahora);
    var t := TurnoOrCurrent(turno, SelectorDesde0700(ahora));
    var filas := Tablero(PiezasDelTurno(tablaPiezas, dia, t), DefectosDelTurno(tablaDefectos, dia, t), mesas, users,
                         Transcurrido(t, ahora));
    ConNumerosDeFoto(filas, ParseInt64)
  }

  /** Distinct keys give distinct cards, and every card is the card of its own key. */
  lemma FilasTMDistintas(prods: seq<Pieza>, defs: seq<Defecto>, mesas: seq<Mesa>, users: seq<User>,
                         segundos: Segundos)
    ensures NoDuplicates(FilasTM(prods, defs, mesas, users, segundos))
    ensures forall f :: f in FilasTM(prods, defs, mesas, users, segundos) ==>
              f == FilaDe(ClaveFila(f), prods, defs, mesas, users, segundos)
    ensures forall k :: (exists f :: f in FilasTM(prods, defs, mesas, users, segundos) && ClaveFila(f) == k)
              <==> k in ClavesUnion(prods, defs)
  {
    var ks := ClavesUnion(prods, defs);
    var r := FilasTM(prods, defs, mesas, users, segundos);
    forall i | 0 <= i < |r| ensures ClaveFila(r[i]) == ks[i] {
      FilaDeSpec(ks[i], prods, defs, mesas, users, segundos);
    }
    forall k | k in ks ensures exists f :: f in r && ClaveFila(f) == k {
      var i :| 0 <= i < |ks| && ks[i] == k;
      assert r[i] in r;
    }
  }

  /** The cards' good pieces add up to all parsed quantities of the shift, their defects to its defect rows. */
  lemma FilasTMConservation(prods: seq<Pieza>, defs: seq<Defecto>, mesas: seq<Mesa>, users: seq<User>,
                            segundos: Segundos)
    ensures SumOf(FilasTM(prods, defs, mesas, users, segundos), Buenas) == SumOf(prods, PzPiezas)
    ensures SumOf(FilasTM(prods, defs, mesas, users, segundos), Malas) == |defs|
  {
    var ks := ClavesUnion(prods, defs);
    var r := FilasTM(prods, defs, mesas, users, segundos);
    var g := (k: MesaTm) => SumKey(prods, PzClave, k, PzPiezas);
    var h := (k: MesaTm) => CountKey(defs, DefClave, k);
    forall i | 0 <= i < |r| ensures Buenas(r[i]) == g(ks[i]) && Malas(r[i]) == h(ks[i]) {
      FilaDeSpec(ks[i], prods, defs, mesas, users, segundos);
    }
    SumOfAligned(r, ks, Buenas, g);
    SumOfAligned(r, ks, Malas, h);
    SumOfBySumKeys(prods, PzClave, ks, g, PzPiezas);
    SumOfByKeys(defs, DefClave, ks, h);
    SumConservation(prods, PzClave, ks, PzPiezas);
    CountConservation(defs, DefClave, ks);
  }

  /** Sorting the cards keeps exactly the same cards and puts them in ascending label-number order. */
  lemma TableroOrden(filas: seq<FilaTM>)
    ensures var r := SortBy(filas, MesaAntes);
      && multiset(r) == multiset(filas)
      && (forall f :: f in r <==> f in filas)
      && Ascending(r, OrdenFila)
  {
    var r := SortBy(filas, MesaAntes);
    forall f ensures f in r <==> f in filas {
      assert f in r <==> f in multiset(r);
    }
    assert forall a, b :: MesaAntes(a, b) == (OrdenFila(a) < OrdenFila(b));
    SortAscending(filas, MesaAntes, OrdenFila);
  }

  /**
   * The board: every (mesa, TM) with scans or defects in the shift has
   * exactly one card, each card is the card of its key, the cards add up to
   * the shift's pieces and defects, and they are in ascending order of the
   * label's number.
   */
  lemma TableroSpec(prods: seq<Pieza>, defs: seq<Defecto>, mesas: seq<Mesa>, users: seq<User>,
                    segundos: Segundos)
    ensures var r := Tablero(prods, defs, mesas, users, segundos);
      && (forall k :: (exists f :: f in r && ClaveFila(f) == k) <==> k in ClavesUnion(prods, defs))
      && (forall i, j :: 0 <= i < j < |r| ==> ClaveFila(r[i]) != ClaveFila(r[j]))
      && (forall f :: f in r ==> f == FilaDe(ClaveFila(f), prods, defs, mesas, users, segundos))
      && SumOf(r, Buenas) == SumOf(prods, PzPiezas)
      && SumOf(r, Malas) == |defs|
      && Ascending(r, OrdenFila)
  {
    var filas := FilasTM(prods, defs, mesas, users, segundos);
    var r := Tablero(prods, defs, mesas, users, segundos);
    FilasTMDistintas(prods, defs, mesas, users, segundos);
    FilasTMConservation(prods, defs, mesas, users, segundos);
    TableroOrden(filas);
    NoDuplicatesPermutation(filas, r);
    SumOfPermutation(r, filas, Buenas);
    SumOfPermutation(r, filas, Malas);
    forall i, j | 0 <= i < j < |r| ensures ClaveFila(r[i]) != ClaveFila(r[j]) {
      assert r[i] in filas && r[j] in filas;
    }
  }

  /**
   * Which rows the board reads: the scans and defects of the requested (or
   * current) labor day and shift, with no turno given meaning the shift the
   * 07:00 selector picks for now.
   */
  lemma InspeccionTMSpec(tablaPiezas: seq<Pieza>, tablaDefectos: seq<Defecto>, mesas: seq<Mesa>, users: seq<User>,
                         fecha: Option<Date>, turno: string, hoy: Date, ahora: TimeOfDay)
    ensures var t := SelectorDesde0700(ahora);
      turno == "" ==>
      InspeccionTM(tablaPiezas, tablaDefectos, mesas, users, fecha, turno, hoy, ahora)
      == ConNumerosDeFoto(Tablero(PiezasDelTurno(tablaPiezas, DiaDeLaVista(fecha, hoy, ahora), t),
                                  DefectosDelTurno(tablaDefectos, DiaDeLaVista(fecha, hoy, ahora), t),
                                  mesas, users, TranscurridoAsWritten(t, ahora)), ParseInt32)
    ensures turno != "" ==>
      InspeccionTM(tablaPiezas, tablaDefectos, mesas, users, fecha, turno, hoy, ahora)
      == ConNumerosDeFoto(Tablero(PiezasDelTurno(tablaPiezas, DiaDeLaVista(fecha, hoy, ahora), turno),
                                  DefectosDelTurno(tablaDefectos, DiaDeLaVista(fecha, hoy, ahora), turno),
                                  mesas, users, TranscurridoAsWritten(turno, ahora)), ParseInt32)
  {
  }

  /**
   * The whole board fails exactly when some (mesa, TM) of the shift belongs
   * to a TM whose employee number (or the "0000" default) the given parse
   * rejects.
   */
  lemma TableroFalla(prods: seq<Pieza>, defs: seq<Defecto>, mesas: seq<Mesa>, users: seq<User>,
                     segundos: Segundos, parse: string -> Option<int>)
    ensures ConNumerosDeFoto(Tablero(prods, defs, mesas, users, segundos), parse).None?
            <==> exists k :: k in ClavesUnion(prods, defs) && parse(NumeroEmpleado(users, k.1)).None?
  {
    var filas := FilasTM(prods, defs, mesas, users, segundos);
    TableroOrden(filas);
    FilasTMNumeros(prods, defs, mesas, users, segundos);
    var num := (k: MesaTm) => NumeroEmpleado(users, k.1);
    FallaPorClaves(SortBy(filas, MesaAntes), filas, ClavesUnion(prods, defs), num, parse);
  }

  /**
   * Some card of a permutation of per-key cards fails to parse exactly when
   * some key's number does; `num` gives each key's number.
   */
  lemma FallaPorClaves(r: seq<FilaTM>, filas: seq<FilaTM>, ks: seq<MesaTm>, num: MesaTm -> string,
                       parse: string -> Option<int>)
    requires |filas| == |ks|
    requires forall f :: f in r <==> f in filas
    requires forall i :: 0 <= i < |filas| ==> filas[i].numeroEmpleado == num(ks[i])
    ensures (exists f :: f in r && parse(f.numeroEmpleado).None?) <==> exists k :: k in ks && parse(num(k)).None?
  {
    if exists f :: f in r && parse(f.numeroEmpleado).None? {
      var f :| f in r && parse(f.numeroEmpleado).None?;
      var i :| 0 <= i < |filas| && filas[i] == f;
      assert ks[i] in ks;
    }
    if exists k :: k in ks && parse(num(k)).None? {
      var k :| k in ks && parse(num(k)).None?;
      var i :| 0 <= i < |ks| && ks[i] == k;
      assert filas[i] in r;
    }
  }

  /** Each card carries the employee number of its key's TM. */
  lemma FilasTMNumeros(prods: seq<Pieza>, defs: seq<Defecto>, mesas: seq<Mesa>, users: seq<User>, segundos: Segundos)
    ensures var ks := ClavesUnion(prods, defs);
      var filas := FilasTM(prods, defs, mesas, users, segundos);
      forall i :: 0 <= i < |filas| ==> filas[i].numeroEmpleado == NumeroEmpleado(users, ks[i].1)
  {
  }

  /** An employee number that parses as Int32 parses to the same value as Int64. */
  lemma ParseWider(n: string)
    requires ParseInt32(n).Some?
    ensures ParseInt64(n) == ParseInt32(n)
  {
  }

  /**
   * When every user's number passes the registry's own test (Int64), and
   * the "0000" default covers TMs without a user, the corrected board never
   * fails.
   */
  lemma InspeccionTMCorregidoNoFalla(tablaPiezas: seq<Pieza>, tablaDefectos: seq<Defecto>, mesas: seq<Mesa>, users: seq<User>,
                                     fecha: Option<Date>, turno: string, hoy: Date, ahora: TimeOfDay)
    requires forall u :: u in users ==> EsNumerico(u.numerodeEmpleado)
    ensures InspeccionTMCorregido(tablaPiezas, tablaDefectos, mesas, users, fecha, turno, hoy, ahora).Some?
  {
    var dia := DiaDeLaVista(fecha, hoy, ahora);
    var t := TurnoOrCurrent(turno, SelectorDesde0700(ahora));
    TableroNoFalla(PiezasDelTurno(tablaPiezas, dia, t), DefectosDelTurno(tablaDefectos, dia, t), mesas, users,
                   Transcurrido(t, ahora));
  }

  /** With registry-valid numbers, no card's number fails the Int64 parse. */
  lemma TableroNoFalla(prods: seq<Pieza>, defs: seq<Defecto>, mesas: seq<Mesa>, users: seq<User>, segundos: Segundos)
    requires forall u :: u in users ==> EsNumerico(u.numerodeEmpleado)
    ensures ConNumerosDeFoto(Tablero(prods, defs, mesas, users, segundos), ParseInt64).Some?
  {
    forall k | k in ClavesUnion(prods, defs) ensures ParseInt64(NumeroEmpleado(users, k.1)).Some? {
      NumeroEmpleadoEsNumerico(users, k.1);
    }
    TableroFalla(prods, defs, mesas, users, segundos, ParseInt64);
  }

  /** The number a card shows is a user's registry-valid number or "0000", so it parses as Int64. */
  lemma NumeroEmpleadoEsNumerico(users: seq<User>, tm: string)
    requires forall u :: u in users ==> EsNumerico(u.numerodeEmpleado)
    ensures EsNumerico(NumeroEmpleado(users, tm))
  {
    var n := NumeroEmpleado(users, tm);
    if exists u :: u in users && u.nombre == tm {
      var u :| u in users && u.nombre == tm && n == u.numerodeEmpleado;
    } else {
      var z := "0";
      assert AllDigits(z) && z[..0] == [];
      DecimalValueLeadingZero(z);
      DecimalValueLeadingZero("0" + z);
      DecimalValueLeadingZero("0" + ("0" + z));
      assert "0000" == "0" + ("0" + ("0" + z));
      ParseDigits("0000", Int64Min, Int64Max);
    }
  }

  /**
   * Away from the night shift's after-midnight hours, a board the source
   * shows is exactly the corrected board.
   */
  lemma InspeccionTMCorregidoCoincide(tablaPiezas: seq<Pieza>, tablaDefectos: seq<Defecto>, mesas: seq<Mesa>, users: seq<User>,
                                      fecha: Option<Date>, turno: string, hoy: Date, ahora: TimeOfDay)
    requires var t := TurnoOrCurrent(turno, SelectorDesde0700(ahora)); !(t != "1" && t != "2" && ahora < Hms(7, 0, 0))
    requires InspeccionTM(tablaPiezas, tablaDefectos, mesas, users, fecha, turno, hoy, ahora).Some?
    ensures InspeccionTMCorregido(tablaPiezas, tablaDefectos, mesas, users, fecha, turno, hoy, ahora)
            == InspeccionTM(tablaPiezas, tablaDefectos, mesas, users, fecha, turno, hoy, ahora)
  {
    var dia := DiaDeLaVista(fecha, hoy, ahora);
    var t := TurnoOrCurrent(turno, SelectorDesde0700(ahora));
    var filas := Tablero(PiezasDelTurno(tablaPiezas, dia, t), DefectosDelTurno(tablaDefectos, dia, t), mesas, users,
                         TranscurridoAsWritten(t, ahora));
    forall f | f in filas ensures ParseInt64(f.numeroEmpleado).Some? {
      ParseWider(f.numeroEmpleado);
    }
  }

  /** A label with no digits, or digits beyond Int32, sorts at or after every other label. */
  lemma SinNumeroAlFinal(a: string, b: string)
    requires |DigitsOf(b)| == 0 || DecimalValue(DigitsOf(b)) > Int32Max
    ensures MesaOrden(a) <= MesaOrden(b)
  {
  }

  // ---------------------------------------------------------------------
  // The night-shift clock
  // ---------------------------------------------------------------------

  /**
   * As written, shift 3 shows a pro-rated goal of 0 for its whole
   * after-midnight part: at 03:00 with the default goal of 1800 a card with
   * 100 pieces is "Sobreproducción", where 3 h 10 min into the shift the
   * pro-rated goal is 712 and the card is "Fuera de meta".
   */
  lemma NightShiftCounterexample()
    ensures TranscurridoAsWritten("3", 10800) == 0      // 03:00:00
    ensures Transcurrido("3", 10800) == 11400           // 3 h 10 min
  {
    assert InicioTurno("3") == 85800;
  }

  /**
   * The registry stores a number n as "00" followed by its digits, and
   * accepts it when n fits Int64; the board's Int32 parse of that stored
   * number fails exactly when n is beyond Int32, e.g. "12345678901",
   * stored as "0012345678901".
   */
  lemma NumeroLargoFalla(n: nat)
    ensures var s := Normalizar(NatToString(n));
      && (EsNumerico(s) <==> n <= Int64Max)
      && (ParseInt32(s).None? <==> n > Int32Max)
  {
    var t := NatToString(n);
    DecimalOfNatToString(n);
    assert !StartsWith(t, Prefijo) by {
      if |t| >= 2 { assert t[0] != '0'; }
    }
    DecimalValueLeadingZero(t);
    DecimalValueLeadingZero("0" + t);
    assert Normalizar(t) == "0" + ("0" + t);
    ParseDigits(Normalizar(t), Int64Min, Int64Max);
    ParseDigits(Normalizar(t), Int32Min, Int32Max);
  }

  /** The registry's stored form of 12345678901 passes its own test and fails the board's parse. */
  lemma NumeroLargoCounterexample()
    ensures var s := Normalizar(NatToString(12345678901));
      EsNumerico(s) && ParseInt32(s).None?
  {
    NumeroLargoFalla(12345678901);
  }

  /** The pro-rated goals and bands of that example: 0 and "Sobreproducción" against 712 and "Fuera de meta". */
  lemma NightShiftBands()
    ensures MetaEsperada(MetaPorDefecto, 0) == 0
    ensures MetaEsperada(MetaPorDefecto, 11400) == 712
    ensures Clasificar(100, 0) == Sobreproduccion
    ensures Clasificar(100, 712) == FueraDeMeta
  {
    assert MetaPorDefecto * 11400 == 20520000;
  }
}
