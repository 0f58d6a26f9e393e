/**
 * Shift lookup and labor-day ("fecha laboral") resolution.
 *
 * A production day starts with shift 1 in the morning and ends with shift 3,
 * which runs past midnight; an event recorded after midnight but before the
 * morning shift belongs to the previous labor day. The code base carries two
 * versions of this rule and two versions of the "current shift" selector:
 *
 *  - ProduccionHelper: a table of three shifts (07:00:00, 15:45:00, 23:50:00)
 *    with half-open intervals that end at :59, searched first match first;
 *  - an inline rule repeated in the defects controller, with 07:10 and closed
 *    intervals;
 *  - a selector starting shift 1 at 07:10 (defects) and one starting it at
 *    07:00 (scans).
 *
 * Times are whole seconds of the day, dates are day numbers.
 */
module ShiftCalendar {

  /** A time of day in whole seconds, 00:00:00 .. 23:59:59. */
  type TimeOfDay = t: int | 0 <= t < 86400

  /** A calendar or labor date as a day number; AddDays(-1) is `d - 1`. */
  type Date = int

  function Hms(h: nat, m: nat, s: nat): int { h * 3600 + m * 60 + s }

  datatype TurnoDef = TurnoDef(nombre: string, horaInicio: int, horaFin: int, offsetDia: int)

  const Turno1: TurnoDef := TurnoDef("Turno 1", Hms(7, 0, 0), Hms(15, 44, 59), 0)
  const Turno2: TurnoDef := TurnoDef("Turno 2", Hms(15, 45, 0), Hms(23, 49, 59), 0)
  const Turno3: TurnoDef := TurnoDef("Turno 3", Hms(23, 50, 0), Hms(6, 59, 59), 1)

  /** The helper's shift table, in declaration order. */
  const Turnos: seq<TurnoDef> := [Turno1, Turno2, Turno3]

  /** What the search returns when no shift matches. */
  const Desconocido: TurnoDef := TurnoDef("Desconocido", 0, 0, 0)

  /** Whether `hora` falls in the shift: half-open, wrapping past midnight when start >= end. */
  predicate Matches(t: TurnoDef, hora: TimeOfDay)
  {
    if t.horaInicio < t.horaFin then t.horaInicio <= hora < t.horaFin
    else hora >= t.horaInicio || hora < t.horaFin
  }

  /** The `foreach` search: the first shift of `ts` that matches, else the fallback. */
  function FirstMatch(ts: seq<TurnoDef>, hora: TimeOfDay): (r: TurnoDef)
    ensures (r in ts && Matches(r, hora)) || (r == Desconocido && forall t :: t in ts ==> !Matches(t, hora))
  {
    if |ts| == 0 then Desconocido
    else if Matches(ts[0], hora) then ts[0]
    else
      var r := FirstMatch(ts[1..], hora);
      assert forall t :: t in ts ==> t == ts[0] || t in ts[1..];
      r
  }

  function ObtenerTurno(hora: TimeOfDay): TurnoDef
  {
    FirstMatch(Turnos, hora)
  }

  /** ProduccionHelper.GetFechaProduccion: the event's date, one day earlier for shift 3 before its end. */
  function GetFechaProduccion(fecha: Date, hora: TimeOfDay): (r: Date)
    ensures r == fecha || r == fecha - 1
  {
    var turno := ObtenerTurno(hora);
    if turno.offsetDia == 1 && hora < turno.horaFin then fecha - 1 else fecha
  }

  /** Which shift the helper resolves each second of the day to. */
  lemma ObtenerTurnoCases(hora: TimeOfDay)
    ensures ObtenerTurno(hora) ==
      if Hms(7, 0, 0) <= hora < Hms(15, 44, 59) then Turno1
      else if Hms(15, 45, 0) <= hora < Hms(23, 49, 59) then Turno2
      else if hora >= Hms(23, 50, 0) || hora < Hms(6, 59, 59) then Turno3
      else Desconocido
  {
    assert Turnos[1..] == [Turno2, Turno3];
    assert [Turno2, Turno3][1..] == [Turno3];
    assert [Turno3][1..] == [];
    assert FirstMatch([Turno3], hora) == if Matches(Turno3, hora) then Turno3 else Desconocido;
    assert FirstMatch([Turno2, Turno3], hora) ==
      if Matches(Turno2, hora) then Turno2 else FirstMatch([Turno3], hora);
    assert ObtenerTurno(hora) ==
      if Matches(Turno1, hora) then Turno1 else FirstMatch([Turno2, Turno3], hora);
  }

  /** The three seconds that no half-open interval covers fall to the fallback, with offset 0. */
  lemma GapsAreUnknown(hora: TimeOfDay)
    requires hora == Hms(6, 59, 59) || hora == Hms(15, 44, 59) || hora == Hms(23, 49, 59)
    ensures ObtenerTurno(hora) == Desconocido
    ensures ObtenerTurno(hora).offsetDia == 0
    ensures GetFechaProduccion(0, hora) == 0
  {
    ObtenerTurnoCases(hora);
  }

  /** The helper's labor day: the previous date exactly before 06:59:59. */
  lemma HelperLaborDay(fecha: Date, hora: TimeOfDay)
    ensures GetFechaProduccion(fecha, hora) == if hora < Hms(6, 59, 59) then fecha - 1 else fecha
  {
    ObtenerTurnoCases(hora);
  }

  /** Shift 3 after 23:50 keeps its calendar date, because the time is not below HoraFin. */
  lemma LateShiftKeepsDate(fecha: Date, hora: TimeOfDay)
    requires hora >= Hms(23, 50, 0)
    ensures ObtenerTurno(hora) == Turno3
    ensures GetFechaProduccion(fecha, hora) == fecha
  {
    ObtenerTurnoCases(hora);
  }

  /** The three intervals are pairwise disjoint. */
  lemma TurnosDisjoint(hora: TimeOfDay, i: nat, j: nat)
    requires i < j < |Turnos|
    ensures !(Matches(Turnos[i], hora) && Matches(Turnos[j], hora))
  {
  }

  /**
   * With pairwise disjoint intervals, the first match is the only match, so
   * the search result depends only on which shifts are listed, not on order.
   */
  lemma {:induction false} FirstMatchUnique(ts: seq<TurnoDef>, hora: TimeOfDay, t: TurnoDef)
    requires t in ts && Matches(t, hora)
    requires forall u :: u in ts && Matches(u, hora) ==> u == t
    ensures FirstMatch(ts, hora) == t
  {
    if ts[0] != t {
      assert forall u :: u in ts[1..] ==> u in ts;
      FirstMatchUnique(ts[1..], hora, t);
    }
  }

  lemma ObtenerTurnoOrderIndependent(ts: seq<TurnoDef>, hora: TimeOfDay)
    requires multiset(ts) == multiset(Turnos)
    ensures FirstMatch(ts, hora) == ObtenerTurno(hora)
  {
    ObtenerTurnoCases(hora);
    var r := ObtenerTurno(hora);
    forall u | u in ts ensures u == Turno1 || u == Turno2 || u == Turno3 {
      assert u in multiset(ts);
      assert u in multiset(Turnos);
    }
    if r != Desconocido {
      assert r in multiset(Turnos);
      assert r in ts;
      FirstMatchUnique(ts, hora, r);
    }
  }

  // ---------------------------------------------------------------------
  // The inline rule of the defects controller
  // ---------------------------------------------------------------------

  /** 23:50:00–23:59:59 keeps the date, 00:00:00–07:09:59 is the previous date, the rest keeps it. */
  function InlineLaborDay(fecha: Date, hora: TimeOfDay): (r: Date)
    ensures r == fecha || r == fecha - 1
  {
    if Hms(23, 50, 0) <= hora <= Hms(23, 59, 59) then fecha
    else if 0 <= hora <= Hms(7, 9, 59) then fecha - 1
    else fecha
  }

  /**
   * The two rules disagree exactly from 06:59:59 through 07:09:59, where the
   * helper keeps the date and the inline rule moves to the previous one.
   */
  lemma LaborDayRulesDiffer(fecha: Date, hora: TimeOfDay)
    ensures GetFechaProduccion(fecha, hora) != InlineLaborDay(fecha, hora)
        <==> Hms(6, 59, 59) <= hora <= Hms(7, 9, 59)
    ensures Hms(6, 59, 59) <= hora <= Hms(7, 9, 59) ==>
        GetFechaProduccion(fecha, hora) == fecha && InlineLaborDay(fecha, hora) == fecha - 1
  {
    HelperLaborDay(fecha, hora);
  }

  // ---------------------------------------------------------------------
  // The "current shift" selectors
  // ---------------------------------------------------------------------

  /** Defects controller: 07:10:00–15:44:59 is "1", 15:45:00–23:49:59 is "2", else "3". */
  function SelectorDesde0710(hora: TimeOfDay): (r: string)
    ensures r == "1" <==> Hms(7, 10, 0) <= hora <= Hms(15, 44, 59)
    ensures r == "2" <==> Hms(15, 45, 0) <= hora <= Hms(23, 49, 59)
    ensures r == "1" || r == "2" || r == "3"
  {
    if Hms(7, 10, 0) <= hora <= Hms(15, 44, 59) then "1"
    else if Hms(15, 45, 0) <= hora <= Hms(23, 49, 59) then "2"
    else "3"
  }

  /** Scans controller: 07:00:00–15:44:59 is "1", 15:45:00–23:49:59 is "2", else "3". */
  function SelectorDesde0700(hora: TimeOfDay): (r: string)
    ensures r == "1" <==> Hms(7, 0, 0) <= hora <= Hms(15, 44, 59)
    ensures r == "2" <==> Hms(15, 45, 0) <= hora <= Hms(23, 49, 59)
    ensures r == "1" || r == "2" || r == "3"
  {
    if Hms(7, 0, 0) <= hora <= Hms(15, 44, 59) then "1"
    else if Hms(15, 45, 0) <= hora <= Hms(23, 49, 59) then "2"
    else "3"
  }

  /** The selectors disagree only from 07:00:00 through 07:09:59 ("1" against "3"). */
  lemma SelectorsDiffer(hora: TimeOfDay)
    ensures SelectorDesde0700(hora) != SelectorDesde0710(hora) <==> Hms(7, 0, 0) <= hora <= Hms(7, 9, 59)
    ensures Hms(7, 0, 0) <= hora <= Hms(7, 9, 59) ==>
        SelectorDesde0700(hora) == "1" && SelectorDesde0710(hora) == "3"
  {
  }

  /** The shift number the helper's table gives, "" for the fallback. */
  function ShiftNumber(t: TurnoDef): string
  {
    if t == Turno1 then "1" else if t == Turno2 then "2" else if t == Turno3 then "3" else ""
  }

  /**
   * Outside the three gap seconds, the 07:00 selector names the shift the
   * helper's table resolves; at 15:44:59 and 23:49:59 it still picks "1" and
   * "2", and at 06:59:59 it picks "3".
   */
  lemma SelectorMatchesHelper(hora: TimeOfDay)
    ensures hora != Hms(6, 59, 59) && hora != Hms(15, 44, 59) && hora != Hms(23, 49, 59) ==>
        SelectorDesde0700(hora) == ShiftNumber(ObtenerTurno(hora))
    ensures ObtenerTurno(hora) == Desconocido <==>
        hora == Hms(6, 59, 59) || hora == Hms(15, 44, 59) || hora == Hms(23, 49, 59)
  {
    ObtenerTurnoCases(hora);
  }

  /** An empty shift argument falls back to the selector (`string.IsNullOrEmpty(turno)`). */
  function TurnoOrCurrent(turno: string, selected: string): (r: string)
    ensures turno != "" ==> r == turno
    ensures turno == "" ==> r == selected
  {
    if turno == "" then selected else turno
  }
}
