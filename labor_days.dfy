/**
 * Two-phase labor-day filtering. A query first fetches the rows whose
 * calendar date lies in a window around the requested labor days, then
 * keeps the rows whose computed labor day is requested. Since a labor day is
 * the calendar date or the day before, the window [inicio - 1, fin + 1]
 * loses nothing.
 */
module LaborDays {
  import opened Collections
  import opened ShiftCalendar
  import opened Records

  /** The database fetch: calendar dates in [desde, hasta]. */
  function FetchDates<T(!new)>(rows: seq<T>, fecha: T -> Date, desde: Date, hasta: Date): seq<T>
  {
    Filter(rows, r => desde <= fecha(r) <= hasta)
  }

  /** Rows whose labor day under ProduccionHelper lies in [inicio, fin]. */
  function KeepHelperDays<T(!new)>(rows: seq<T>, fecha: T -> Date, hora: T -> TimeOfDay, inicio: Date, fin: Date): seq<T>
  {
    Filter(rows, r => inicio <= GetFechaProduccion(fecha(r), hora(r)) <= fin)
  }

  /** Rows whose labor day under the inline 07:10 rule lies in [inicio, fin]. */
  function KeepInlineDays<T(!new)>(rows: seq<T>, fecha: T -> Date, hora: T -> TimeOfDay, inicio: Date, fin: Date): seq<T>
  {
    Filter(rows, r => inicio <= InlineLaborDay(fecha(r), hora(r)) <= fin)
  }

  /**
   * Fetching [inicio - 1, fin + 1] and keeping the helper's labor days in
   * [inicio, fin] returns exactly the rows of the whole table whose labor day
   * is in range, in table order.
   */
  lemma HelperWindowExact<T(!new)>(rows: seq<T>, fecha: T -> Date, hora: T -> TimeOfDay, inicio: Date, fin: Date)
    ensures KeepHelperDays(FetchDates(rows, fecha, inicio - 1, fin + 1), fecha, hora, inicio, fin)
         == KeepHelperDays(rows, fecha, hora, inicio, fin)
  {
    var p := (r: T) => inicio - 1 <= fecha(r) <= fin + 1;
    var q := (r: T) => inicio <= GetFechaProduccion(fecha(r), hora(r)) <= fin;
    FilterFilter(rows, p, q);
    FilterCongruent(rows, (r: T) => p(r) && q(r), q);
  }

  /** The same exactness for the inline rule. */
  lemma InlineWindowExact<T(!new)>(rows: seq<T>, fecha: T -> Date, hora: T -> TimeOfDay, inicio: Date, fin: Date)
    ensures KeepInlineDays(FetchDates(rows, fecha, inicio - 1, fin + 1), fecha, hora, inicio, fin)
         == KeepInlineDays(rows, fecha, hora, inicio, fin)
  {
    var p := (r: T) => inicio - 1 <= fecha(r) <= fin + 1;
    var q := (r: T) => inicio <= InlineLaborDay(fecha(r), hora(r)) <= fin;
    FilterFilter(rows, p, q);
    FilterCongruent(rows, (r: T) => p(r) && q(r), q);
  }

  /** Membership in the two-phase result: in the table, labor day in range. */
  lemma HelperDaysMembers<T(!new)>(rows: seq<T>, fecha: T -> Date, hora: T -> TimeOfDay, inicio: Date, fin: Date, x: T)
    ensures x in KeepHelperDays(FetchDates(rows, fecha, inicio - 1, fin + 1), fecha, hora, inicio, fin)
        <==> x in rows && inicio <= GetFechaProduccion(fecha(x), hora(x)) <= fin
  {
    HelperWindowExact(rows, fecha, hora, inicio, fin);
  }

  /** The row's labor day under ProduccionHelper is dia. */
  function DelDia<T>(fecha: T -> Date, hora: T -> TimeOfDay, dia: Date): T -> bool
  {
    r => GetFechaProduccion(fecha(r), hora(r)) == dia
  }

  /** The number of rows kept for a single labor day is the number of table rows with that labor day. */
  lemma HelperDayCount<T(!new)>(rows: seq<T>, fecha: T -> Date, hora: T -> TimeOfDay, dia: Date)
    ensures |KeepHelperDays(rows, fecha, hora, dia, dia)| == CountIf(rows, DelDia(fecha, hora, dia))
  {
    FilterCongruent(rows, r => dia <= GetFechaProduccion(fecha(r), hora(r)) <= dia,
      DelDia(fecha, hora, dia));
  }

  // ---------------------------------------------------------------------
  // The cost chart's window (GetTopMandrilesPorDia): [inicio - 1, fin]
  // ---------------------------------------------------------------------

  /** The chart's rows as written: the fetch stops at `fin`. */
  function ChartRowsAsWritten<T(!new)>(rows: seq<T>, fecha: T -> Date, hora: T -> TimeOfDay, inicio: Date, fin: Date): seq<T>
  {
    KeepInlineDays(FetchDates(rows, fecha, inicio - 1, fin), fecha, hora, inicio, fin)
  }

  /** As written, the chart keeps the rows of the full window that are not dated after fin. */
  lemma ChartRowsAsWrittenSpec<T(!new)>(rows: seq<T>, fecha: T -> Date, hora: T -> TimeOfDay, inicio: Date, fin: Date)
    ensures forall x :: (x in ChartRowsAsWritten(rows, fecha, hora, inicio, fin)
      <==> x in ChartRows(rows, fecha, hora, inicio, fin) && fecha(x) <= fin)
  {
    forall x | x in rows && inicio <= InlineLaborDay(fecha(x), hora(x)) ensures inicio - 1 <= fecha(x) {
    }
  }

  /** The chart's rows with the window every other query uses. */
  function ChartRows<T(!new)>(rows: seq<T>, fecha: T -> Date, hora: T -> TimeOfDay, inicio: Date, fin: Date): (r: seq<T>)
    ensures r == KeepInlineDays(rows, fecha, hora, inicio, fin)
    ensures forall x :: x in r <==> x in rows && inicio <= InlineLaborDay(fecha(x), hora(x)) <= fin
  {
    InlineWindowExact(rows, fecha, hora, inicio, fin);
    KeepInlineDays(FetchDates(rows, fecha, inicio - 1, fin + 1), fecha, hora, inicio, fin)
  }

  /**
   * What the short window loses: exactly the rows dated fin + 1 whose labor
   * day is fin, i.e. the early-morning rows (00:00:00–07:09:59) of the day
   * after the range.
   */
  lemma ChartWindowLoses<T(!new)>(rows: seq<T>, fecha: T -> Date, hora: T -> TimeOfDay, inicio: Date, fin: Date, x: T)
    requires inicio <= fin
    ensures x in ChartRows(rows, fecha, hora, inicio, fin) && x !in ChartRowsAsWritten(rows, fecha, hora, inicio, fin)
        <==> x in rows && fecha(x) == fin + 1 && hora(x) <= Hms(7, 9, 59)
  {
  }

  /** A concrete defect the chart drops: dated the day after the range, at 00:30:00. */
  lemma ChartWindowCounterexample(inicio: Date, fin: Date)
    requires inicio <= fin
    ensures var d := Defecto(1, fin + 1, 1800, "M-01", "17a", "Print", "MESA 1", "3", "TM");
            InlineLaborDay(d.fecha, d.hora) == fin
            && ChartRows([d], DefFecha, DefHora, inicio, fin) == [d]
            && ChartRowsAsWritten([d], DefFecha, DefHora, inicio, fin) == []
  {
    var d := Defecto(1, fin + 1, 1800, "M-01", "17a", "Print", "MESA 1", "3", "TM");
    ChartWindowLoses([d], DefFecha, DefHora, inicio, fin, d);
    assert FetchDates([d], DefFecha, inicio - 1, fin) == [];
  }
}
