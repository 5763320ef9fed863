/** The reservations calendar (components/reservas/CalendarioReservas.tsx): the list of
    days shown between two dates, the whole-day difference between two instants, and the
    placement of a reservation's bar, in day columns, inside the visible window. */
module Calendario {
  import opened Seqs
  import opened Types

  const MsPerDay: int := 86400000
  const MsPerHour: int := 3600000

  /** The `days` builder: from `start` to `end` inclusive, one day at a time; nothing when
      the window is reversed. */
  method BuildDays(start: int, end: int) returns (days: seq<int>)
    ensures start > end ==> days == []
    ensures start <= end ==> |days| == end - start + 1
    ensures forall i :: 0 <= i < |days| ==> days[i] == start + i
  {
    days := [];
    if start > end {
      return;
    }
    var currentDate := start;
    while currentDate <= end
      invariant start <= currentDate <= end + 1
      invariant |days| == currentDate - start
      invariant forall i :: 0 <= i < |days| ==> days[i] == start + i
      decreases end - currentDate
    {
      days := days + [currentDate];
      currentDate := currentDate + 1;
    }
  }

  /** `Math.round(x / unit)` for a positive unit: round half up. */
  function RoundDiv(x: int, unit: int): int
    requires unit > 0
  {
    (2 * x + unit) / (2 * unit)
  }

  /** `diffDays(date1, date2)`: the difference of two local-midnight instants, in
      milliseconds, divided by a day's length and rounded. */
  function DiffDays(ms1: int, ms2: int): (n: int)
    ensures n * MsPerDay - MsPerDay / 2 <= ms2 - ms1 < n * MsPerDay + MsPerDay / 2
  {
    RoundDiv(ms2 - ms1, MsPerDay)
  }

  lemma RoundDivOfNearMultiple(k: int, off: int)
    requires -MsPerDay / 2 <= off < MsPerDay / 2
    ensures RoundDiv(k * MsPerDay + off, MsPerDay) == k
  {
    var x := k * MsPerDay + off;
    assert 2 * x + MsPerDay == k * (2 * MsPerDay) + (2 * off + MsPerDay);
    assert 0 <= 2 * off + MsPerDay < 2 * MsPerDay;
  }

  /** Two local midnights may sit a daylight-saving hour off the whole-day grid; the
      rounding in `diffDays` absorbs that, so the result is the difference of the day
      numbers. */
  lemma DiffDaysOfMidnights(d1: int, o1: int, d2: int, o2: int)
    requires -MsPerHour <= o1 <= MsPerHour && -MsPerHour <= o2 <= MsPerHour
    ensures DiffDays(d1 * MsPerDay + o1, d2 * MsPerDay + o2) == d2 - d1
  {
    assert (d2 * MsPerDay + o2) - (d1 * MsPerDay + o1) == (d2 - d1) * MsPerDay + (o2 - o1);
    RoundDivOfNearMultiple(d2 - d1, o2 - o1);
  }

  /** On such instants `diffDays` is zero on equal days and antisymmetric. */
  lemma DiffDaysAntisymmetric(d1: int, o1: int, d2: int, o2: int)
    requires -MsPerHour <= o1 <= MsPerHour && -MsPerHour <= o2 <= MsPerHour
    ensures DiffDays(d1 * MsPerDay + o1, d2 * MsPerDay + o2) == -DiffDays(d2 * MsPerDay + o2, d1 * MsPerDay + o1)
    ensures d1 == d2 ==> DiffDays(d1 * MsPerDay + o1, d2 * MsPerDay + o2) == 0
  {
    DiffDaysOfMidnights(d1, o1, d2, o2);
    DiffDaysOfMidnights(d2, o2, d1, o1);
  }

  /** `reservas.filter(r => r.id_quarto === quarto.id_quarto)`: a room's row holds exactly
      that room's reservations, in their order. */
  function RowReservas(reservas: seq<Reserva>, idQuarto: int): (row: seq<Reserva>)
    ensures forall x :: x in row ==> x.idQuarto == idQuarto && x in reservas
    ensures forall x :: x in reservas && x.idQuarto == idQuarto ==> x in row
    ensures SubseqOf(row, reservas)
    ensures forall x :: x in reservas ==> multiset(row)[x] == if x.idQuarto == idQuarto then multiset(reservas)[x] else 0
  {
    FilterMultiplicity(reservas, (r: Reserva) => r.idQuarto == idQuarto);
    Filter(reservas, (r: Reserva) => r.idQuarto == idQuarto)
  }

  /** A reservation whose checkout equals its check-in is drawn as one day. */
  function BarDuration(rawDuration: int): (d: int)
    ensures rawDuration != 0 ==> d == rawDuration
    ensures rawDuration == 0 ==> d == 1
  {
    if rawDuration == 0 then 1 else rawDuration
  }

  /** A bar in day columns: its first column and the number of columns it spans (each
      column is 96 pixels wide). */
  datatype Bar = Bar(start: int, span: int)

  /** The bar is not drawn when it ends at or before the first column or starts past the
      last one. */
  predicate Hidden(startIndex: int, duration: int, nDays: int) {
    (startIndex < 0 && startIndex + duration <= 0) || startIndex >= nDays
  }

  function Max(a: int, b: int): int { if a >= b then a else b }

  function Min(a: int, b: int): int { if a <= b then a else b }

  /** The bar placement as written: a bar that starts before the window keeps all of its
      remaining days, however far past the window's end they run. */
  function BarAsWritten(startIndex: int, rawDuration: int, nDays: int): (r: Option<Bar>)
    ensures r.None? <==> Hidden(startIndex, BarDuration(rawDuration), nDays)
    ensures r.Some? ==> r.value.start == Max(startIndex, 0) && (nDays > 0 ==> r.value.start < nDays)
    ensures r.Some? && startIndex >= 0 && rawDuration >= 0 ==>
      0 < r.value.span && r.value.start + r.value.span <= nDays
    ensures r.Some? && startIndex < 0 ==> r.value.span == startIndex + BarDuration(rawDuration) > 0
    ensures r.Some? && startIndex >= 0 ==> r.value.span == Min(BarDuration(rawDuration), nDays - startIndex)
  {
    var duration := BarDuration(rawDuration);
    if Hidden(startIndex, duration, nDays) then None
    else
      var effectiveStart := Max(startIndex, 0);
      var effectiveDuration := if startIndex < 0 then duration + startIndex else Min(duration, nDays - startIndex);
      Some(Bar(effectiveStart, effectiveDuration))
  }

  /** A stay that starts the day before a three-day window and lasts ten days is drawn
      nine columns wide, six past the window's end. */
  lemma EarlyLongStayOverflows()
    ensures BarAsWritten(-1, 10, 3) == Some(Bar(0, 9))
    ensures BarAsWritten(-1, 10, 3).value.start + BarAsWritten(-1, 10, 3).value.span > 3
  {
  }

  /** The placement clipped on both sides: the bar runs from the stay's first visible day
      to its last visible day, and is not drawn when no day of the stay is visible. */
  function ClippedBar(startIndex: int, rawDuration: int, nDays: int): (r: Option<Bar>)
    ensures r.None? <==> Max(startIndex, 0) >= Min(startIndex + BarDuration(rawDuration), nDays)
    ensures r.Some? ==> r.value.start == Max(startIndex, 0) && 0 <= r.value.start < nDays
    ensures r.Some? ==> 0 < r.value.span && r.value.start + r.value.span <= nDays
  {
    var duration := BarDuration(rawDuration);
    var effectiveStart := Max(startIndex, 0);
    var effectiveEnd := Min(startIndex + duration, nDays);
    if effectiveStart >= effectiveEnd then None
    else Some(Bar(effectiveStart, effectiveEnd - effectiveStart))
  }

  /** The clipped bar covers exactly the window's columns that fall within the stay. */
  lemma ClippedBarIsVisiblePartOfStay(startIndex: int, rawDuration: int, nDays: int, i: int)
    ensures var r := ClippedBar(startIndex, rawDuration, nDays);
      (r.Some? && r.value.start <= i < r.value.start + r.value.span)
      <==> (0 <= i < nDays && startIndex <= i < startIndex + BarDuration(rawDuration))
  {
  }

  /** For a stay of non-negative length in a non-empty window, the clipped bar is hidden in
      exactly the cases the written guards hide it. */
  lemma ClippedHiddenAsWritten(startIndex: int, rawDuration: int, nDays: int)
    requires rawDuration >= 0 && nDays > 0
    ensures ClippedBar(startIndex, rawDuration, nDays).None? <==> Hidden(startIndex, BarDuration(rawDuration), nDays)
  {
  }

  /** The clipped placement differs from the written one only for a bar that starts before
      the window and runs past its end. */
  lemma ClippedAgreesUnlessBothEndsOverflow(startIndex: int, rawDuration: int, nDays: int)
    requires rawDuration >= 0 && nDays > 0
    requires !(startIndex < 0 && startIndex + BarDuration(rawDuration) > nDays)
    ensures ClippedBar(startIndex, rawDuration, nDays) == BarAsWritten(startIndex, rawDuration, nDays)
  {
  }
}
