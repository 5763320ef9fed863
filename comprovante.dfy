/** The printed reservation receipt (components/reservas/ComprovanteImpressao.tsx): the
    number of nights between two instants and the balance still owed. Instants are integer
    milliseconds. */
module Comprovante {
  import opened Types
  import opened Calendario

  function Abs(x: int): (a: nat)
    ensures a == x || a == -x
  {
    if x < 0 then -x else x
  }

  /** `diffInDays`: the absolute difference of the two instants divided by a day's length,
      rounded up. */
  function Noites(checkin: int, checkout: int): (n: nat)
    ensures (n - 1) * MsPerDay < Abs(checkout - checkin) <= n * MsPerDay
  {
    var diff := Abs(checkout - checkin);
    var n := (diff + MsPerDay - 1) / MsPerDay;
    assert n * MsPerDay <= diff + MsPerDay - 1 < n * MsPerDay + MsPerDay;
    n
  }

  /** The night count does not depend on the order of the two dates. */
  lemma NoitesSymmetric(t1: int, t2: int)
    ensures Noites(t1, t2) == Noites(t2, t1)
  {
    assert Abs(t2 - t1) == Abs(t1 - t2);
  }

  /** No nights exactly when the two instants coincide. */
  lemma NoitesZeroIff(t1: int, t2: int)
    ensures Noites(t1, t2) == 0 <==> t1 == t2
  {
  }

  /** Any part of a day counts as a whole night. */
  lemma PartialDayRoundsUp(t: int, days: nat, extra: int)
    requires 0 < extra < MsPerDay
    ensures Noites(t, t + days * MsPerDay + extra) == days + 1
  {
    var n := Noites(t, t + days * MsPerDay + extra);
    assert (n - 1) * MsPerDay < days * MsPerDay + extra <= n * MsPerDay;
  }

  /** Between two midnights of the same offset the receipt counts the whole days between
      them, the calendar's day difference up to sign. */
  lemma NoitesAgreeWithCalendar(d1: int, d2: int, o: int)
    requires -MsPerHour <= o <= MsPerHour
    ensures Noites(d1 * MsPerDay + o, d2 * MsPerDay + o) == Abs(DiffDays(d1 * MsPerDay + o, d2 * MsPerDay + o))
  {
    DiffDaysOfMidnights(d1, o, d2, o);
    var k := Abs(d2 - d1);
    assert Abs((d2 * MsPerDay + o) - (d1 * MsPerDay + o)) == k * MsPerDay;
    var n := Noites(d1 * MsPerDay + o, d2 * MsPerDay + o);
    assert (n - 1) * MsPerDay < k * MsPerDay <= n * MsPerDay;
  }

  /** "Valor Restante": the total less what was paid, a missing payment counting as 0. */
  function ValorRestante(r: Reserva): (v: real)
    ensures r.valorPago.None? ==> v == r.valorTotal
    ensures r.valorPago.Some? ==> v + r.valorPago.value == r.valorTotal
  {
    Outstanding(r)
  }
}
