/** The check-in desk (components/reservas/CheckinPage.tsx): today's arrivals and
    departures, and the two actions that move a reservation along. `today` is the
    current date as `YYYY-MM-DD` text, supplied by the caller in place of the clock. */
module Checkin {
  import opened Seqs
  import opened Types
  import opened Reservas

  /** Arriving today: the check-in date starts with today's date and the reservation is
      Confirmada or Pendente. */
  predicate DueIn(r: Reserva, today: string) {
    today <= r.dataCheckin && (r.statusReserva == Some(Confirmada) || r.statusReserva == Some(Pendente))
  }

  /** Leaving today: the check-out date starts with today's date and the guest is checked in. */
  predicate DueOut(r: Reserva, today: string) {
    today <= r.dataCheckout && r.statusReserva == Some(CheckIn)
  }

  function DueInFilter(today: string): Reserva -> bool {
    (r: Reserva) => DueIn(r, today)
  }

  function DueOutFilter(today: string): Reserva -> bool {
    (r: Reserva) => DueOut(r, today)
  }

  /** `checkinsHoje`: exactly the reservations arriving today, in list order. */
  function CheckinsHoje(reservas: seq<Reserva>, today: string): (r: seq<Reserva>)
    ensures forall x :: x in r ==> DueIn(x, today) && x in reservas
    ensures forall x :: x in reservas && DueIn(x, today) ==> x in r
    ensures SubseqOf(r, reservas)
    ensures forall x :: x in reservas ==> multiset(r)[x] == if DueIn(x, today) then multiset(reservas)[x] else 0
  {
    FilterMultiplicity(reservas, DueInFilter(today));
    Filter(reservas, DueInFilter(today))
  }

  /** `checkoutsHoje`: exactly the reservations leaving today, in list order. */
  function CheckoutsHoje(reservas: seq<Reserva>, today: string): (r: seq<Reserva>)
    ensures forall x :: x in r ==> DueOut(x, today) && x in reservas
    ensures forall x :: x in reservas && DueOut(x, today) ==> x in r
    ensures SubseqOf(r, reservas)
    ensures forall x :: x in reservas ==> multiset(r)[x] == if DueOut(x, today) then multiset(reservas)[x] else 0
  {
    FilterMultiplicity(reservas, DueOutFilter(today));
    Filter(reservas, DueOutFilter(today))
  }

  /** No reservation is listed both for arrival and for departure. */
  lemma ListsDisjoint(reservas: seq<Reserva>, today: string)
    ensures forall x :: x in CheckinsHoje(reservas, today) ==> x !in CheckoutsHoje(reservas, today)
  {
  }

  /** "Realizar Check-in" on a listed reservation. */
  function RealizarCheckin(reservas: seq<Reserva>, idReserva: int): (r: seq<Reserva>)
    ensures |r| == |reservas|
    ensures forall i :: 0 <= i < |reservas| ==>
      r[i] == if reservas[i].idReserva == idReserva then reservas[i].(statusReserva := Some(CheckIn)) else reservas[i]
  {
    SetStatus(reservas, idReserva, CheckIn)
  }

  /** "Realizar Check-out" on a listed reservation. */
  function RealizarCheckout(reservas: seq<Reserva>, idReserva: int): (r: seq<Reserva>)
    ensures |r| == |reservas|
    ensures forall i :: 0 <= i < |reservas| ==>
      r[i] == if reservas[i].idReserva == idReserva then reservas[i].(statusReserva := Some(CheckOut)) else reservas[i]
  {
    SetStatus(reservas, idReserva, CheckOut)
  }

  /** After the check-in action the reservation has left today's arrivals, and every other
      arrival is still listed. */
  lemma CheckinLeavesArrivals(reservas: seq<Reserva>, idReserva: int, today: string)
    ensures forall x :: x in CheckinsHoje(RealizarCheckin(reservas, idReserva), today) ==> x.idReserva != idReserva
    ensures forall x :: x in reservas && DueIn(x, today) && x.idReserva != idReserva ==>
      x in CheckinsHoje(RealizarCheckin(reservas, idReserva), today)
  {
    var after := RealizarCheckin(reservas, idReserva);
    var listed := CheckinsHoje(after, today);
    assert forall k :: 0 <= k < |after| && after[k].idReserva == idReserva ==> after[k].statusReserva == Some(CheckIn);
    forall x | x in listed ensures x.idReserva != idReserva {
      var k :| 0 <= k < |after| && after[k] == x;
    }
    forall x | x in reservas && DueIn(x, today) && x.idReserva != idReserva
      ensures x in listed
    {
      var i :| 0 <= i < |reservas| && reservas[i] == x;
      assert after[i] == x;
    }
  }

  /** After the check-in action, the reservation is listed among today's departures exactly
      when its check-out date is today. */
  lemma CheckinThenDueOut(reservas: seq<Reserva>, idReserva: int, today: string, k: int)
    requires 0 <= k < |reservas| && reservas[k].idReserva == idReserva
    ensures RealizarCheckin(reservas, idReserva)[k] in CheckoutsHoje(RealizarCheckin(reservas, idReserva), today)
        <==> today <= reservas[k].dataCheckout
  {
    var after := RealizarCheckin(reservas, idReserva);
    assert after[k] == reservas[k].(statusReserva := Some(CheckIn));
  }

  /** After the check-out action the reservation is on neither list. */
  lemma CheckoutLeavesBothLists(reservas: seq<Reserva>, idReserva: int, today: string)
    ensures forall x :: x in CheckoutsHoje(RealizarCheckout(reservas, idReserva), today) ==> x.idReserva != idReserva
    ensures forall x :: x in CheckinsHoje(RealizarCheckout(reservas, idReserva), today) ==> x.idReserva != idReserva
  {
    var after := RealizarCheckout(reservas, idReserva);
    assert forall k :: 0 <= k < |after| && after[k].idReserva == idReserva ==> after[k].statusReserva == Some(CheckOut);
    forall x | x in after && x.idReserva == idReserva ensures x.statusReserva == Some(CheckOut) {
      var k :| 0 <= k < |after| && after[k] == x;
    }
  }
}
