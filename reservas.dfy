/** The reservations page (components/reservas/ReservasPage.tsx): the reservation list and
    the handlers that add, edit, delete, cancel and re-status its entries, plus the lookup
    that gathers what the printed receipt needs. */
module Reservas {
  import opened Seqs
  import opened Types
  import opened Ids
  import opened Pricing

  /** The reservation form's data (`Partial<Reserva>` without the id). For the optional
      record fields, the outer `Option` says whether the form sent the key at all. */
  datatype ReservaPatch = ReservaPatch(
    idHospede: Option<int>,
    idQuarto: Option<int>,
    dataCheckin: Option<string>,
    dataCheckout: Option<string>,
    numeroHospedes: Option<int>,
    valorTotal: Option<real>,
    valorPago: Option<Option<real>>,
    statusReserva: Option<Option<ReservationStatus>>)
  {
    /** The fields every reservation has, as the form always sends them for a new one. */
    predicate IsComplete() {
      idHospede.Some? && idQuarto.Some? && dataCheckin.Some? && dataCheckout.Some?
      && numeroHospedes.Some? && valorTotal.Some?
    }
  }

  /** The patch that changes the status and nothing else. */
  function StatusPatch(status: ReservationStatus): ReservaPatch {
    ReservaPatch(None, None, None, None, None, None, None, Some(Some(status)))
  }

  /** `{...r, ...data}` */
  function MergeReserva(r: Reserva, data: ReservaPatch): Reserva {
    Reserva(
      r.idReserva,
      data.idHospede.GetOr(r.idHospede),
      data.idQuarto.GetOr(r.idQuarto),
      data.dataCheckin.GetOr(r.dataCheckin),
      data.dataCheckout.GetOr(r.dataCheckout),
      data.numeroHospedes.GetOr(r.numeroHospedes),
      data.valorTotal.GetOr(r.valorTotal),
      data.valorPago.GetOr(r.valorPago),
      data.statusReserva.GetOr(r.statusReserva))
  }

  /** `{id_reserva: id, ...data}`: an optional field the form did not send stays absent. */
  function NewReserva(id: int, data: ReservaPatch): Reserva
    requires data.IsComplete()
  {
    Reserva(
      id, data.idHospede.value, data.idQuarto.value, data.dataCheckin.value, data.dataCheckout.value,
      data.numeroHospedes.value, data.valorTotal.value, data.valorPago.GetOr(None), data.statusReserva.GetOr(None))
  }

  function ReservaIds(rs: seq<Reserva>): (ids: seq<int>)
    ensures |ids| == |rs| && forall i :: 0 <= i < |rs| ==> ids[i] == rs[i].idReserva
  {
    if rs == [] then [] else [rs[0].idReserva] + ReservaIds(rs[1..])
  }

  /** The edit branch of `handleSaveReserva`: the reservation with the selected id is merged
      with the form data; the list keeps its length, its ids and every other record. */
  function UpdateReserva(rs: seq<Reserva>, idReserva: int, data: ReservaPatch): (r: seq<Reserva>)
    ensures |r| == |rs|
    ensures ReservaIds(r) == ReservaIds(rs)
    ensures forall i :: 0 <= i < |rs| && rs[i].idReserva != idReserva ==> r[i] == rs[i]
    ensures forall i :: 0 <= i < |rs| && rs[i].idReserva == idReserva ==> r[i] == MergeReserva(rs[i], data)
  {
    if rs == [] then []
    else [if rs[0].idReserva == idReserva then MergeReserva(rs[0], data) else rs[0]]
         + UpdateReserva(rs[1..], idReserva, data)
  }

  /** `updateReservaStatus`: the matching reservations get the new status; every other field
      and every other record stays as it was. */
  function SetStatus(rs: seq<Reserva>, idReserva: int, status: ReservationStatus): (r: seq<Reserva>)
    ensures |r| == |rs|
    ensures ReservaIds(r) == ReservaIds(rs)
    ensures forall i :: 0 <= i < |rs| && rs[i].idReserva != idReserva ==> r[i] == rs[i]
    ensures forall i :: 0 <= i < |rs| && rs[i].idReserva == idReserva ==> r[i] == rs[i].(statusReserva := Some(status))
  {
    if rs == [] then []
    else [if rs[0].idReserva == idReserva then rs[0].(statusReserva := Some(status)) else rs[0]]
         + SetStatus(rs[1..], idReserva, status)
  }

  /** Setting a status is the edit whose form data carries only that status. */
  lemma SetStatusIsStatusEdit(rs: seq<Reserva>, idReserva: int, status: ReservationStatus)
    ensures SetStatus(rs, idReserva, status) == UpdateReserva(rs, idReserva, StatusPatch(status))
  {
    var a := SetStatus(rs, idReserva, status);
    var b := UpdateReserva(rs, idReserva, StatusPatch(status));
    assert forall i :: 0 <= i < |rs| ==> a[i] == b[i];
  }

  /** The last status set wins, so setting the same status twice is setting it once. */
  lemma SetStatusLastWins(rs: seq<Reserva>, idReserva: int, s1: ReservationStatus, s2: ReservationStatus)
    ensures SetStatus(SetStatus(rs, idReserva, s1), idReserva, s2) == SetStatus(rs, idReserva, s2)
  {
    var mid := SetStatus(rs, idReserva, s1);
    var a := SetStatus(mid, idReserva, s2);
    var b := SetStatus(rs, idReserva, s2);
    forall i | 0 <= i < |rs| ensures a[i] == b[i] {
      if rs[i].idReserva == idReserva {
        assert mid[i] == rs[i].(statusReserva := Some(s1));
      } else {
        assert mid[i] == rs[i];
      }
    }
  }

  /** The predicate `r => r.id_reserva !== id` of the reservation delete. */
  function OtherReserva(idReserva: int): Reserva -> bool {
    (r: Reserva) => r.idReserva != idReserva
  }

  /** The filter of `confirmDelete`: exactly the records with the id go, the others stay in
      order. */
  function RemoveReserva(rs: seq<Reserva>, idReserva: int): (r: seq<Reserva>)
    ensures forall x :: x in r ==> x.idReserva != idReserva && x in rs
    ensures forall x :: x in rs && x.idReserva != idReserva ==> x in r
    ensures SubseqOf(r, rs)
    ensures forall x :: x in rs ==> multiset(r)[x] == if x.idReserva != idReserva then multiset(rs)[x] else 0
  {
    FilterMultiplicity(rs, OtherReserva(idReserva));
    Filter(rs, OtherReserva(idReserva))
  }

  /** Deleting an id that no record has changes nothing. */
  lemma RemoveAbsentId(rs: seq<Reserva>, idReserva: int)
    requires idReserva !in ReservaIds(rs)
    ensures RemoveReserva(rs, idReserva) == rs
  {
    assert forall i :: 0 <= i < |rs| ==> OtherReserva(idReserva)(rs[i]) by {
      forall i | 0 <= i < |rs| ensures OtherReserva(idReserva)(rs[i]) {
        assert ReservaIds(rs)[i] == rs[i].idReserva;
      }
    }
    FilterAll(rs, OtherReserva(idReserva));
  }

  /** With distinct ids, deleting an id in use removes exactly one record. */
  lemma {:induction false} RemovePresentId(rs: seq<Reserva>, idReserva: int)
    requires Distinct(ReservaIds(rs)) && idReserva in ReservaIds(rs)
    ensures |RemoveReserva(rs, idReserva)| == |rs| - 1
  {
    var ids := ReservaIds(rs);
    var rest := ReservaIds(rs[1..]);
    assert ids == [rs[0].idReserva] + rest;
    if rs[0].idReserva == idReserva {
      assert idReserva !in rest by {
        forall j | 0 <= j < |rest| ensures rest[j] != idReserva {
          assert rest[j] == ids[j + 1];
        }
      }
      RemoveAbsentId(rs[1..], idReserva);
    } else {
      assert Distinct(rest) by {
        forall i, j | 0 <= i < j < |rest| ensures rest[i] != rest[j] {
          assert rest[i] == ids[i + 1] && rest[j] == ids[j + 1];
        }
      }
      RemovePresentId(rs[1..], idReserva);
    }
  }

  /** `reservaIdToAction` is acted on only when it is set and not 0. */
  predicate Actionable(id: Option<int>) {
    id.Some? && id.value != 0
  }

  function FindHospede(hospedes: seq<Hospede>, idHospede: int): Option<Hospede> {
    Find(hospedes, (h: Hospede) => h.idHospede == idHospede)
  }

  datatype PrintData = PrintData(reserva: Reserva, hospede: Hospede, quarto: Quarto, tipoQuarto: TipoQuarto)

  /** `selectedPrintData`: the selected reservation with its guest, its room and the room's
      type, or nothing unless all three are found. */
  function SelectedPrintData(
    selected: Option<Reserva>, hospedes: seq<Hospede>, quartos: seq<Quarto>, tipos: seq<TipoQuarto>): (r: Option<PrintData>)
    ensures selected.None? ==> r.None?
    ensures selected.Some? && (forall i :: 0 <= i < |hospedes| ==> hospedes[i].idHospede != selected.value.idHospede) ==> r.None?
    ensures selected.Some? && (forall i :: 0 <= i < |quartos| ==> quartos[i].idQuarto != selected.value.idQuarto) ==> r.None?
    ensures r.Some? ==>
      && selected == Some(r.value.reserva)
      && r.value.hospede in hospedes && r.value.hospede.idHospede == r.value.reserva.idHospede
      && r.value.quarto in quartos && r.value.quarto.idQuarto == r.value.reserva.idQuarto
      && r.value.tipoQuarto in tipos && r.value.tipoQuarto.idTipoQuarto == r.value.quarto.idTipoQuarto
    ensures r.None? && selected.Some? && FindQuarto(quartos, selected.value.idQuarto).Some? && FindHospede(hospedes, selected.value.idHospede).Some? ==>
      forall i :: 0 <= i < |tipos| ==> tipos[i].idTipoQuarto != FindQuarto(quartos, selected.value.idQuarto).value.idTipoQuarto
    ensures r.Some? ==>
      && FindHospede(hospedes, r.value.reserva.idHospede) == Some(r.value.hospede)
      && FindQuarto(quartos, r.value.reserva.idQuarto) == Some(r.value.quarto)
      && FindTipoQuarto(tipos, r.value.quarto.idTipoQuarto) == Some(r.value.tipoQuarto)
    ensures
      (&& selected.Some? && FindHospede(hospedes, selected.value.idHospede).Some?
       && FindQuarto(quartos, selected.value.idQuarto).Some?
       && FindTipoQuarto(tipos, FindQuarto(quartos, selected.value.idQuarto).value.idTipoQuarto).Some?)
      ==> r.Some?
  {
    if selected.None? then None
    else
      var reserva := selected.value;
      match (FindHospede(hospedes, reserva.idHospede), FindQuarto(quartos, reserva.idQuarto))
      case (Some(hospede), Some(quarto)) =>
        (match FindTipoQuarto(tipos, quarto.idTipoQuarto)
         case Some(tipoQuarto) => Some(PrintData(reserva, hospede, quarto, tipoQuarto))
         case None => None)
      case _ => None
  }

  /** The page's state: the reservation list, the selection, and the modal flags. */
  class ReservasPage {
    var reservas: seq<Reserva>
    var isFormModalOpen: bool
    var isDeleteModalOpen: bool
    var isCancelModalOpen: bool
    var isPrintModalOpen: bool
    var selectedReserva: Option<Reserva>
    var reservaIdToAction: Option<int>

    /** Reservation ids stay distinct. */
    predicate Valid()
      reads this
    {
      Distinct(ReservaIds(reservas))
    }

    constructor (reservas0: seq<Reserva>)
      requires Distinct(ReservaIds(reservas0))
      ensures Valid()
      ensures reservas == reservas0
      ensures !isFormModalOpen && !isDeleteModalOpen && !isCancelModalOpen && !isPrintModalOpen
      ensures selectedReserva.None? && reservaIdToAction.None?
    {
      reservas := reservas0;
      isFormModalOpen, isDeleteModalOpen, isCancelModalOpen, isPrintModalOpen := false, false, false, false;
      selectedReserva, reservaIdToAction := None, None;
    }

    /** `handleOpenForm`: select the reservation to edit, or none for a new one. */
    method HandleOpenForm(reserva: Option<Reserva>)
      modifies this
      ensures selectedReserva == reserva && isFormModalOpen
      ensures reservas == old(reservas) && reservaIdToAction == old(reservaIdToAction)
      ensures isDeleteModalOpen == old(isDeleteModalOpen) && isCancelModalOpen == old(isCancelModalOpen)
      ensures isPrintModalOpen == old(isPrintModalOpen)
    {
      selectedReserva := reserva;
      isFormModalOpen := true;
    }

    /** `handleSaveReserva`: edit the selected reservation, or append a new one; then close the
        form. The new reservation gets the corrected id `max(ids, 0) + 1`: the source writes
        `Math.max(...ids) + 1`, which is -Infinity for an empty list (see `Ids.EmptyListGetsNoId`). */
    method HandleSaveReserva(data: ReservaPatch)
      requires Valid()
      requires selectedReserva.None? ==> data.IsComplete()
      modifies this
      ensures Valid()
      ensures old(selectedReserva).Some? ==>
        reservas == UpdateReserva(old(reservas), old(selectedReserva).value.idReserva, data)
      ensures old(selectedReserva).None? ==>
        reservas == old(reservas) + [NewReserva(NextId(ReservaIds(old(reservas))), data)]
      ensures !isFormModalOpen && selectedReserva.None?
      ensures reservaIdToAction == old(reservaIdToAction) && isDeleteModalOpen == old(isDeleteModalOpen)
      ensures isCancelModalOpen == old(isCancelModalOpen) && isPrintModalOpen == old(isPrintModalOpen)
    {
      if selectedReserva.Some? {
        reservas := UpdateReserva(reservas, selectedReserva.value.idReserva, data);
      } else {
        var novo := NewReserva(NextId(ReservaIds(reservas)), data);
        assert ReservaIds(reservas + [novo]) == ReservaIds(reservas) + [novo.idReserva];
        reservas := reservas + [novo];
      }
      isFormModalOpen := false;
      selectedReserva := None;
    }

    /** `handleDelete`: remember the id and ask for confirmation. */
    method HandleDelete(id: int)
      modifies this
      ensures reservaIdToAction == Some(id) && isDeleteModalOpen
      ensures reservas == old(reservas) && selectedReserva == old(selectedReserva)
      ensures isFormModalOpen == old(isFormModalOpen) && isCancelModalOpen == old(isCancelModalOpen)
      ensures isPrintModalOpen == old(isPrintModalOpen)
    {
      reservaIdToAction := Some(id);
      isDeleteModalOpen := true;
    }

    /** `confirmDelete`: remove the remembered id (nothing when it is unset or 0), then close
        the dialog and forget the id. */
    method ConfirmDelete()
      requires Valid()
      modifies this
      ensures Valid()
      ensures Actionable(old(reservaIdToAction)) ==> reservas == RemoveReserva(old(reservas), old(reservaIdToAction).value)
      ensures !Actionable(old(reservaIdToAction)) ==> reservas == old(reservas)
      ensures !isDeleteModalOpen && reservaIdToAction.None?
      ensures selectedReserva == old(selectedReserva) && isFormModalOpen == old(isFormModalOpen)
      ensures isCancelModalOpen == old(isCancelModalOpen) && isPrintModalOpen == old(isPrintModalOpen)
    {
      if Actionable(reservaIdToAction) {
        RemovePreservesDistinct(reservas, reservaIdToAction.value);
        reservas := RemoveReserva(reservas, reservaIdToAction.value);
      }
      isDeleteModalOpen := false;
      reservaIdToAction := None;
    }

    /** `handleCancel`: remember the id and ask for confirmation. */
    method HandleCancel(id: int)
      modifies this
      ensures reservaIdToAction == Some(id) && isCancelModalOpen
      ensures reservas == old(reservas) && selectedReserva == old(selectedReserva)
      ensures isFormModalOpen == old(isFormModalOpen) && isDeleteModalOpen == old(isDeleteModalOpen)
      ensures isPrintModalOpen == old(isPrintModalOpen)
    {
      reservaIdToAction := Some(id);
      isCancelModalOpen := true;
    }

    /** `updateReservaStatus` */
    method UpdateReservaStatus(id: int, status: ReservationStatus)
      requires Valid()
      modifies this
      ensures Valid()
      ensures reservas == SetStatus(old(reservas), id, status)
      ensures selectedReserva == old(selectedReserva) && reservaIdToAction == old(reservaIdToAction)
      ensures isFormModalOpen == old(isFormModalOpen) && isDeleteModalOpen == old(isDeleteModalOpen)
      ensures isCancelModalOpen == old(isCancelModalOpen) && isPrintModalOpen == old(isPrintModalOpen)
    {
      reservas := SetStatus(reservas, id, status);
    }

    /** `confirmCancel`: mark the remembered reservation Cancelada (nothing when the id is
        unset or 0), then close the dialog and forget the id. */
    method ConfirmCancel()
      requires Valid()
      modifies this
      ensures Valid()
      ensures Actionable(old(reservaIdToAction)) ==> reservas == SetStatus(old(reservas), old(reservaIdToAction).value, Cancelada)
      ensures !Actionable(old(reservaIdToAction)) ==> reservas == old(reservas)
      ensures !isCancelModalOpen && reservaIdToAction.None?
      ensures selectedReserva == old(selectedReserva) && isFormModalOpen == old(isFormModalOpen)
      ensures isDeleteModalOpen == old(isDeleteModalOpen) && isPrintModalOpen == old(isPrintModalOpen)
    {
      if Actionable(reservaIdToAction) {
        UpdateReservaStatus(reservaIdToAction.value, Cancelada);
      }
      isCancelModalOpen := false;
      reservaIdToAction := None;
    }

    /** `handlePrint`: select the reservation and open the print dialog. */
    method HandlePrint(reserva: Reserva)
      modifies this
      ensures selectedReserva == Some(reserva) && isPrintModalOpen
      ensures reservas == old(reservas) && reservaIdToAction == old(reservaIdToAction)
      ensures isFormModalOpen == old(isFormModalOpen) && isDeleteModalOpen == old(isDeleteModalOpen)
      ensures isCancelModalOpen == old(isCancelModalOpen)
    {
      selectedReserva := Some(reserva);
      isPrintModalOpen := true;
    }
  }

  /** The ids after the first record are distinct and differ from the first one's. */
  lemma DistinctIdsTail(rs: seq<Reserva>)
    requires rs != [] && Distinct(ReservaIds(rs))
    ensures Distinct(ReservaIds(rs[1..]))
    ensures forall x :: x in rs[1..] ==> x.idReserva != rs[0].idReserva
  {
    var ids, rest := ReservaIds(rs), ReservaIds(rs[1..]);
    forall i, j | 0 <= i < j < |rest| ensures rest[i] != rest[j] {
      assert rest[i] == ids[i + 1] && rest[j] == ids[j + 1];
    }
    forall x | x in rs[1..] ensures x.idReserva != rs[0].idReserva {
      var k :| 0 <= k < |rs| - 1 && rs[1..][k] == x;
      assert ids[k + 1] == x.idReserva;
    }
  }

  /** A record whose id no later record has keeps the ids distinct in front of them. */
  lemma DistinctIdsCons(r: Reserva, tail: seq<Reserva>)
    requires Distinct(ReservaIds(tail))
    requires forall x :: x in tail ==> x.idReserva != r.idReserva
    ensures Distinct(ReservaIds([r] + tail))
  {
    var it, ir := ReservaIds(tail), ReservaIds([r] + tail);
    forall i, j | 0 <= i < j < |ir| ensures ir[i] != ir[j] {
      assert ([r] + tail)[j] == tail[j - 1];
      if i == 0 {
        assert tail[j - 1] in tail;
      } else {
        assert ([r] + tail)[i] == tail[i - 1];
        assert it[i - 1] != it[j - 1];
      }
    }
  }

  /** Removing records keeps the remaining ids distinct. */
  lemma {:induction false} RemovePreservesDistinct(rs: seq<Reserva>, idReserva: int)
    requires Distinct(ReservaIds(rs))
    ensures Distinct(ReservaIds(RemoveReserva(rs, idReserva)))
  {
    if rs != [] {
      DistinctIdsTail(rs);
      RemovePreservesDistinct(rs[1..], idReserva);
      var tail := RemoveReserva(rs[1..], idReserva);
      if rs[0].idReserva != idReserva {
        assert RemoveReserva(rs, idReserva) == [rs[0]] + tail;
        DistinctIdsCons(rs[0], tail);
      } else {
        assert RemoveReserva(rs, idReserva) == tail;
      }
    }
  }

}
