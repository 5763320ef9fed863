/** The receivables list (components/financeiro/ContasReceberPage.tsx): the reservations
    that still owe more than one cent and are not cancelled, each shown with what it owes. */
module ContasReceber {
  import opened Seqs
  import opened Types
  import opened VisaoGeral

  /** Owes more than 0.01 and is not Cancelada; a reservation with no status passes. */
  predicate Receivable(r: Reserva) {
    Outstanding(r) > 0.01 && r.statusReserva != Some(Cancelada)
  }

  function ReceivableFilter(): Reserva -> bool {
    (r: Reserva) => Receivable(r)
  }

  /** `contasAReceber`: exactly the receivable reservations, in their order. */
  function ContasAReceber(rs: seq<Reserva>): (r: seq<Reserva>)
    ensures forall x :: x in r ==> Receivable(x) && x in rs
    ensures forall x :: x in rs && Receivable(x) ==> x in r
    ensures SubseqOf(r, rs)
    ensures |r| <= |rs|
    ensures forall x :: x in rs ==> multiset(r)[x] == if Receivable(x) then multiset(rs)[x] else 0
  {
    FilterMultiplicity(rs, ReceivableFilter());
    Filter(rs, ReceivableFilter())
  }

  /** The "Valor Pendente" column. */
  function ValorPendente(r: Reserva): (v: real)
    ensures v + Paid(r) == r.valorTotal
    ensures r.valorPago.None? ==> v == r.valorTotal
    ensures r.valorPago.Some? ==> v == r.valorTotal - r.valorPago.value
  {
    Outstanding(r)
  }

  /** Every listed row's pending amount exceeds one cent, and a fully paid or overpaid
      reservation is never listed. */
  lemma ListedRowsOwe(rs: seq<Reserva>)
    ensures forall i :: 0 <= i < |ContasAReceber(rs)| ==> ValorPendente(ContasAReceber(rs)[i]) > 0.01
    ensures forall i :: 0 <= i < |ContasAReceber(rs)| ==> Paid(ContasAReceber(rs)[i]) < ContasAReceber(rs)[i].valorTotal
  {
    var listed := ContasAReceber(rs);
    forall i | 0 <= i < |listed| ensures Receivable(listed[i]) {
      assert listed[i] in listed;
    }
  }

  /** Nothing is listed when every reservation is settled or cancelled. */
  lemma NothingOwedNothingListed(rs: seq<Reserva>)
    requires forall i :: 0 <= i < |rs| ==> Paid(rs[i]) >= rs[i].valorTotal || rs[i].statusReserva == Some(Cancelada)
    ensures ContasAReceber(rs) == []
  {
    FilterNone(rs, ReceivableFilter());
  }

  /** The two pages disagree on a reservation without a status: the list shows it when it
      owes, but the overview's amount to receive leaves it out. */
  lemma StatuslessListedButNotCounted(r: Reserva)
    requires r.statusReserva.None? && Outstanding(r) > 0.01
    ensures ContasAReceber([r]) == [r]
    ensures AReceber([r]) == 0.0
  {
    assert [r][..0] == [];
  }
}
