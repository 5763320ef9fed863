/** The financial overview (components/financeiro/VisaoGeralFinanceiro.tsx): this month's
    receipts, expenses and balance from the billing records, and the amount still to be
    received on reservations. The current month and year are parameters in place of the
    clock. */
module VisaoGeral {
  import opened Seqs
  import opened Types

  datatype TipoFaturamento = FatReceita | FatDespesa

  /** A billing record, with its date already read as a local (year, month) pair; the month
      counts from 0 as `getMonth` does. */
  datatype Faturamento = Faturamento(id: int, year: int, month: int, descricao: string, valor: real, tipo: TipoFaturamento)

  /** One step of the month `reduce`: the record's value is added when it is of the wanted
      kind and dated in the wanted month and year. */
  function MonthStep(acc: real, f: Faturamento, tipo: TipoFaturamento, month: int, year: int): real {
    if Matches(f, tipo, month, year) then acc + f.valor else acc
  }

  /** The record is of the wanted kind and dated in the wanted month and year. */
  predicate Matches(f: Faturamento, tipo: TipoFaturamento, month: int, year: int) {
    f.tipo == tipo && f.month == month && f.year == year
  }

  /** The `reduce` from 0, left to right. */
  function MonthTotal(fats: seq<Faturamento>, tipo: TipoFaturamento, month: int, year: int): real {
    if fats == [] then 0.0
    else MonthStep(MonthTotal(fats[..|fats| - 1], tipo, month, year), fats[|fats| - 1], tipo, month, year)
  }

  function ReceitasMes(fats: seq<Faturamento>, month: int, year: int): real {
    MonthTotal(fats, FatReceita, month, year)
  }

  function DespesasMes(fats: seq<Faturamento>, month: int, year: int): real {
    MonthTotal(fats, FatDespesa, month, year)
  }

  function SaldoMes(fats: seq<Faturamento>, month: int, year: int): real {
    ReceitasMes(fats, month, year) - DespesasMes(fats, month, year)
  }

  /** The records a month total counts. */
  function InMonth(tipo: TipoFaturamento, month: int, year: int): Faturamento -> bool {
    (f: Faturamento) => Matches(f, tipo, month, year)
  }

  function SumValor(fats: seq<Faturamento>): real {
    if fats == [] then 0.0 else fats[0].valor + SumValor(fats[1..])
  }

  lemma {:induction false} SumValorAppend(a: seq<Faturamento>, b: seq<Faturamento>)
    ensures SumValor(a + b) == SumValor(a) + SumValor(b)
  {
    if a == [] {
      assert a + b == b;
    } else {
      assert (a + b)[1..] == a[1..] + b;
      SumValorAppend(a[1..], b);
    }
  }

  /** A month total is the plain sum of the values of the records of that kind, month and
      year: every other record contributes nothing. */
  lemma {:induction false} MonthTotalIsFilteredSum(fats: seq<Faturamento>, tipo: TipoFaturamento, month: int, year: int)
    ensures MonthTotal(fats, tipo, month, year) == SumValor(Filter(fats, InMonth(tipo, month, year)))
  {
    if fats != [] {
      var init := fats[..|fats| - 1];
      var last := fats[|fats| - 1];
      var p := InMonth(tipo, month, year);
      var kept := Filter(init, p);
      assert fats == init + [last];
      assert MonthTotal(fats, tipo, month, year) == MonthStep(MonthTotal(init, tipo, month, year), last, tipo, month, year);
      MonthTotalIsFilteredSum(init, tipo, month, year);
      FilterAppend(init, [last], p);
      FilterSingleton(last, p);
      if Matches(last, tipo, month, year) {
        assert Filter(fats, p) == kept + [last];
        SumValorAppend(kept, [last]);
        assert SumValor([last]) == last.valor by { assert [last][1..] == []; }
      } else {
        assert Filter(fats, p) == kept + [];
        assert kept + [] == kept;
      }
    }
  }

  /** A record of another kind or another month leaves a month total unchanged. */
  lemma OtherRecordIgnored(fats: seq<Faturamento>, f: Faturamento, tipo: TipoFaturamento, month: int, year: int)
    requires f.tipo != tipo || f.month != month || f.year != year
    ensures MonthTotal(fats + [f], tipo, month, year) == MonthTotal(fats, tipo, month, year)
  {
    assert (fats + [f])[..|fats + [f]| - 1] == fats;
  }

  /** The month's balance is the sum of this month's receipts minus the sum of this month's
      expenses, record by record. */
  lemma SaldoMesIsNet(fats: seq<Faturamento>, month: int, year: int)
    ensures SaldoMes(fats, month, year)
         == SumValor(Filter(fats, InMonth(FatReceita, month, year))) - SumValor(Filter(fats, InMonth(FatDespesa, month, year)))
  {
    MonthTotalIsFilteredSum(fats, FatReceita, month, year);
    MonthTotalIsFilteredSum(fats, FatDespesa, month, year);
  }

  /** `aReceber` counts a reservation only when it has a status and that status is not
      Cancelada. */
  predicate Counted(r: Reserva) {
    r.statusReserva.Some? && r.statusReserva != Some(Cancelada)
  }

  /** The `aReceber` reduce, left to right. */
  function AReceber(rs: seq<Reserva>): real {
    if rs == [] then 0.0
    else
      var acc := AReceber(rs[..|rs| - 1]);
      var r := rs[|rs| - 1];
      if !Counted(r) then acc else acc + Outstanding(r)
  }

  function CountedFilter(): Reserva -> bool {
    (r: Reserva) => Counted(r)
  }

  function SumOutstanding(rs: seq<Reserva>): real {
    if rs == [] then 0.0 else Outstanding(rs[0]) + SumOutstanding(rs[1..])
  }

  lemma {:induction false} SumOutstandingAppend(a: seq<Reserva>, b: seq<Reserva>)
    ensures SumOutstanding(a + b) == SumOutstanding(a) + SumOutstanding(b)
  {
    if a == [] {
      assert a + b == b;
    } else {
      assert (a + b)[1..] == a[1..] + b;
      SumOutstandingAppend(a[1..], b);
    }
  }

  /** The amount to receive is the sum of total minus paid over the counted reservations. */
  lemma {:induction false} AReceberIsFilteredSum(rs: seq<Reserva>)
    ensures AReceber(rs) == SumOutstanding(Filter(rs, CountedFilter()))
  {
    if rs != [] {
      var init := rs[..|rs| - 1];
      var last := rs[|rs| - 1];
      var p := CountedFilter();
      assert rs == init + [last];
      AReceberIsFilteredSum(init);
      FilterAppend(init, [last], p);
      FilterSingleton(last, p);
      SumOutstandingAppend(Filter(init, p), Filter([last], p));
      assert SumOutstanding([last]) == Outstanding(last) by { assert [last][1..] == []; }
    }
  }

  /** An overpaid counted reservation lowers the amount to receive. */
  lemma OverpaidLowersAReceber(rs: seq<Reserva>, r: Reserva)
    requires Counted(r) && Paid(r) > r.valorTotal
    ensures AReceber(rs + [r]) < AReceber(rs)
  {
    assert (rs + [r])[..|rs + [r]| - 1] == rs;
  }

  /** A reservation with no status adds nothing, whatever it still owes. */
  lemma StatuslessNotCounted(rs: seq<Reserva>, r: Reserva)
    requires r.statusReserva.None?
    ensures AReceber(rs + [r]) == AReceber(rs)
  {
    assert (rs + [r])[..|rs + [r]| - 1] == rs;
  }
}
