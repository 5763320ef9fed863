/** Account balances (utils/finance.ts): an account's balance is its opening balance plus
    its receipts minus every other entry booked on it. */
module Finance {
  import opened Seqs
  import opened Types

  /** A receipt adds its value; an expense or a transfer subtracts it. */
  function SignedValor(l: Lancamento): real {
    if l.tipo == Receita then l.valor else -l.valor
  }

  /** `l => l.id_conta === conta.id_conta`: an entry without an account matches none. */
  function OnAccount(idConta: int): Lancamento -> bool {
    (l: Lancamento) => l.idConta == Some(idConta)
  }

  /** The `reduce`: the sum of the signed values. */
  function SumSigned(ls: seq<Lancamento>): real {
    if ls == [] then 0.0 else SignedValor(ls[0]) + SumSigned(ls[1..])
  }

  /** What one entry does to the account `idConta`. */
  function Contribution(l: Lancamento, idConta: int): real {
    if l.idConta == Some(idConta) then SignedValor(l) else 0.0
  }

  /** The net effect of a ledger on one account, entry by entry: the reference that the
      filter-then-reduce of the source is proved equal to. */
  function AccountEffect(ls: seq<Lancamento>, idConta: int): real {
    if ls == [] then 0.0 else Contribution(ls[0], idConta) + AccountEffect(ls[1..], idConta)
  }

  lemma {:induction false} FilteredSumIsEffect(ls: seq<Lancamento>, idConta: int)
    ensures SumSigned(Filter(ls, OnAccount(idConta))) == AccountEffect(ls, idConta)
  {
    if ls != [] {
      FilteredSumIsEffect(ls[1..], idConta);
      if ls[0].idConta == Some(idConta) {
        var rest := Filter(ls[1..], OnAccount(idConta));
        assert Filter(ls, OnAccount(idConta)) == [ls[0]] + rest;
        assert ([ls[0]] + rest)[1..] == rest;
      }
    }
  }

  /** `calculateAccountBalance`: the opening balance plus the net of the account's entries. */
  function CalculateAccountBalance(conta: ContaBancaria, lancamentos: seq<Lancamento>): (saldo: real)
    ensures saldo == conta.saldoInicial + AccountEffect(lancamentos, conta.idConta)
  {
    FilteredSumIsEffect(lancamentos, conta.idConta);
    conta.saldoInicial + SumSigned(Filter(lancamentos, OnAccount(conta.idConta)))
  }

  lemma {:induction false} EffectOfUnrelatedLedger(ls: seq<Lancamento>, idConta: int)
    requires forall i :: 0 <= i < |ls| ==> ls[i].idConta != Some(idConta)
    ensures AccountEffect(ls, idConta) == 0.0
  {
    if ls != [] {
      EffectOfUnrelatedLedger(ls[1..], idConta);
    }
  }

  /** With no entry on the account, the balance is the opening balance. */
  lemma BalanceWithoutEntries(conta: ContaBancaria, lancamentos: seq<Lancamento>)
    requires forall i :: 0 <= i < |lancamentos| ==> lancamentos[i].idConta != Some(conta.idConta)
    ensures CalculateAccountBalance(conta, lancamentos) == conta.saldoInicial
  {
    EffectOfUnrelatedLedger(lancamentos, conta.idConta);
  }

  lemma {:induction false} EffectAppend(a: seq<Lancamento>, b: seq<Lancamento>, idConta: int)
    ensures AccountEffect(a + b, idConta) == AccountEffect(a, idConta) + AccountEffect(b, idConta)
  {
    if a == [] {
      assert a + b == b;
    } else {
      assert (a + b)[1..] == a[1..] + b;
      EffectAppend(a[1..], b, idConta);
    }
  }

  /** Appending entries changes the balance by exactly their net effect on the account. */
  lemma BalanceAppend(conta: ContaBancaria, lancamentos: seq<Lancamento>, novos: seq<Lancamento>)
    ensures CalculateAccountBalance(conta, lancamentos + novos)
         == CalculateAccountBalance(conta, lancamentos) + AccountEffect(novos, conta.idConta)
  {
    EffectAppend(lancamentos, novos, conta.idConta);
  }

  /** An entry booked on another account (or on none) leaves the balance unchanged. */
  lemma OtherAccountEntryIgnored(conta: ContaBancaria, lancamentos: seq<Lancamento>, l: Lancamento)
    requires l.idConta != Some(conta.idConta)
    ensures CalculateAccountBalance(conta, lancamentos + [l]) == CalculateAccountBalance(conta, lancamentos)
  {
    BalanceAppend(conta, lancamentos, [l]);
    assert [l][1..] == [];
  }

  lemma {:induction false} EffectRemove(ls: seq<Lancamento>, i: int, idConta: int)
    requires 0 <= i < |ls|
    ensures AccountEffect(ls, idConta) == Contribution(ls[i], idConta) + AccountEffect(ls[..i] + ls[i + 1..], idConta)
  {
    if i == 0 {
      assert ls[..0] + ls[1..] == ls[1..];
    } else {
      EffectRemove(ls[1..], i - 1, idConta);
      assert ls[1..][..i - 1] + ls[1..][i..] == (ls[..i] + ls[i + 1..])[1..];
      assert (ls[..i] + ls[i + 1..])[0] == ls[0];
    }
  }

  /** The effect does not depend on the order of the entries. */
  lemma {:induction false} EffectPermutation(a: seq<Lancamento>, b: seq<Lancamento>, idConta: int)
    requires multiset(a) == multiset(b)
    ensures AccountEffect(a, idConta) == AccountEffect(b, idConta)
    decreases |a|
  {
    if a == [] {
      assert |b| == |multiset(b)| == 0;
    } else {
      var x := a[0];
      assert x in multiset(b);
      var i :| 0 <= i < |b| && b[i] == x;
      var rest := b[..i] + b[i + 1..];
      var tail := a[1..];
      assert a == [x] + tail;
      assert multiset(a) == multiset(tail) + multiset{x};
      MultisetRemoveAt(b, i);
      MultisetCancel(multiset(tail), multiset(rest), x);
      EffectPermutation(tail, rest, idConta);
      EffectRemove(b, i, idConta);
      assert AccountEffect(a, idConta) == Contribution(x, idConta) + AccountEffect(tail, idConta);
    }
  }


  /** The balance does not depend on the order of the entries: it is a plain sum. */
  lemma BalanceOrderIndependent(conta: ContaBancaria, a: seq<Lancamento>, b: seq<Lancamento>)
    requires multiset(a) == multiset(b)
    ensures CalculateAccountBalance(conta, a) == CalculateAccountBalance(conta, b)
  {
    EffectPermutation(a, b, conta.idConta);
  }
}
