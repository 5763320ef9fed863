/** The bank-accounts page (components/financeiro/ContasBancariasPage.tsx): it holds the
    accounts and the ledger, adds or edits an account, and books a transfer between two
    accounts as a matched expense/receipt pair. */
module ContasBancarias {
  import opened Seqs
  import opened Types
  import opened Ids
  import opened Finance

  const TransferCategory: string := "Transferência"

  /** The account form's data (`Partial<ContaBancaria>` without the id): a present field
      overrides the record's, an absent one keeps it. */
  datatype ContaPatch = ContaPatch(
    nomeConta: Option<string>,
    agencia: Option<string>,
    numeroConta: Option<string>,
    saldoInicial: Option<real>)
  {
    /** Every field present, as the account form always sends them. */
    predicate IsComplete() {
      nomeConta.Some? && agencia.Some? && numeroConta.Some? && saldoInicial.Some?
    }
  }

  /** `{...c, ...data}` */
  function MergeConta(c: ContaBancaria, data: ContaPatch): ContaBancaria {
    ContaBancaria(
      c.idConta,
      data.nomeConta.GetOr(c.nomeConta),
      data.agencia.GetOr(c.agencia),
      data.numeroConta.GetOr(c.numeroConta),
      data.saldoInicial.GetOr(c.saldoInicial))
  }

  /** `{id_conta: id, ...data}` */
  function NewConta(id: int, data: ContaPatch): ContaBancaria
    requires data.IsComplete()
  {
    ContaBancaria(id, data.nomeConta.value, data.agencia.value, data.numeroConta.value, data.saldoInicial.value)
  }

  function AccountIds(contas: seq<ContaBancaria>): (ids: seq<int>)
    ensures |ids| == |contas| && forall i :: 0 <= i < |contas| ==> ids[i] == contas[i].idConta
  {
    if contas == [] then [] else [contas[0].idConta] + AccountIds(contas[1..])
  }

  function EntryIds(lancamentos: seq<Lancamento>): (ids: seq<int>)
    ensures |ids| == |lancamentos| && forall i :: 0 <= i < |lancamentos| ==> ids[i] == lancamentos[i].idLancamento
  {
    if lancamentos == [] then [] else [lancamentos[0].idLancamento] + EntryIds(lancamentos[1..])
  }

  /** The edit branch of `handleSave`: the account with the selected id is merged with the
      form data, every other account stays as it was, and no id changes. */
  function UpdateConta(contas: seq<ContaBancaria>, idConta: int, data: ContaPatch): (r: seq<ContaBancaria>)
    ensures |r| == |contas|
    ensures AccountIds(r) == AccountIds(contas)
    ensures forall i :: 0 <= i < |contas| && contas[i].idConta != idConta ==> r[i] == contas[i]
    ensures forall i :: 0 <= i < |contas| && contas[i].idConta == idConta ==> r[i] == MergeConta(contas[i], data)
  {
    if contas == [] then []
    else [if contas[0].idConta == idConta then MergeConta(contas[0], data) else contas[0]]
         + UpdateConta(contas[1..], idConta, data)
  }

  /** `contas.find(c => c.id_conta === id)?.nome_conta` inside a template literal: the
      account's name, or the text "undefined" when there is no such account. */
  function AccountName(contas: seq<ContaBancaria>, idConta: int): (name: string)
    ensures (forall i :: 0 <= i < |contas| ==> contas[i].idConta != idConta) ==> name == "undefined"
    ensures forall i :: 0 <= i < |contas| && contas[i].idConta == idConta ==>
      (forall j :: 0 <= j < i ==> contas[j].idConta != idConta) ==> name == contas[i].nomeConta
  {
    match Find(contas, (c: ContaBancaria) => c.idConta == idConta)
    case Some(c) => c.nomeConta
    case None => "undefined"
  }

  /** The two entries `handleTransfer` appends: an expense on the source account, then a
      receipt on the destination, numbered `max(ids, 0) + 1` and the next id. */
  function TransferEntries(
    lancamentos: seq<Lancamento>, contas: seq<ContaBancaria>,
    fromId: int, toId: int, amount: real, description: string, now: string): (pair: seq<Lancamento>)
    ensures |pair| == 2
    ensures forall i :: 0 <= i < |lancamentos| ==> lancamentos[i].idLancamento < pair[0].idLancamento
    ensures pair[0].idLancamento == NextId(EntryIds(lancamentos))
    ensures pair[0].idLancamento >= 1 && pair[1].idLancamento == pair[0].idLancamento + 1
    ensures pair[0].tipo == Despesa && pair[0].idConta == Some(fromId)
    ensures pair[1].tipo == Receita && pair[1].idConta == Some(toId)
    ensures pair[0].valor == amount && pair[1].valor == amount
    ensures pair[0].categoria == TransferCategory && pair[1].categoria == TransferCategory
    ensures pair[0].data == now && pair[1].data == now
    ensures description != "" ==> pair[0].descricao == description && pair[1].descricao == description
    ensures description == "" ==>
      && pair[0].descricao == "Transferência para " + AccountName(contas, toId)
      && pair[1].descricao == "Transferência de " + AccountName(contas, fromId)
  {
    var descFrom := if description != "" then description else "Transferência para " + AccountName(contas, toId);
    var descTo := if description != "" then description else "Transferência de " + AccountName(contas, fromId);
    var newId := NextId(EntryIds(lancamentos));
    [ Lancamento(newId, now, descFrom, amount, Despesa, TransferCategory, Some(fromId)),
      Lancamento(newId + 1, now, descTo, amount, Receita, TransferCategory, Some(toId)) ]
  }

  /** How a transfer changes the balance of the account `idConta`. */
  function TransferDelta(idConta: int, fromId: int, toId: int, amount: real): real {
    (if idConta == fromId then -amount else 0.0) + (if idConta == toId then amount else 0.0)
  }

  /** A transfer moves exactly its amount: the source balance drops by it, the destination
      balance rises by it, and every other account keeps its balance. */
  lemma TransferMovesAmount(
    conta: ContaBancaria, lancamentos: seq<Lancamento>, contas: seq<ContaBancaria>,
    fromId: int, toId: int, amount: real, description: string, now: string)
    ensures CalculateAccountBalance(conta, lancamentos + TransferEntries(lancamentos, contas, fromId, toId, amount, description, now))
         == CalculateAccountBalance(conta, lancamentos) + TransferDelta(conta.idConta, fromId, toId, amount)
  {
    var pair := TransferEntries(lancamentos, contas, fromId, toId, amount, description, now);
    BalanceAppend(conta, lancamentos, pair);
    assert pair[1..] == [pair[1]];
    assert AccountEffect([pair[1]], conta.idConta) == Contribution(pair[1], conta.idConta);
    assert AccountEffect(pair, conta.idConta) == Contribution(pair[0], conta.idConta) + Contribution(pair[1], conta.idConta);
  }

  /** The sum of the balances of a list of accounts. */
  function TotalBalance(contas: seq<ContaBancaria>, lancamentos: seq<Lancamento>): real {
    if contas == [] then 0.0
    else CalculateAccountBalance(contas[0], lancamentos) + TotalBalance(contas[1..], lancamentos)
  }

  /** The sum of the transfer's effect over a list of accounts. */
  function SumDelta(cs: seq<ContaBancaria>, fromId: int, toId: int, amount: real): real {
    if cs == [] then 0.0 else TransferDelta(cs[0].idConta, fromId, toId, amount) + SumDelta(cs[1..], fromId, toId, amount)
  }

  /** Over accounts with distinct ids, the transfer's effects add up to what enters the
      list minus what leaves it. */
  lemma {:induction false} SumDeltaDistinct(cs: seq<ContaBancaria>, fromId: int, toId: int, amount: real)
    requires Distinct(AccountIds(cs))
    ensures SumDelta(cs, fromId, toId, amount)
         == (if toId in AccountIds(cs) then amount else 0.0) - (if fromId in AccountIds(cs) then amount else 0.0)
  {
    if cs != [] {
      var ids := AccountIds(cs);
      var rest := AccountIds(cs[1..]);
      assert ids == [cs[0].idConta] + rest;
      assert Distinct(rest) by {
        forall i, j | 0 <= i < j < |rest| ensures rest[i] != rest[j] {
          assert rest[i] == ids[i + 1] && rest[j] == ids[j + 1];
        }
      }
      assert cs[0].idConta !in rest by {
        forall j | 0 <= j < |rest| ensures rest[j] != cs[0].idConta {
          assert rest[j] == ids[j + 1];
        }
      }
      SumDeltaDistinct(cs[1..], fromId, toId, amount);
    }
  }

  lemma {:induction false} TotalAfterTransfer(
    cs: seq<ContaBancaria>, lancamentos: seq<Lancamento>, contas: seq<ContaBancaria>,
    fromId: int, toId: int, amount: real, description: string, now: string)
    ensures TotalBalance(cs, lancamentos + TransferEntries(lancamentos, contas, fromId, toId, amount, description, now))
         == TotalBalance(cs, lancamentos) + SumDelta(cs, fromId, toId, amount)
  {
    if cs != [] {
      TotalAfterTransfer(cs[1..], lancamentos, contas, fromId, toId, amount, description, now);
      TransferMovesAmount(cs[0], lancamentos, contas, fromId, toId, amount, description, now);
    }
  }

  /** Between two distinct accounts of a list whose ids are distinct, a transfer preserves the
      sum of all balances. */
  lemma TransferConservesTotal(
    contas: seq<ContaBancaria>, lancamentos: seq<Lancamento>,
    fromId: int, toId: int, amount: real, description: string, now: string)
    requires fromId != toId
    requires Distinct(AccountIds(contas)) && fromId in AccountIds(contas) && toId in AccountIds(contas)
    ensures TotalBalance(contas, lancamentos + TransferEntries(lancamentos, contas, fromId, toId, amount, description, now))
         == TotalBalance(contas, lancamentos)
  {
    TotalAfterTransfer(contas, lancamentos, contas, fromId, toId, amount, description, now);
    SumDeltaDistinct(contas, fromId, toId, amount);
  }

  /** The transfer dialog's submit guard: both accounts chosen (a 0 id counts as none), a
      positive amount, and two different accounts. */
  predicate TransferAllowed(fromId: int, toId: int, amount: real) {
    fromId != 0 && toId != 0 && amount > 0.0 && fromId != toId
  }

  /** Both effects of a transfer on the ledger, for every account at once. */
  lemma TransferEffect(
    contas: seq<ContaBancaria>, lancamentos: seq<Lancamento>,
    fromId: int, toId: int, amount: real, description: string, now: string)
    requires Distinct(AccountIds(contas))
    ensures forall c: ContaBancaria ::
      CalculateAccountBalance(c, lancamentos + TransferEntries(lancamentos, contas, fromId, toId, amount, description, now))
      == CalculateAccountBalance(c, lancamentos) + TransferDelta(c.idConta, fromId, toId, amount)
    ensures fromId != toId && fromId in AccountIds(contas) && toId in AccountIds(contas) ==>
      TotalBalance(contas, lancamentos + TransferEntries(lancamentos, contas, fromId, toId, amount, description, now))
      == TotalBalance(contas, lancamentos)
  {
    forall c: ContaBancaria
      ensures CalculateAccountBalance(c, lancamentos + TransferEntries(lancamentos, contas, fromId, toId, amount, description, now))
           == CalculateAccountBalance(c, lancamentos) + TransferDelta(c.idConta, fromId, toId, amount)
    {
      TransferMovesAmount(c, lancamentos, contas, fromId, toId, amount, description, now);
    }
    if fromId != toId && fromId in AccountIds(contas) && toId in AccountIds(contas) {
      TransferConservesTotal(contas, lancamentos, fromId, toId, amount, description, now);
    }
  }

  /** A transfer the dialog lets through, between two listed accounts with distinct ids,
      strictly lowers the source balance, strictly raises the destination balance, and keeps
      the total. */
  lemma AllowedTransfer(
    contas: seq<ContaBancaria>, lancamentos: seq<Lancamento>, from: ContaBancaria, to: ContaBancaria,
    amount: real, description: string, now: string)
    requires TransferAllowed(from.idConta, to.idConta, amount)
    requires Distinct(AccountIds(contas)) && from.idConta in AccountIds(contas) && to.idConta in AccountIds(contas)
    ensures var after := lancamentos + TransferEntries(lancamentos, contas, from.idConta, to.idConta, amount, description, now);
      && CalculateAccountBalance(from, after) < CalculateAccountBalance(from, lancamentos)
      && CalculateAccountBalance(to, after) > CalculateAccountBalance(to, lancamentos)
      && TotalBalance(contas, after) == TotalBalance(contas, lancamentos)
  {
    TransferMovesAmount(from, lancamentos, contas, from.idConta, to.idConta, amount, description, now);
    TransferMovesAmount(to, lancamentos, contas, from.idConta, to.idConta, amount, description, now);
    TransferConservesTotal(contas, lancamentos, from.idConta, to.idConta, amount, description, now);
  }

  /** The page's state: its account list, its ledger, and its modal flags. */
  class ContasBancariasPage {
    var contas: seq<ContaBancaria>
    var lancamentos: seq<Lancamento>
    var isFormOpen: bool
    var isTransferOpen: bool
    var selectedConta: Option<ContaBancaria>

    /** Account ids stay distinct. */
    predicate Valid()
      reads this`contas
    {
      Distinct(AccountIds(contas))
    }

    function Balance(conta: ContaBancaria): real
      reads this`lancamentos
    {
      CalculateAccountBalance(conta, lancamentos)
    }

    constructor (contas0: seq<ContaBancaria>, lancamentos0: seq<Lancamento>)
      requires Distinct(AccountIds(contas0))
      ensures Valid()
      ensures contas == contas0 && lancamentos == lancamentos0
      ensures !isFormOpen && !isTransferOpen && selectedConta.None?
    {
      contas, lancamentos := contas0, lancamentos0;
      isFormOpen, isTransferOpen := false, false;
      selectedConta := None;
    }

    /** The "Nova Conta" button. */
    method OpenNewAccountForm()
      modifies this
      ensures selectedConta.None? && isFormOpen
      ensures contas == old(contas) && lancamentos == old(lancamentos) && isTransferOpen == old(isTransferOpen)
    {
      selectedConta := None;
      isFormOpen := true;
    }

    /** `handleSave`: edits the selected account, or appends a new one, then closes the form.
        The new account gets the corrected id `max(ids, 0) + 1`: the source writes
        `Math.max(...ids) + 1`, which is -Infinity for an empty list (see `Ids.EmptyListGetsNoId`). */
    method HandleSave(data: ContaPatch)
      requires Valid()
      requires selectedConta.None? ==> data.IsComplete()
      modifies this
      ensures Valid()
      ensures old(selectedConta).Some? ==> contas == UpdateConta(old(contas), old(selectedConta).value.idConta, data)
      ensures old(selectedConta).None? ==> contas == old(contas) + [NewConta(NextId(AccountIds(old(contas))), data)]
      ensures lancamentos == old(lancamentos) && selectedConta == old(selectedConta)
      ensures !isFormOpen && isTransferOpen == old(isTransferOpen)
    {
      if selectedConta.Some? {
        contas := UpdateConta(contas, selectedConta.value.idConta, data);
      } else {
        var newConta := NewConta(NextId(AccountIds(contas)), data);
        assert AccountIds(contas + [newConta]) == AccountIds(contas) + [newConta.idConta];
        contas := contas + [newConta];
      }
      isFormOpen := false;
    }

    /** The "Transferir Saldo" button. */
    method OpenTransfer()
      modifies this
      ensures isTransferOpen
      ensures contas == old(contas) && lancamentos == old(lancamentos)
      ensures isFormOpen == old(isFormOpen) && selectedConta == old(selectedConta)
    {
      isTransferOpen := true;
    }

    /** `handleTransfer`: appends the matched pair of entries and closes the dialog. The
        source balance drops by the amount, the destination's rises by it, the others keep
        theirs, and (between two distinct listed accounts) the total is preserved. */
    method HandleTransfer(fromId: int, toId: int, amount: real, description: string, now: string)
      requires Valid()
      modifies this
      ensures Valid()
      ensures lancamentos == old(lancamentos) + TransferEntries(old(lancamentos), old(contas), fromId, toId, amount, description, now)
      ensures contas == old(contas) && isFormOpen == old(isFormOpen) && selectedConta == old(selectedConta)
      ensures !isTransferOpen
      ensures forall c :: Balance(c) == old(Balance(c)) + TransferDelta(c.idConta, fromId, toId, amount)
      ensures fromId != toId && fromId in AccountIds(contas) && toId in AccountIds(contas) ==>
        TotalBalance(contas, lancamentos) == TotalBalance(old(contas), old(lancamentos))
    {
      var pair := TransferEntries(lancamentos, contas, fromId, toId, amount, description, now);
      TransferEffect(contas, lancamentos, fromId, toId, amount, description, now);
      lancamentos := lancamentos + pair;
      isTransferOpen := false;
    }
  }
}
