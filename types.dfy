/** The records of the property-management app, field for field as its type
    declarations give them (types.ts), with the fields the modelled code never reads left out.

    Conventions: a calendar date is an integer day number (days since 1970-01-01), an
    instant is an integer number of milliseconds, an amount is a `real`, text is a
    `string`, and an optional field (`?:` in the source) is an `Option`. Dates that the
    source keeps as ISO strings and only compares as text stay strings. */
module Types {
  import opened Seqs

  datatype Page = Dashboard | Reservas | Hospedes | Quartos | Financeiro | Administracao

  datatype ReservationStatus = Pendente | Confirmada | CheckIn | CheckOut | Cancelada

  datatype Hospede = Hospede(idHospede: int, nome: string, sobrenome: string, email: string)

  /** A room category: its base nightly price drives the pricing engine. */
  datatype TipoQuarto = TipoQuarto(idTipoQuarto: int, nomeTipo: string, capacidadeMaxima: int, precoBase: real)

  datatype Quarto = Quarto(idQuarto: int, numeroQuarto: string, idTipoQuarto: int)

  /** A booking. `valorPago` and `statusReserva` may be absent: the new-reservation form
      sends no status at all. */
  datatype Reserva = Reserva(
    idReserva: int,
    idHospede: int,
    idQuarto: int,
    dataCheckin: string,
    dataCheckout: string,
    numeroHospedes: int,
    valorTotal: real,
    valorPago: Option<real>,
    statusReserva: Option<ReservationStatus>)

  datatype TipoAjuste = Percentual | Fixo

  /** A pricing rule: an inclusive validity window of days, the weekdays it covers
      (0 = Sunday … 6 = Saturday), an adjustment, and an optional room-type scope. */
  datatype RegraPreco = RegraPreco(
    idRegra: int,
    nome: string,
    dataInicio: int,
    dataFim: int,
    diasSemana: seq<int>,
    tipoAjuste: TipoAjuste,
    valorAjuste: real,
    idTipoQuarto: Option<int>)

  datatype TipoLancamento = Receita | Despesa | Transferencia

  /** A ledger entry, booked on the account `idConta` when that is present. */
  datatype Lancamento = Lancamento(
    idLancamento: int,
    data: string,
    descricao: string,
    valor: real,
    tipo: TipoLancamento,
    categoria: string,
    idConta: Option<int>)

  datatype ContaBancaria = ContaBancaria(
    idConta: int,
    nomeConta: string,
    agencia: string,
    numeroConta: string,
    saldoInicial: real)

  datatype UserRole = Admin | Gerente | Recepcionista

  datatype UserStatus = Ativo | Inativo

  datatype User = User(
    id: int,
    username: string,
    role: UserRole,
    name: string,
    email: string,
    senha: Option<string>,
    status: UserStatus)

  /** `valor_pago || 0`: a missing payment counts as nothing paid. */
  function Paid(r: Reserva): real {
    r.valorPago.GetOr(0.0)
  }

  /** `valor_total - (valor_pago || 0)`: what the guest still owes. The receipt, the
      receivables list and the month summary all use this one expression. */
  function Outstanding(r: Reserva): real {
    r.valorTotal - Paid(r)
  }
}
