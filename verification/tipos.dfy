/**
 * The data model of the bank simulator: transactions, accounts with an
 * optional withdrawal policy, and clients.
 *
 * Amounts are exact `real`s where the program uses binary floats.
 */
module Tipos {

  /** The result of a lookup that may find nothing (the program's `None`). */
  datatype Option<+T> = None | Some(value: T)

  /**
   * A transaction (`Saque` or `Deposito`) with its amount. The log records a
   * successful transaction as its kind and amount, so a log entry is a value
   * of this type too; the program tells the kinds apart by class name.
   */
  datatype Transacao = Saque(valor: real) | Deposito(valor: real)

  /** What a `ContaCorrente` adds to a plain `Conta`: a per-withdrawal ceiling
      and a maximum number of withdrawals over the account's lifetime. */
  datatype Politica = Politica(limite: real, limiteSaques: int)

  /** The constructor defaults of `ContaCorrente`: ceiling 500, three withdrawals. */
  const PoliticaPadrao: Politica := Politica(500.0, 3)

  /** Every account is opened in branch "0001". */
  const AgenciaPadrao: string := "0001"

  /**
   * An account. `titular` is the CPF of the owning client (the program keeps
   * a reference to the client object); `politica` is `Some` exactly for a
   * `ContaCorrente`.
   */
  datatype Conta = Conta(
    numero: int,
    agencia: string,
    titular: string,
    saldo: real,
    historico: seq<Transacao>,
    politica: Option<Politica>)

  /** An account operation's outcome: the account afterwards and the boolean the program returns. */
  datatype Resultado = Resultado(conta: Conta, sucesso: bool)

  /** A client (`PessoaFisica`); `contas` holds the numbers of the accounts it owns, in opening order. */
  datatype PessoaFisica = PessoaFisica(
    nome: string,
    dataNascimento: string,
    cpf: string,
    endereco: string,
    contas: seq<int>)
}
