/**
 * `Conta` and `ContaCorrente`: opening an account, withdrawing and depositing.
 * The account operations change only the balance; logging a successful
 * operation is the transaction's job (see `Transacoes`).
 */
module Contas {
  import opened Tipos
  import opened Historico

  /**
   * The invariant every account keeps: the balance is never negative and is
   * exactly what the log accounts for, every logged amount is positive, and
   * a `ContaCorrente` has never logged more withdrawals than its policy allows.
   */
  predicate Valida(c: Conta)
  {
    && c.saldo >= 0.0
    && c.saldo == SaldoDe(c.historico)
    && (forall i :: 0 <= i < |c.historico| ==> c.historico[i].valor > 0.0)
    && (c.politica.Some? ==>
          NumeroSaques(c.historico) == 0 || NumeroSaques(c.historico) <= c.politica.value.limiteSaques)
  }

  /** `Conta(numero, cliente)`: a plain account, empty and with nothing logged. */
  function NovaConta(numero: int, titular: string): (c: Conta)
    ensures Valida(c)
    ensures c.saldo == 0.0 && |c.historico| == 0 && c.politica.None?
    ensures c.numero == numero && c.titular == titular && c.agencia == AgenciaPadrao
  {
    Conta(numero, AgenciaPadrao, titular, 0.0, [], None)
  }

  /** `ContaCorrente(numero, cliente, limite, limite_saques)`: a plain account carrying policy `p`. */
  function NovaContaCorrente(numero: int, titular: string, p: Politica): (c: Conta)
    ensures Valida(c)
    ensures c.saldo == 0.0 && |c.historico| == 0 && c.politica == Some(p)
    ensures c.numero == numero && c.titular == titular && c.agencia == AgenciaPadrao
  {
    NovaConta(numero, titular).(politica := Some(p))
  }

  /** `Conta.sacar`: succeeds exactly for a positive amount the balance covers, and then only the balance drops. */
  function SacarBase(c: Conta, valor: real): (r: Resultado)
    ensures r.sucesso <==> 0.0 < valor <= c.saldo
    ensures r.sucesso ==> r.conta == c.(saldo := c.saldo - valor) && r.conta.saldo >= 0.0
    ensures !r.sucesso ==> r.conta == c
  {
    if valor > c.saldo then Resultado(c, false)
    else if valor <= 0.0 then Resultado(c, false)
    else Resultado(c.(saldo := c.saldo - valor), true)
  }

  /**
   * `ContaCorrente.sacar` under policy `p`: refused above the ceiling and once
   * the log holds `p.limiteSaques` withdrawals (the count is never reset),
   * whatever the balance; otherwise the plain rule decides.
   */
  function SacarCorrente(c: Conta, p: Politica, valor: real): (r: Resultado)
    ensures r.sucesso <==>
              valor <= p.limite && NumeroSaques(c.historico) < p.limiteSaques && 0.0 < valor <= c.saldo
    ensures r.sucesso ==> r.conta == c.(saldo := c.saldo - valor)
    ensures !r.sucesso ==> r.conta == c
  {
    var numeroSaques := NumeroSaques(c.historico);
    var excedeuLimite := valor > p.limite;
    var excedeuSaques := numeroSaques >= p.limiteSaques;
    if excedeuLimite then Resultado(c, false)
    else if excedeuSaques then Resultado(c, false)
    else SacarBase(c, valor)
  }

  /** When a withdrawal of `valor` from `c` is allowed, stated without reference to the order of the checks. */
  predicate PodeSacar(c: Conta, valor: real)
  {
    && 0.0 < valor <= c.saldo
    && (c.politica.Some? ==>
          valor <= c.politica.value.limite && NumeroSaques(c.historico) < c.politica.value.limiteSaques)
  }

  /** `sacar` as dispatched on the account's class: the policy applies exactly when there is one. */
  function Sacar(c: Conta, valor: real): (r: Resultado)
    ensures r.sucesso <==> PodeSacar(c, valor)
    ensures r.sucesso ==> r.conta == c.(saldo := c.saldo - valor)
    ensures !r.sucesso ==> r.conta == c
  {
    match c.politica
    case None => SacarBase(c, valor)
    case Some(p) => SacarCorrente(c, p, valor)
  }

  /** `Conta.depositar`: succeeds exactly for a positive amount, and then only the balance rises. */
  function Depositar(c: Conta, valor: real): (r: Resultado)
    ensures r.sucesso <==> valor > 0.0
    ensures r.sucesso ==> r.conta == c.(saldo := c.saldo + valor)
    ensures !r.sucesso ==> r.conta == c
  {
    if valor <= 0.0 then Resultado(c, false)
    else Resultado(c.(saldo := c.saldo + valor), true)
  }
}
