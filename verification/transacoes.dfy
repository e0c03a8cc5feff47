/**
 * `Saque.registrar` / `Deposito.registrar`: run the account operation and log
 * the transaction only when it succeeded; and what a sequence of such calls
 * does to one account.
 */
module Transacoes {
  import opened Tipos
  import opened Historico
  import opened Contas

  /** When the account operation behind `t` succeeds on `c`. */
  predicate Aceita(c: Conta, t: Transacao)
  {
    match t
    case Saque(v) => PodeSacar(c, v)
    case Deposito(v) => v > 0.0
  }

  /**
   * `registrar`: on success the balance moves by the transaction's effect and
   * exactly that transaction is appended to the log; on failure nothing changes.
   * The account's identity and policy never change.
   */
  function Registrar(c: Conta, t: Transacao): (r: Resultado)
    ensures r.sucesso <==> Aceita(c, t)
    ensures r.sucesso ==> r.conta.historico == c.historico + [t] && r.conta.saldo == c.saldo + Efeito(t)
    ensures !r.sucesso ==> r.conta == c
    ensures r.conta.numero == c.numero && r.conta.agencia == c.agencia && r.conta.titular == c.titular
    ensures r.conta.politica == c.politica
  {
    var feito := match t
      case Saque(v) => Sacar(c, v)
      case Deposito(v) => Depositar(c, v);
    if feito.sucesso then
      Resultado(feito.conta.(historico := AdicionarTransacao(feito.conta.historico, t)), true)
    else
      Resultado(feito.conta, false)
  }

  /** `registrar` keeps the account invariant. */
  lemma RegistrarPreservaValida(c: Conta, t: Transacao)
    ensures Valida(c) ==> Valida(Registrar(c, t).conta)
  {
  }

  /** An account after a sequence of `registrar` calls, with the boolean outcome of each. */
  datatype Sessao = Sessao(conta: Conta, sucessos: seq<bool>)

  /** The transactions of `ts` whose outcome in `oks` is success, in their original order. */
  function Aceitas(ts: seq<Transacao>, oks: seq<bool>): (r: seq<Transacao>)
    requires |ts| == |oks|
    ensures |r| <= |ts|
  {
    if |ts| == 0 then []
    else Aceitas(ts[..|ts| - 1], oks[..|oks| - 1]) + (if oks[|oks| - 1] then [ts[|ts| - 1]] else [])
  }

  /**
   * Applying `ts` to `c` one `registrar` at a time. The log grows by exactly
   * the successful transactions, in order, after the entries it already held;
   * the account invariant is kept; identity and policy never change.
   */
  function Executar(c: Conta, ts: seq<Transacao>): (s: Sessao)
    ensures |s.sucessos| == |ts|
    ensures s.conta.historico == c.historico + Aceitas(ts, s.sucessos)
    ensures s.conta.saldo == c.saldo + SaldoDe(Aceitas(ts, s.sucessos))
    ensures Valida(c) ==> Valida(s.conta)
    ensures s.conta.numero == c.numero && s.conta.agencia == c.agencia && s.conta.titular == c.titular
    ensures s.conta.politica == c.politica
  {
    if |ts| == 0 then Sessao(c, [])
    else
      var anterior := Executar(c, ts[..|ts| - 1]);
      var r := Registrar(anterior.conta, ts[|ts| - 1]);
      RegistrarPreservaValida(anterior.conta, ts[|ts| - 1]);
      var oks := anterior.sucessos + [r.sucesso];
      assert oks[..|oks| - 1] == anterior.sucessos;
      var t := ts[|ts| - 1];
      var aceitas := Aceitas(ts[..|ts| - 1], anterior.sucessos);
      assert Aceitas(ts, oks) == aceitas + (if r.sucesso then [t] else []);
      SaldoDeConcat(aceitas, [t]);
      assert SaldoDe([t]) == Efeito(t) by {
        assert [t][..0] == [];
      }
      assert aceitas + [] == aceitas;
      Sessao(r.conta, oks)
  }

  /** The outcome of step `i` of a session is the outcome of `registrar` on the account as the earlier steps left it. */
  lemma {:induction false} ExecutarPasso(c: Conta, ts: seq<Transacao>, i: nat)
    requires i < |ts|
    ensures Executar(c, ts).sucessos[i] == Registrar(Executar(c, ts[..i]).conta, ts[i]).sucesso
    decreases |ts|
  {
    if i < |ts| - 1 {
      ExecutarPasso(c, ts[..|ts| - 1], i);
      assert ts[..|ts| - 1][..i] == ts[..i];
    }
  }

  /** The balance starts at 0 and stays non-negative, and equal to what the log accounts for, whatever is applied. */
  lemma SaldoNuncaNegativo(numero: int, titular: string, politica: Option<Politica>, ts: seq<Transacao>)
    ensures var c := Executar(Conta(numero, AgenciaPadrao, titular, 0.0, [], politica), ts).conta;
            c.saldo >= 0.0 && c.saldo == SaldoDe(c.historico)
  {
  }

  /**
   * A `ContaCorrente` never logs more withdrawals than its policy allows
   * (when that is not negative), however many are attempted.
   */
  lemma QuotaNuncaExcedida(numero: int, titular: string, p: Politica, ts: seq<Transacao>)
    requires p.limiteSaques >= 0
    ensures NumeroSaques(Executar(NovaContaCorrente(numero, titular, p), ts).conta.historico) <= p.limiteSaques
  {
  }

  /**
   * Once a `ContaCorrente` has logged `limiteSaques` withdrawals, every later
   * withdrawal fails, whatever its amount and whatever else happens meanwhile,
   * and the withdrawal count stays where it is: nothing resets the quota.
   */
  lemma {:induction false} QuotaEsgotadaPermanente(c: Conta, ts: seq<Transacao>)
    requires c.politica.Some?
    requires NumeroSaques(c.historico) >= c.politica.value.limiteSaques
    ensures forall i :: 0 <= i < |ts| && ts[i].Saque? ==> !Executar(c, ts).sucessos[i]
    ensures NumeroSaques(Executar(c, ts).conta.historico) == NumeroSaques(c.historico)
    decreases |ts|
  {
    if |ts| > 0 {
      var prefixo := ts[..|ts| - 1];
      var t := ts[|ts| - 1];
      QuotaEsgotadaPermanente(c, prefixo);
      var anterior := Executar(c, prefixo);
      var r := Registrar(anterior.conta, t);
      if r.sucesso {
        assert t.Deposito?;
        NumeroSaquesConcat(anterior.conta.historico, [t]);
        assert [t][..0] == [];
      }
      forall i | 0 <= i < |ts| && ts[i].Saque?
        ensures !Executar(c, ts).sucessos[i]
      {
        if i < |ts| - 1 {
          assert prefixo[i] == ts[i];
        }
      }
    }
  }

  /** A failed `registrar` leaves the account as it was, so a refused withdrawal does not use up the quota. */
  lemma FalhaNaoConsomeQuota(c: Conta, t: Transacao)
    requires !Aceita(c, t)
    ensures Registrar(c, t).conta == c
    ensures NumeroSaques(Registrar(c, t).conta.historico) == NumeroSaques(c.historico)
  {
  }

  /** A `ContaCorrente` refuses a withdrawal above its ceiling even when the balance covers it. */
  lemma SaqueAcimaDoLimiteFalha(c: Conta, v: real)
    requires c.politica.Some? && v > c.politica.value.limite
    ensures !Registrar(c, Saque(v)).sucesso
    ensures Registrar(c, Saque(v)).conta == c
  {
  }

  /** Depositing 100 and then withdrawing 40 leaves 60 and logs exactly those two transactions, in that order. */
  lemma CenarioDepositoESaque(c: Conta)
    requires c == NovaConta(c.numero, c.titular) || c == NovaContaCorrente(c.numero, c.titular, PoliticaPadrao)
    ensures var r1 := Registrar(c, Deposito(100.0));
            var r2 := Registrar(r1.conta, Saque(40.0));
            && r1.sucesso && r2.sucesso
            && r2.conta.saldo == 60.0
            && r2.conta.historico == [Deposito(100.0), Saque(40.0)]
  {
  }

  /**
   * With the default policy (ceiling 500, three withdrawals), after a deposit
   * of 1500 three withdrawals of 500 succeed and a fourth withdrawal fails,
   * whatever its amount.
   */
  lemma CenarioLimitePadrao(c: Conta, v: real)
    requires c == NovaContaCorrente(c.numero, c.titular, PoliticaPadrao)
    ensures var r1 := Registrar(c, Deposito(1500.0));
            var r2 := Registrar(r1.conta, Saque(500.0));
            var r3 := Registrar(r2.conta, Saque(500.0));
            var r4 := Registrar(r3.conta, Saque(500.0));
            && r1.sucesso && r2.sucesso && r3.sucesso && r4.sucesso
            && !Registrar(r4.conta, Saque(v)).sucesso
  {
  }
}
