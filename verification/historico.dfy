/**
 * `Historico`: the per-account log, an append-only ordered sequence of the
 * transactions that succeeded, with the two views the program takes of it
 * (the withdrawal count and the textual report) and the balance it accounts for.
 */
module Historico {
  import opened Tipos

  /** `adicionar_transacao`: one entry goes at the end; the earlier ones stay where they were. */
  function AdicionarTransacao(h: seq<Transacao>, t: Transacao): (r: seq<Transacao>)
    ensures |r| == |h| + 1
    ensures r[|h|] == t
    ensures forall i :: 0 <= i < |h| ==> r[i] == h[i]
  {
    h + [t]
  }

  /** The number of withdrawal entries in the log. */
  function NumeroSaques(h: seq<Transacao>): (n: nat)
    ensures n <= |h|
  {
    if |h| == 0 then 0
    else NumeroSaques(h[..|h| - 1]) + (if h[|h| - 1].Saque? then 1 else 0)
  }

  /** Counting withdrawals distributes over concatenation of logs. */
  lemma {:induction false} NumeroSaquesConcat(a: seq<Transacao>, b: seq<Transacao>)
    ensures NumeroSaques(a + b) == NumeroSaques(a) + NumeroSaques(b)
    decreases |b|
  {
    if |b| == 0 {
      assert a + b == a;
    } else {
      NumeroSaquesConcat(a, b[..|b| - 1]);
      assert (a + b)[..|a + b| - 1] == a + b[..|b| - 1];
    }
  }

  /** What one transaction does to the balance. */
  function Efeito(t: Transacao): real
  {
    match t
    case Saque(v) => -v
    case Deposito(v) => v
  }

  /** The balance a log accounts for: the deposits minus the withdrawals. */
  function SaldoDe(h: seq<Transacao>): real
  {
    if |h| == 0 then 0.0 else SaldoDe(h[..|h| - 1]) + Efeito(h[|h| - 1])
  }

  /** The balance two logs joined account for is the sum of theirs. */
  lemma {:induction false} SaldoDeConcat(a: seq<Transacao>, b: seq<Transacao>)
    ensures SaldoDe(a + b) == SaldoDe(a) + SaldoDe(b)
    decreases |b|
  {
    if |b| == 0 {
      assert a + b == a;
    } else {
      SaldoDeConcat(a, b[..|b| - 1]);
      assert (a + b)[..|a + b| - 1] == a + b[..|b| - 1];
    }
  }

  /** The report's text for an empty log. */
  const SemTransacoes: string := "Nenhuma transação realizada."
  const Cabecalho: string := "\n========== HISTÓRICO DE TRANSAÇÕES ==========\n"
  const Rodape: string := "\n============================================\n"

  /** The name the program prints for a kind (its class name). */
  function NomeTipo(t: Transacao): string
  {
    match t
    case Saque(_) => "Saque"
    case Deposito(_) => "Deposito"
  }

  /** The report's entries, in log order; `valorTexto` renders an amount. */
  function Corpo(h: seq<Transacao>, valorTexto: real -> string): string
  {
    if |h| == 0 then ""
    else
      var t := h[|h| - 1];
      Corpo(h[..|h| - 1], valorTexto) + "\n" + NomeTipo(t) + ":\n" + "  Valor: R$ " + valorTexto(t.valor) + "\n"
  }

  /**
   * `gerar_relatorio`: the fixed sentinel exactly when nothing was logged,
   * otherwise a framed listing of the entries.
   */
  function GerarRelatorio(h: seq<Transacao>, valorTexto: real -> string): (r: string)
    ensures r == SemTransacoes <==> |h| == 0
    ensures |h| > 0 ==> Cabecalho <= r
  {
    if |h| == 0 then SemTransacoes
    else
      var r := Cabecalho + Corpo(h, valorTexto) + Rodape;
      assert r[0] == Cabecalho[0];
      r
  }
}
