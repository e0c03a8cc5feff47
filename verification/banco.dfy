/**
 * The client side of the simulator: `Cliente.realizar_transacao` and
 * `adicionar_conta`, and the bookkeeping behind the menu commands (client
 * lookup by CPF, first account of a client, new client, new account, deposit
 * and withdrawal), with their console input and output stripped.
 *
 * The menu loop's state is `Estado`: the client list, the account list and
 * the number the next account will get.
 */
module Banco {
  import opened Tipos
  import opened Historico
  import opened Contas
  import opened Transacoes

  /** `Cliente.realizar_transacao`: exactly `registrar`; the client adds no check of its own. */
  function RealizarTransacao(cliente: PessoaFisica, conta: Conta, t: Transacao): (r: Resultado)
    ensures r == Registrar(conta, t)
    ensures r.sucesso <==> Aceita(conta, t)
  {
    Registrar(conta, t)
  }

  /** `Cliente.adicionar_conta`: the account number goes at the end of the client's list. */
  function AdicionarConta(cliente: PessoaFisica, numero: int): (r: PessoaFisica)
    ensures r.contas == cliente.contas + [numero]
    ensures r.cpf == cliente.cpf && r.nome == cliente.nome
    ensures r.dataNascimento == cliente.dataNascimento && r.endereco == cliente.endereco
  {
    cliente.(contas := cliente.contas + [numero])
  }

  /** The position of the first element of `s` satisfying `p`, or `None` when there is none. */
  function PrimeiroIndice<T>(s: seq<T>, p: T -> bool): (r: Option<nat>)
    ensures r.None? <==> forall i :: 0 <= i < |s| ==> !p(s[i])
    ensures r.Some? ==> r.value < |s| && p(s[r.value])
    ensures r.Some? ==> forall j :: 0 <= j < r.value ==> !p(s[j])
  {
    if |s| == 0 then None
    else if p(s[0]) then Some(0)
    else match PrimeiroIndice(s[1..], p)
      case None => None
      case Some(i) => Some(i + 1)
  }

  /** `filtrar_cliente`: the position of the first client with CPF `cpf`, or `None`. */
  function FiltrarCliente(cpf: string, clientes: seq<PessoaFisica>): (r: Option<nat>)
    ensures r.None? <==> forall i :: 0 <= i < |clientes| ==> clientes[i].cpf != cpf
    ensures r.Some? ==> r.value < |clientes| && clientes[r.value].cpf == cpf
    ensures r.Some? ==> forall j :: 0 <= j < r.value ==> clientes[j].cpf != cpf
  {
    PrimeiroIndice(clientes, (c: PessoaFisica) => c.cpf == cpf)
  }

  /** No two clients share a CPF. */
  predicate CpfsUnicos(clientes: seq<PessoaFisica>)
  {
    forall i, j :: 0 <= i < j < |clientes| ==> clientes[i].cpf != clientes[j].cpf
  }

  /** With distinct CPFs, the first client with a CPF is the only one with it. */
  lemma FiltrarClienteUnico(cpf: string, clientes: seq<PessoaFisica>, k: nat)
    requires CpfsUnicos(clientes)
    requires k < |clientes| && clientes[k].cpf == cpf
    ensures FiltrarCliente(cpf, clientes) == Some(k)
  {
  }

  /**
   * `recuperar_conta_cliente`: the position in `contas` of the client's first
   * account, or `None` when the client has none (or its number is unknown).
   */
  function RecuperarContaCliente(cliente: PessoaFisica, contas: seq<Conta>): (r: Option<nat>)
    ensures |cliente.contas| == 0 ==> r.None?
    ensures r.Some? ==> r.value < |contas| && contas[r.value].numero == cliente.contas[0]
    ensures (|cliente.contas| > 0 && exists j :: 0 <= j < |contas| && contas[j].numero == cliente.contas[0])
            ==> r.Some?
  {
    if |cliente.contas| == 0 then None
    else PrimeiroIndice(contas, (c: Conta) => c.numero == cliente.contas[0])
  }

  /** The state the menu loop keeps between commands. */
  datatype Estado = Estado(clientes: seq<PessoaFisica>, contas: seq<Conta>, numeroConta: int)

  /** The state before the first command: nobody registered, next account number 1. */
  const Inicial: Estado := Estado([], [], 1)

  /** Account `c` sits at position `j` of the account list as the bank opens them: number `j + 1`, a valid default `ContaCorrente`. */
  predicate ContaDoBanco(c: Conta, j: int)
  {
    c.numero == j + 1 && c.politica == Some(PoliticaPadrao) && Valida(c)
  }

  /** Account number `n` names an account of `contas` owned by `cliente`. */
  predicate Possui(cliente: PessoaFisica, n: int, contas: seq<Conta>)
  {
    1 <= n <= |contas| && contas[n - 1].titular == cliente.cpf
  }

  /** Every account number a client lists names an account that client owns. */
  predicate TitularesCorretos(clientes: seq<PessoaFisica>, contas: seq<Conta>)
  {
    forall i, k :: 0 <= i < |clientes| && 0 <= k < |clientes[i].contas| ==> Possui(clientes[i], clientes[i].contas[k], contas)
  }

  /**
   * The bookkeeping invariant: CPFs are distinct; accounts are numbered
   * 1, 2, ... in opening order and the next number is one past the last;
   * every account is a valid default `ContaCorrente`; every account number a
   * client lists names an existing account that client owns.
   */
  predicate Valido(e: Estado)
  {
    && CpfsUnicos(e.clientes)
    && e.numeroConta == |e.contas| + 1
    && (forall j :: 0 <= j < |e.contas| ==> ContaDoBanco(e.contas[j], j))
    && TitularesCorretos(e.clientes, e.contas)
  }

  /** Ownership only depends on the accounts' owners, so accounts that keep their owners keep it. */
  lemma TitularesMesmos(clientes: seq<PessoaFisica>, contas: seq<Conta>, novas: seq<Conta>)
    requires TitularesCorretos(clientes, contas)
    requires |contas| <= |novas|
    requires forall j :: 0 <= j < |contas| ==> novas[j].titular == contas[j].titular
    ensures TitularesCorretos(clientes, novas)
  {
    forall i, k | 0 <= i < |clientes| && 0 <= k < |clientes[i].contas|
      ensures Possui(clientes[i], clientes[i].contas[k], novas)
    {
      assert Possui(clientes[i], clientes[i].contas[k], contas);
    }
  }

  lemma InicialValido()
    ensures Valido(Inicial)
  {
  }

  /**
   * `criar_cliente`: a client with a CPF already registered is refused and
   * nothing changes; otherwise the new client, with no accounts, goes at the end.
   */
  function CriarCliente(e: Estado, cpf: string, nome: string, dataNascimento: string, endereco: string): (r: Estado)
    ensures FiltrarCliente(cpf, e.clientes).Some? ==> r == e
    ensures FiltrarCliente(cpf, e.clientes).None? ==>
              r == e.(clientes := e.clientes + [PessoaFisica(nome, dataNascimento, cpf, endereco, [])])
    ensures CpfsUnicos(e.clientes) ==> CpfsUnicos(r.clientes)
    ensures exists i :: 0 <= i < |r.clientes| && r.clientes[i].cpf == cpf
  {
    match FiltrarCliente(cpf, e.clientes)
    case Some(_) => e
    case None =>
      var r := e.(clientes := e.clientes + [PessoaFisica(nome, dataNascimento, cpf, endereco, [])]);
      assert r.clientes[|e.clientes|].cpf == cpf;
      r
  }

  /**
   * `criar_conta`: for a registered CPF, a default `ContaCorrente` numbered
   * `numeroConta` is appended to the account list and to the first matching
   * client's list, and the next number is `numeroConta + 1`; for an unknown
   * CPF nothing changes and the number is returned as it was.
   */
  function CriarConta(e: Estado, cpf: string): (r: Estado)
    ensures FiltrarCliente(cpf, e.clientes).None? ==> r == e
    ensures FiltrarCliente(cpf, e.clientes).Some? ==>
              var i := FiltrarCliente(cpf, e.clientes).value;
              && r.numeroConta == e.numeroConta + 1
              && r.contas == e.contas + [NovaContaCorrente(e.numeroConta, cpf, PoliticaPadrao)]
              && |r.clientes| == |e.clientes|
              && r.clientes[i] == AdicionarConta(e.clientes[i], e.numeroConta)
              && (forall j :: 0 <= j < |e.clientes| && j != i ==> r.clientes[j] == e.clientes[j])
  {
    match FiltrarCliente(cpf, e.clientes)
    case None => e
    case Some(i) =>
      var conta := NovaContaCorrente(e.numeroConta, e.clientes[i].cpf, PoliticaPadrao);
      Estado(e.clientes[i := AdicionarConta(e.clientes[i], conta.numero)], e.contas + [conta], e.numeroConta + 1)
  }

  /** The position of the account a deposit or withdrawal for `cpf` acts on: the first account of the client found. */
  function ContaAlvo(e: Estado, cpf: string): (r: Option<nat>)
    ensures r.Some? <==>
              && FiltrarCliente(cpf, e.clientes).Some?
              && RecuperarContaCliente(e.clientes[FiltrarCliente(cpf, e.clientes).value], e.contas).Some?
    ensures r.Some? ==>
              && r.value < |e.contas|
              && e.contas[r.value].numero == e.clientes[FiltrarCliente(cpf, e.clientes).value].contas[0]
  {
    match FiltrarCliente(cpf, e.clientes)
    case None => None
    case Some(i) => RecuperarContaCliente(e.clientes[i], e.contas)
  }

  /**
   * The menu's deposit and withdrawal commands: the transaction runs, through
   * the client, on the client's first account; an unknown CPF or a client
   * without an account changes nothing; no other account and no client changes.
   */
  function Movimentar(e: Estado, cpf: string, t: Transacao): (r: Estado)
    ensures r.clientes == e.clientes && r.numeroConta == e.numeroConta && |r.contas| == |e.contas|
    ensures ContaAlvo(e, cpf).None? ==> r == e
    ensures ContaAlvo(e, cpf).Some? ==> r.contas[ContaAlvo(e, cpf).value] == Registrar(e.contas[ContaAlvo(e, cpf).value], t).conta
    ensures forall j :: 0 <= j < |e.contas| && ContaAlvo(e, cpf) != Some(j) ==> r.contas[j] == e.contas[j]
  {
    match FiltrarCliente(cpf, e.clientes)
    case None => e
    case Some(i) =>
      match RecuperarContaCliente(e.clientes[i], e.contas)
      case None => e
      case Some(j) => e.(contas := e.contas[j := RealizarTransacao(e.clientes[i], e.contas[j], t).conta])
  }

  /**
   * In a valid state a deposit or withdrawal for `cpf` finds an account
   * exactly when `cpf` is registered and owns at least one account, and the
   * account it finds is owned by `cpf`: a command never touches another
   * client's account.
   */
  lemma ContaAlvoDoTitular(e: Estado, cpf: string)
    requires Valido(e)
    ensures ContaAlvo(e, cpf).Some? <==>
              exists i :: 0 <= i < |e.clientes| && e.clientes[i].cpf == cpf && |e.clientes[i].contas| > 0
    ensures ContaAlvo(e, cpf).Some? ==> e.contas[ContaAlvo(e, cpf).value].titular == cpf
  {
    match FiltrarCliente(cpf, e.clientes)
    case None =>
    case Some(i) =>
      var c := e.clientes[i];
      if |c.contas| > 0 {
        var n := c.contas[0];
        assert Possui(c, n, e.contas);
        assert ContaDoBanco(e.contas[n - 1], n - 1);
        var j := RecuperarContaCliente(c, e.contas).value;
        assert ContaDoBanco(e.contas[j], j);
      }
      forall k | 0 <= k < |e.clientes| && e.clientes[k].cpf == cpf
        ensures k == i
      {
      }
  }

  /** Registering a client keeps the bookkeeping invariant. */
  lemma CriarClientePreserva(e: Estado, cpf: string, nome: string, dataNascimento: string, endereco: string)
    requires Valido(e)
    ensures Valido(CriarCliente(e, cpf, nome, dataNascimento, endereco))
  {
    var r := CriarCliente(e, cpf, nome, dataNascimento, endereco);
    forall i, k | 0 <= i < |r.clientes| && 0 <= k < |r.clientes[i].contas|
      ensures Possui(r.clientes[i], r.clientes[i].contas[k], r.contas)
    {
      assert i < |e.clientes| && r.clientes[i] == e.clientes[i];
    }
  }

  /** Opening an account keeps the bookkeeping invariant. */
  lemma CriarContaPreserva(e: Estado, cpf: string)
    requires Valido(e)
    ensures Valido(CriarConta(e, cpf))
  {
    var r := CriarConta(e, cpf);
    match FiltrarCliente(cpf, e.clientes)
    case None =>
    case Some(i) =>
      var nova := r.contas[|e.contas|];
      assert ContaDoBanco(nova, |e.contas|);
      assert forall j :: 0 <= j < |r.contas| ==> ContaDoBanco(r.contas[j], j);
      TitularesMesmos(e.clientes, e.contas, r.contas);
      forall a, k | 0 <= a < |r.clientes| && 0 <= k < |r.clientes[a].contas|
        ensures Possui(r.clientes[a], r.clientes[a].contas[k], r.contas)
      {
        if a == i && k == |e.clientes[i].contas| {
          assert r.clientes[a].contas[k] == e.numeroConta;
        } else {
          assert r.clientes[a].contas[k] == e.clientes[a].contas[k];
          assert r.clientes[a].cpf == e.clientes[a].cpf;
          assert Possui(e.clientes[a], e.clientes[a].contas[k], r.contas);
        }
      }
      assert CpfsUnicos(r.clientes) by {
        assert forall a :: 0 <= a < |r.clientes| ==> r.clientes[a].cpf == e.clientes[a].cpf;
      }
  }

  /** A deposit or withdrawal keeps the bookkeeping invariant. */
  lemma MovimentarPreserva(e: Estado, cpf: string, t: Transacao)
    requires Valido(e)
    ensures Valido(Movimentar(e, cpf, t))
  {
    match ContaAlvo(e, cpf)
    case None =>
    case Some(j) =>
      var r := Movimentar(e, cpf, t);
      RegistrarPreservaValida(e.contas[j], t);
      assert ContaDoBanco(e.contas[j], j);
      assert ContaDoBanco(r.contas[j], j);
      assert forall k :: 0 <= k < |r.contas| ==> ContaDoBanco(r.contas[k], k);
      TitularesMesmos(e.clientes, e.contas, r.contas);
  }

  /**
   * The menu commands that change the state, with their console input given
   * as arguments. The statement, list and quit commands and an unknown
   * option leave the state as it is.
   */
  datatype Comando =
    | ComandoDeposito(cpf: string, valor: real)
    | ComandoSaque(cpf: string, valor: real)
    | NovoUsuario(cpf: string, nome: string, dataNascimento: string, endereco: string)
    | AbrirConta(cpf: string)

  /** One pass of the menu loop. */
  function Passo(e: Estado, cmd: Comando): Estado
  {
    match cmd
    case ComandoDeposito(cpf, v) => Movimentar(e, cpf, Deposito(v))
    case ComandoSaque(cpf, v) => Movimentar(e, cpf, Saque(v))
    case NovoUsuario(cpf, nome, nasc, endereco) => CriarCliente(e, cpf, nome, nasc, endereco)
    case AbrirConta(cpf) => CriarConta(e, cpf)
  }

  /** The state after running `cmds` in order from `e`. */
  function Rodar(e: Estado, cmds: seq<Comando>): Estado
  {
    if |cmds| == 0 then e else Passo(Rodar(e, cmds[..|cmds| - 1]), cmds[|cmds| - 1])
  }

  /** Every command sequence keeps the bookkeeping invariant. */
  lemma {:induction false} RodarPreserva(e: Estado, cmds: seq<Comando>)
    requires Valido(e)
    ensures Valido(Rodar(e, cmds))
    decreases |cmds|
  {
    if |cmds| > 0 {
      var antes := Rodar(e, cmds[..|cmds| - 1]);
      RodarPreserva(e, cmds[..|cmds| - 1]);
      match cmds[|cmds| - 1]
      case ComandoDeposito(cpf, v) => MovimentarPreserva(antes, cpf, Deposito(v));
      case ComandoSaque(cpf, v) => MovimentarPreserva(antes, cpf, Saque(v));
      case NovoUsuario(cpf, nome, nasc, endereco) => CriarClientePreserva(antes, cpf, nome, nasc, endereco);
      case AbrirConta(cpf) => CriarContaPreserva(antes, cpf);
    }
  }

  /**
   * Whatever commands are entered from the start, accounts stay numbered
   * 1, 2, ... with the next number one past the last, every balance is
   * non-negative and equals what its log accounts for, and no account has
   * logged more than three withdrawals.
   */
  lemma SessaoDoMenu(cmds: seq<Comando>)
    ensures var r := Rodar(Inicial, cmds);
            && r.numeroConta == |r.contas| + 1
            && CpfsUnicos(r.clientes)
            && forall j :: 0 <= j < |r.contas| ==>
                 && r.contas[j].numero == j + 1
                 && r.contas[j].saldo >= 0.0
                 && r.contas[j].saldo == SaldoDe(r.contas[j].historico)
                 && NumeroSaques(r.contas[j].historico) <= 3
  {
    InicialValido();
    RodarPreserva(Inicial, cmds);
  }
}
