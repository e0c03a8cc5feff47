# Bank-account simulator: a Dafny model

This project models the in-memory domain core of a small banking exercise.
Clients (`PessoaFisica`) own accounts (`Conta`, and its variant
`ContaCorrente`). Each account holds a balance (`saldo`) and a log
(`Historico`). Withdrawals (`Saque`) and deposits (`Deposito`) are transaction
objects whose `registrar` runs the account operation and logs the transaction
only when that operation succeeded. A menu loop adds bookkeeping on top: CPF
lookup, client registration and sequential account numbering.

The class set is defined twice, identically, in
`2-programacao-orientada-a-objetos/desafio-1.py` and
`2-programacao-orientada-a-objetos/desafio-2.py`. It is modelled once. Line
numbers below cite `desafio-2.py`. The same code sits one line earlier in
`desafio-1.py` (for example `Conta.sacar` is at `desafio-1.py:75-98`), because
`desafio-2.py` has one extra import. The menu bookkeeping (`Banco`) exists
only in `desafio-2.py`.

Modules, one per component:

- `Tipos` (`tipos.dfy`): the datatypes. `Transacao = Saque(valor) | Deposito(valor)`
  is both the transaction and the log entry. A `Conta` carries an optional
  `Politica(limite, limiteSaques)`. It is `Some` exactly for a `ContaCorrente`,
  so `Sacar` dispatches on it where the program uses a subclass override.
- `Historico` (`historico.dfy`): appending, counting withdrawals, the report,
  and `SaldoDe`, the balance a log accounts for (an independent reference for
  the running balance).
- `Contas` (`contas.dfy`): opening accounts, `sacar` (plain and with policy),
  `depositar`, and the account invariant `Valida`.
- `Transacoes` (`transacoes.dfy`): `registrar`, a session of several
  transactions (`Executar`), and the properties of sessions.
- `Banco` (`banco.dfy`): `Cliente.realizar_transacao`, `adicionar_conta`, the
  menu bookkeeping, and the loop state `Estado(clientes, contas, numeroConta)`
  with its invariant `Valido`.

Modelling choices:

- Amounts are exact `real`s in place of binary floats.
- The count of withdrawals matches on the `Saque` constructor, where the program
  compares the stored class name with `"Saque"`.
- The withdrawal quota is kept exactly as written: it covers the account's
  whole lifetime and is never reset. A docstring calls it daily
  (`desafio-2.py:135`), but no code resets it.
- The program's account holds a reference to its client object. Here it holds
  the client's CPF (`titular`), and a client lists its accounts by number.
- `FiltrarCliente` and `RecuperarContaCliente` return positions in the client
  and account lists, where the program returns the objects themselves.

## Model

| member | source | states |
|---|---|---|
| Historico.AdicionarTransacao | 2-programacao-orientada-a-objetos/desafio-2.py:187-200 | the log grows by exactly one entry, at the end; every earlier entry keeps its place |
| Historico.NumeroSaques | 2-programacao-orientada-a-objetos/desafio-2.py:148-150 | the number of withdrawal entries never exceeds the log's length |
| Historico.NumeroSaquesConcat | 2-programacao-orientada-a-objetos/desafio-2.py:148-150 | the withdrawal count of two logs joined is the sum of their counts |
| Historico.SaldoDeConcat | 2-programacao-orientada-a-objetos/desafio-2.py:194-200 | the balance accounted for by two logs joined is the sum of their balances (+amount per deposit, -amount per withdrawal), so appending an entry moves it by that entry's effect |
| Historico.GerarRelatorio | 2-programacao-orientada-a-objetos/desafio-2.py:202-213 | the report is the sentinel "Nenhuma transação realizada." exactly when the log is empty; otherwise it starts with the fixed header |
| Contas.NovaConta | 2-programacao-orientada-a-objetos/desafio-2.py:39-44 | a new account starts at balance 0 with an empty log in branch "0001", and satisfies the account invariant |
| Contas.NovaContaCorrente | 2-programacao-orientada-a-objetos/desafio-2.py:123-126 | a new ContaCorrente is a fresh account carrying the given ceiling and withdrawal count, and satisfies the account invariant |
| Contas.SacarBase | 2-programacao-orientada-a-objetos/desafio-2.py:76-99 | a plain withdrawal succeeds iff 0 < amount <= balance; on success only the balance changes, dropping by exactly the amount and staying >= 0; on failure nothing changes |
| Contas.SacarCorrente | 2-programacao-orientada-a-objetos/desafio-2.py:138-163 | a ContaCorrente withdrawal succeeds iff amount <= ceiling, fewer than limiteSaques withdrawals are logged, and 0 < amount <= balance; so above the ceiling or past the quota it fails whatever the balance; failure changes nothing |
| Contas.Sacar | 2-programacao-orientada-a-objetos/desafio-2.py:76-163 | the withdrawal as dispatched on the account's class succeeds exactly under the declarative condition PodeSacar; the policy applies only to a ContaCorrente |
| Contas.Depositar | 2-programacao-orientada-a-objetos/desafio-2.py:101-117 | a deposit succeeds iff the amount is positive; on success only the balance changes, rising by exactly the amount; on failure nothing changes |
| Transacoes.Registrar | 2-programacao-orientada-a-objetos/desafio-2.py:242-276 | registrar succeeds iff the account operation accepts the transaction; on success the log gains exactly that transaction at the end and the balance moves by its effect; on failure the account is unchanged; identity and policy never change |
| Transacoes.RegistrarPreservaValida | 2-programacao-orientada-a-objetos/desafio-2.py:242-276 | registrar keeps the invariant: balance >= 0 and equal to the log's deposits minus withdrawals, all logged amounts positive, withdrawal count within the quota |
| Transacoes.Executar | 2-programacao-orientada-a-objetos/desafio-2.py:176-200 | after any sequence of registrar calls the log is the old log followed by exactly the successful transactions, in order, and the balance has moved by exactly what those transactions account for; the invariant is kept; identity and policy never change |
| Transacoes.ExecutarPasso | 2-programacao-orientada-a-objetos/desafio-2.py:249-252 | the outcome of each step of a session is registrar's outcome on the account as the earlier steps left it |
| Transacoes.SaldoNuncaNegativo | 2-programacao-orientada-a-objetos/desafio-2.py:40-117 | from a fresh account, with or without a policy, the balance is >= 0 and equals what the log accounts for after any sequence of transactions |
| Transacoes.QuotaNuncaExcedida | 2-programacao-orientada-a-objetos/desafio-2.py:148-161 | a fresh ContaCorrente never logs more than limiteSaques withdrawals, whatever sequence is applied |
| Transacoes.QuotaEsgotadaPermanente | 2-programacao-orientada-a-objetos/desafio-2.py:148-161 | once limiteSaques withdrawals are logged, every later withdrawal fails whatever its amount and whatever happens in between, and the count never moves again (no reset) |
| Transacoes.FalhaNaoConsomeQuota | 2-programacao-orientada-a-objetos/desafio-2.py:249-252 | a refused transaction leaves the account, and so its withdrawal count, unchanged |
| Transacoes.SaqueAcimaDoLimiteFalha | 2-programacao-orientada-a-objetos/desafio-2.py:152-157 | a ContaCorrente withdrawal above the ceiling fails and changes nothing, whatever the balance |
| Transacoes.CenarioDepositoESaque | 2-programacao-orientada-a-objetos/desafio-2.py:242-276 | on a fresh account, deposit 100 then withdraw 40 both succeed, leave balance 60 and log exactly those two transactions in that order |
| Transacoes.CenarioLimitePadrao | 2-programacao-orientada-a-objetos/desafio-2.py:123-163 | with the defaults 500 and 3, after depositing 1500 three withdrawals of 500 succeed and a fourth withdrawal of any amount fails |
| Banco.RealizarTransacao | 2-programacao-orientada-a-objetos/desafio-2.py:14-16 | a transaction requested through a client behaves exactly like registrar on the account; the client adds no check |
| Banco.AdicionarConta | 2-programacao-orientada-a-objetos/desafio-2.py:18-20 | the account goes at the end of the client's list; nothing else about the client changes |
| Banco.FiltrarCliente | 2-programacao-orientada-a-objetos/desafio-2.py:296-308 | returns the first client with the CPF, or None exactly when no client has it |
| Banco.FiltrarClienteUnico | 2-programacao-orientada-a-objetos/desafio-2.py:296-308 | when CPFs are distinct, the lookup finds the one client holding the CPF |
| Banco.RecuperarContaCliente | 2-programacao-orientada-a-objetos/desafio-2.py:311-326 | None for a client without accounts; otherwise the client's first account whenever it exists |
| Banco.InicialValido | 2-programacao-orientada-a-objetos/desafio-2.py:473-475 | the loop's starting state (no clients, no accounts, next number 1) satisfies the bookkeeping invariant |
| Banco.CriarCliente | 2-programacao-orientada-a-objetos/desafio-2.py:402-424 | a registered CPF is refused with no change; otherwise the client is appended with no accounts; distinct CPFs stay distinct and the CPF is registered afterwards |
| Banco.CriarConta | 2-programacao-orientada-a-objetos/desafio-2.py:427-451 | for a registered CPF a default ContaCorrente numbered n is appended to the accounts and to the first matching client's list, nothing else about that client or any other client changes, and the next number is n+1; for an unknown CPF nothing changes and n is returned |
| Banco.ContaAlvo | 2-programacao-orientada-a-objetos/desafio-2.py:360-372 | an account is found exactly when the CPF lookup finds a client and that client's first account is found; the account found is the first matching client's first account |
| Banco.Movimentar | 2-programacao-orientada-a-objetos/desafio-2.py:329-374 | a deposit or withdrawal runs registrar on the client's first account only; an unknown CPF or a client without an account changes nothing; no client, no other account, and not the next account number change |
| Banco.ContaAlvoDoTitular | 2-programacao-orientada-a-objetos/desafio-2.py:336-350 | in a valid state an account is found iff the CPF is registered and owns an account, and the account found belongs to that CPF |
| Banco.CriarClientePreserva | 2-programacao-orientada-a-objetos/desafio-2.py:409-422 | registering a client keeps the bookkeeping invariant |
| Banco.CriarContaPreserva | 2-programacao-orientada-a-objetos/desafio-2.py:439-451 | opening an account keeps the bookkeeping invariant: sequential numbering, owners' lists point at their own accounts |
| Banco.MovimentarPreserva | 2-programacao-orientada-a-objetos/desafio-2.py:329-374 | a deposit or withdrawal keeps the bookkeeping invariant |
| Banco.RodarPreserva | 2-programacao-orientada-a-objetos/desafio-2.py:471-503 | any sequence of menu commands keeps the bookkeeping invariant |
| Banco.SessaoDoMenu | 2-programacao-orientada-a-objetos/desafio-2.py:471-503 | from the start, after any commands: accounts are numbered 1, 2, ... with the next number one past the last, CPFs are distinct, every balance is >= 0 and matches its log, no account has logged more than three withdrawals |

## Left out

- Console I/O is not modelled: every `print`, every `input()`, and the menu
  text. Parsing the typed amount with `float(...)`, and the exception it
  raises on bad input, are left out too. The command a user types becomes a
  `Comando` value, and its fields are the typed inputs.
- `exibir_extrato` and `listar_contas` only print. Their non-printing content
  is the report (`GerarRelatorio`) and the balance, which are modelled. The
  quit command and unknown options do not change the state.
- Timestamps are not modelled. `adicionar_transacao` stores `datetime.now()`
  with each entry; the model's entries carry only kind and amount. So the
  report's `Data:` line is left out.
- Floating point is not modelled. Amounts are exact reals, so there is no
  rounding, no NaN and no infinity. A NaN amount would pass both checks of
  `Conta.sacar` and `Conta.depositar` in the program; the model has no such
  value.
- `:.2f` formatting is not modelled. The report takes the amount renderer as
  a parameter, `valorTexto`.
- `__repr__` and `__str__` are left out; they are display-only.
- Property accessors (`saldo`, `numero`, `agencia`, `cliente`, `historico`,
  `limite`, `limite_saques`, `valor`) are datatype fields.
- The abstract base class `Transacao` and the `nova_conta` factory are left
  out. The first becomes the two constructors of the datatype; the second
  is `NovaContaCorrente`.
- Object identity and aliasing are not modelled. The program shares one
  account object between the global list and the client's list. The model
  keeps accounts only in the global list and has clients refer to them by
  number.
- `4-resolvendo-codigos-py-copilot/ope_mat.py` is left out: a top-level script
  of input, print and float division.
- `4-resolvendo-codigos-py-copilot/palindromo.py` is left out: print-only
  wrappers around comparing a word with its reverse.
- `ContaCorrente.sacar` checks the ceiling before the withdrawal count
  (`desafio-2.py:155-161`), and the model keeps that order. Either order
  gives the same result, since every failing check returns false with no
  change; only the printed message differs.
