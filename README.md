# anchor-escrow, modelled in Dafny

A model of the on-chain escrow program in `programs/anchor-escrow/src/lib.rs`.
The program keeps one `Escrow` account (owner and accepted mint, at the address
derived from the seed "Escrow"), one `UserState { amount }` account per
depositor (at the address derived from "UserState" and the depositor's key), and
a custody token account: the escrow's associated token account for the mint.
It has three instructions:

- `initialize` creates the Escrow account with the signer as owner and the given
  mint. Anchor's `init` constraint refuses an account that already exists, so it
  succeeds at most once.
- `deposit(amount)` checks the accounts, requires the signer to be the escrow's
  owner (`Unauthorized`) and `amount` to be at most the signer's token balance
  (`InsufficientFunds`), adds `amount` to the signer's UserState (created at zero
  on first use), then transfers `amount` into custody.
- `withdraw(amount)` checks the accounts (the UserState must be the one derived
  from the signer's key), requires `amount <= user_state.amount`
  (`InsufficientFunds`), subtracts it, then transfers `amount` out of custody under
  the escrow's derived authority.

A failed instruction commits nothing.

Layout:

- `results.dfy`: the `Option`, `Result` and `Outcome` types.
- `sums.dfy`: the sum of a map's values and its update lemmas.
- `addresses.dfy`: addresses. Derived addresses are datatype constructors, so each derivation is injective and can never be a key that signs.
- `token.dfy`: the token ledger and `transfer_checked`, standing in for the token program.
- `escrow.dfy`: the three instructions as functions from state, accounts and signers to a new state or an error. It also holds the invariant `Valid`.
- `escrow_properties.dfy`: conservation, success and failure conditions, the deposit/withdraw round trip, and invariance over any sequence of transactions.
- `program.dfy`: class `Ledger`. Its fields are the accounts and its methods are the handlers. Each method writes in the program's order: `init_if_needed` accounts first, then the UserState amount, then the transfer. On a failure it rolls back. Each method is proved to agree with the matching function.
- `scenario.dfy`: the run that the repository's integration test performs.

The central invariant (`AnchorEscrow.Conserved`) says the UserState amounts add up to the custody balance. It
is kept by every instruction, together with the fact that the accounts of a mint
hold at most a u64 in total (the mint's supply is a u64). That second fact is what
rules out the u64 overflow of `user_state.amount += amount`.

Behaviour followed as the code has it:

- Only the escrow's owner can deposit (lib.rs:22-25). Other holders get `Unauthorized`.
- No instruction rejects `amount == 0`.
- `initialize` does not create the custody account. The first `deposit` does, through `init_if_needed`.
- A withdrawal aimed at someone else's UserState never reaches `EscrowError::Unauthorized`. Anchor rejects it first, because of the seeds constraint, the missing signature or the missing account.
- A second `initialize` signed by its owner fails with the account-in-use error of account creation. An unsigned one fails first on the missing signature, because Anchor checks a `Signer` while loading the accounts, before `init` runs.
- `deposit` raises the amount before the transfer runs, and `withdraw` lowers it before the transfer runs. Their atomicity comes from the runtime's rollback.

## Model

| member | source | states |
|---|---|---|
| `AnchorEscrow.Initialize` | programs/anchor-escrow/src/lib.rs:12-18 | succeeds exactly when no Escrow exists, the escrow address is the derived one and the owner signed. On success, owner and mint are the signer and the given mint and nothing else changes. Without the owner's signature it fails with AccountNotSigner. With the signature, when an Escrow already exists at the derived address, it fails with AccountAlreadyInUse |
| `AnchorEscrow.DepositAccountsOk` | programs/anchor-escrow/src/lib.rs:80-118 | accepted accounts mean: the user signed; the escrow account is at the derived address, an Escrow exists there and the mint is its mint; the UserState is the one derived from the signer's key; the user token account is the signer's associated account for the mint and exists; the custody account is the escrow's associated account for the mint and differs from the user's |
| `AnchorEscrow.Deposit` | programs/anchor-escrow/src/lib.rs:20-46 | success needs valid accounts, the signer as escrow owner and an amount within the signer's token balance. The signer's UserState then exists and rises by exactly the amount, custody rises by it and the user's token account falls by it. No other UserState or token account changes, the only token account that can appear is custody, and the escrow is untouched |
| `AnchorEscrow.InitIfNeeded` | programs/anchor-escrow/src/lib.rs:91-113 | the `init_if_needed` accounts: afterwards the signer's UserState and the custody account exist, and no other account appears. An account that existed keeps its value and a new one starts at zero. The escrow is untouched |
| `AnchorEscrow.DepositHandler` | programs/anchor-escrow/src/lib.rs:21-43 | a non-owner gets Unauthorized, and an owner asking for more than the token balance gets InsufficientFunds. It succeeds exactly when the signer is the owner, the amount is within the balance, the raised record fits in a u64 and the transfer succeeds. Then the record rises by the amount, the tokens are the transfer's result and the escrow is untouched |
| `AnchorEscrow.WithdrawAccountsOk` | programs/anchor-escrow/src/lib.rs:144-167 | accepted accounts mean: the user signed; the UserState is the one derived from the signer's key and already exists; the user and custody token accounts exist and are different accounts |
| `AnchorEscrow.Withdraw` | programs/anchor-escrow/src/lib.rs:56-78 | success needs valid accounts, including an existing UserState derived from the signer's own key, and an amount within that record. The record falls by exactly the amount, custody falls by it and the user's token account rises by it. Nothing else changes |
| `Token.TransferChecked` | programs/anchor-escrow/src/lib.rs:31-43 | a successful transfer had enough in the source, the authority owns the source and both accounts are of the mint. It debits the source and credits the destination by the amount, creates no account and changes no other account. A transfer from an account to itself changes nothing |
| `Token.TransferConserves` | programs/anchor-escrow/src/lib.rs:62-75 | a successful transfer leaves the total held by every mint's accounts unchanged |
| `EscrowProperties.InitializePreservesValid` | programs/anchor-escrow/src/lib.rs:12-18 | a successful initialize keeps the invariant, so right after it the (empty) records add up to the (empty) custody balance |
| `EscrowProperties.InitializeOnce` | programs/anchor-escrow/src/lib.rs:121-123 | after a successful initialize, every further initialize fails, whatever accounts and signers it brings |
| `EscrowProperties.RecordedPlusHeldFits` | programs/anchor-escrow/src/lib.rs:29 | under the invariant, a user's recorded amount plus the balance of any other account of the mint fits in a u64, and so does custody plus that balance |
| `EscrowProperties.DepositSucceeds` | programs/anchor-escrow/src/lib.rs:26-43 | under the invariant, a deposit by the owner with valid accounts and an amount within the token balance succeeds. Neither the u64 increment nor the transfer can fail |
| `EscrowProperties.DepositRejects` | programs/anchor-escrow/src/lib.rs:21-26 | bad accounts fail with a constraint error before the handler runs. Anyone but the owner gets Unauthorized. An amount above the user's token balance gets InsufficientFunds |
| `EscrowProperties.InitIfNeededConserves` | programs/anchor-escrow/src/lib.rs:91-113 | creating the missing UserState and custody account at zero changes neither the recorded total nor any mint's total |
| `EscrowProperties.DepositHandlerConserves` | programs/anchor-escrow/src/lib.rs:27-43 | a successful handler raises the recorded total and the custody account by the amount, and leaves every mint's total unchanged |
| `EscrowProperties.DepositPreservesValid` | programs/anchor-escrow/src/lib.rs:27-43 | a successful deposit keeps the invariant (records sum to custody, supplies bounded) and leaves every mint's total unchanged |
| `EscrowProperties.WithdrawSucceeds` | programs/anchor-escrow/src/lib.rs:59-75 | under the invariant, a withdraw with valid accounts and an amount within the record succeeds. Custody always covers the record |
| `EscrowProperties.WithdrawRejects` | programs/anchor-escrow/src/lib.rs:144-162 | bad accounts fail with a constraint error: someone else's UserState, no signature, a wrong mint or a missing account. An amount above the record gets InsufficientFunds |
| `EscrowProperties.WithdrawPreservesValid` | programs/anchor-escrow/src/lib.rs:59-75 | a successful withdraw keeps the invariant and leaves every mint's total unchanged |
| `EscrowProperties.DepositThenWithdraw` | programs/anchor-escrow/src/lib.rs:20-78 | withdrawing the amount just deposited succeeds and restores every token balance and every user's recorded amount, and leaves the escrow as it was. A record that the deposit created stays, at zero |
| `EscrowProperties.ExecutePreservesValid` | programs/anchor-escrow/src/lib.rs:12-78 | any successful instruction keeps the invariant and every mint's total |
| `EscrowProperties.RunPreservesValid` | programs/anchor-escrow/src/lib.rs:8-79 | after any sequence of transactions, failed ones included, the invariant holds and no tokens were created or destroyed |
| `Program.Ledger.constructor` | programs/anchor-escrow/src/lib.rs:120-123 | the starting state: no Escrow, no UserState, the given token accounts. Given token accounts that are all associated accounts, whose per-mint totals fit in a u64 and of which no escrow-owned one holds anything, the ledger starts out satisfying the invariant |
| `Program.Ledger.Transfer` | programs/anchor-escrow/src/lib.rs:62-75 | updates the token balances exactly as TransferChecked says, or changes nothing and returns its error |
| `Program.Ledger.Initialize` | programs/anchor-escrow/src/lib.rs:12-18 | the new state and result are those of AnchorEscrow.Initialize. A failure leaves every account unchanged, and the invariant is kept |
| `Program.Ledger.Deposit` | programs/anchor-escrow/src/lib.rs:20-46 | runs the account checks and writes the lazily created accounts, then the handler. It ends in AnchorEscrow.Deposit's state and result. Any failure, including one after those writes, leaves every account as before. The invariant is kept |
| `Program.Ledger.DepositHandler` | programs/anchor-escrow/src/lib.rs:20-46 | checks owner and balance, raises the amount, then transfers. It returns Pass with the state of AnchorEscrow.DepositHandler or that function's error, and never changes the escrow. On an error it does not restore what it wrote; Deposit does that |
| `Program.Ledger.Withdraw` | programs/anchor-escrow/src/lib.rs:56-78 | lowers the amount before the transfer. It ends in AnchorEscrow.Withdraw's state and result. Any failure leaves every account as before. The invariant is kept |
| `Scenario.GenesisValid` | tests/escrow.test.ts:27-74 | the test's starting ledger satisfies the invariant: one mint, and its only token account is the user's, holding 1000 tokens. The second key has no token account |
| `Scenario.EndToEnd` | tests/escrow.test.ts:76-293 | the starting ledger satisfies the invariant, and the run below, with the balances the test asserts at each step. Initialize, deposit 300 of 1000, a withdraw of 400 fails with InsufficientFunds, a withdraw of 200 leaves 100 recorded and 100 in custody with 900 back in the wallet. The test's one attempt by a second key is refused with AccountNotSigner: a withdraw naming that key as user, with the owner's UserState and token account, signed by the owner. The model adds three steps the test does not perform. With the second key signing but pointing at the owner's UserState, a withdraw fails with ConstraintSeeds. With the second key's own accounts, a withdraw fails with AccountNotInitialized, because that key has no UserState. A deposit by the second key also fails with AccountNotInitialized, because it holds no token account |

## Left out

- Bump seeds and the hashing behind program-derived and associated token addresses. Derived addresses are injective constructors instead, and the `bump` fields of `Escrow` and `UserState` are not stored.
- Rent, `space`, `payer`, lamports, and the system and associated-token programs as programs. `Account<Mint>` deserialisation is also left out, so any key is accepted as a mint. The mint's `decimals` argument is left out too.
- The token program beyond a checked balance move. Out of scope: frozen accounts, delegates, token accounts at addresses other than associated ones, and minting or burning.
- Transfers into the custody account made outside this program. No such operation exists in the model. One would leave custody holding more than the records add up to.
- The exact error code when several account checks fail at once. The model reports the first failing check in the order its checks run. That is the order the accounts are listed, except that `initialize` checks the owner's signature before the escrow's address. Only "fails and changes nothing" is claimed about such inputs, not which code Anchor picks.
- u64 arithmetic assumes overflow checks are on, so an overflowing `+=` panics and fails the instruction. The Cargo profile is not part of this model. The invariant shows that the overflow cannot happen anyway.
- Concurrency and transaction scheduling. Each instruction is one atomic step.
