/** The escrow program's three instructions, each a function from the accounts it
    is given (and the signatures on the transaction) to a new state or an error.
    An error carries no state: the runtime discards every write of a failed
    instruction, so a failure leaves the whole state as it was. */
module AnchorEscrow {
  import opened Results
  import opened Addresses
  import opened Token
  import opened Sums

  /** The singleton Escrow account: who created it and which mint it accepts. */
  datatype Escrow = Escrow(owner: Pubkey, mint: Pubkey)

  /** Everything the instructions read or write. */
  datatype State = State(
    /** The Escrow account at EscrowPda, once it has been created. */
    escrow: Option<Escrow>,
    /** `amount` of each UserState account, by that account's address. */
    userStates: map<Pubkey, u64>,
    /** The token accounts and their balances. */
    tokens: Balances)

  datatype Error =
      /** The program's own errors. */
    | InsufficientFunds
    | Unauthorized
      /** `init` found the account already created. */
    | AccountAlreadyInUse
      /** An account the instruction reads does not exist. */
    | AccountNotInitialized
      /** A `Signer` account did not sign. */
    | AccountNotSigner
      /** An account is not at the address its seeds derive. */
    | ConstraintSeeds
      /** The mint passed is not the escrow's mint. */
    | ConstraintRaw
      /** A token account is not the associated token account it must be. */
    | ConstraintAssociated
      /** A checked u64 addition overflowed. */
    | ArithmeticOverflow
      /** The token transfer failed. */
    | TokenFailure(cause: TokenError)

  /** Errors raised while the accounts are checked, before the handler body runs. */
  predicate IsConstraintError(e: Error)
  {
    e.AccountNotInitialized? || e.AccountNotSigner? || e.ConstraintSeeds? || e.ConstraintRaw? || e.ConstraintAssociated?
  }

  /** The accounts Initialize is given. */
  datatype InitializeAccounts = InitializeAccounts(escrow: Pubkey, mint: Pubkey, owner: Pubkey)

  /** The accounts Deposit and Withdraw are given (both list the same ones). */
  datatype UserAccounts = UserAccounts(
    escrow: Pubkey, user: Pubkey, mint: Pubkey, userState: Pubkey, userAta: Pubkey, userDeposit: Pubkey)

  /** The custody account: the escrow's associated token account for `mint`. */
  function Custody(mint: Pubkey): Pubkey
  {
    Ata(EscrowPda, mint)
  }

  /** What the UserState account at `k` records, zero when there is none. */
  function Recorded(s: State, k: Pubkey): u64
  {
    if k in s.userStates then s.userStates[k] else 0
  }

  /** The recorded net deposit of `user`, zero when there is no UserState account. */
  function Amount(s: State, user: Pubkey): u64
  {
    if UserStatePda(user) in s.userStates then s.userStates[UserStatePda(user)] else 0
  }

  /** The accounts that `user` must pass when the escrow accepts `mint`. */
  function AccountsFor(user: Pubkey, mint: Pubkey): UserAccounts
  {
    UserAccounts(EscrowPda, user, mint, UserStatePda(user), Ata(user, mint), Custody(mint))
  }

  // ---------------------------------------------------------------- Initialize

  /** Creates the Escrow account with the signing owner and the given mint. `init`
      refuses an Escrow account that already exists, so this succeeds at most once. */
  function Initialize(s: State, a: InitializeAccounts, signers: set<Pubkey>): (r: Result<State, Error>)
    ensures r.Ok? <==> s.escrow.None? && a.escrow == EscrowPda && Signed(a.owner, signers)
    ensures r.Ok? ==> r.value.escrow == Some(Escrow(a.owner, a.mint))
    ensures r.Ok? ==> r.value.userStates == s.userStates && r.value.tokens == s.tokens
    ensures s.escrow.Some? && a.escrow == EscrowPda && Signed(a.owner, signers) ==> r == Err(AccountAlreadyInUse)
    ensures !Signed(a.owner, signers) ==> r == Err(AccountNotSigner)
  {
    // the `Signer` is checked when the accounts are loaded, before `init` runs
    if !Signed(a.owner, signers) then Err(AccountNotSigner)
    else if a.escrow != EscrowPda then Err(ConstraintSeeds)
    else if s.escrow.Some? then Err(AccountAlreadyInUse)
    else Ok(s.(escrow := Some(Escrow(a.owner, a.mint))))
  }

  // ------------------------------------------------------------------- Deposit

  /** The account constraints of Deposit hold: the escrow exists at its derived
      address, the user signed, the mint is the escrow's, the UserState address is
      the one derived from the user, and the two token accounts are the user's and
      the escrow's associated accounts for the mint (the user's must exist). */
  predicate DepositAccountsOk(s: State, a: UserAccounts, signers: set<Pubkey>): (ok: bool)
    ensures ok ==> Signed(a.user, signers) && a.escrow == EscrowPda
    ensures ok ==> s.escrow.Some? && a.mint == s.escrow.value.mint && a.userState == UserStatePda(a.user)
    ensures ok ==> a.userAta.Ata? && a.userAta.authority == a.user && a.userAta in s.tokens
    ensures ok ==> a.userDeposit.Ata? && a.userDeposit.authority == EscrowPda && a.userAta != a.userDeposit
    ensures ok ==> a.userAta == Ata(a.user, a.mint) && a.userDeposit == Custody(a.mint)
  {
    && s.escrow.Some?
    && Signed(a.user, signers)
    && a == AccountsFor(a.user, s.escrow.value.mint)
    && a.userAta in s.tokens
  }

  /** Moves `amount` from the user's token account into custody and credits it to
      the user's UserState, which is created at zero on the first deposit; the
      custody account is created empty when missing. Only the escrow's owner may
      deposit, and never more than the token account holds. */
  function Deposit(s: State, a: UserAccounts, signers: set<Pubkey>, amount: u64): (r: Result<State, Error>)
    ensures r.Ok? ==> DepositAccountsOk(s, a, signers)
    ensures r.Ok? ==> a.user == s.escrow.value.owner && amount <= s.tokens[a.userAta]
    ensures r.Ok? ==> r.value.escrow == s.escrow
    ensures r.Ok? ==> a.userState in r.value.userStates && Amount(r.value, a.user) == Amount(s, a.user) + amount
    ensures r.Ok? ==> r.value.userStates - {a.userState} == s.userStates - {a.userState}
    ensures r.Ok? ==> Balance(r.value.tokens, a.userAta) == Balance(s.tokens, a.userAta) - amount
    ensures r.Ok? ==> r.value.tokens.Keys == s.tokens.Keys + {a.userDeposit}
    ensures r.Ok? ==> a.userDeposit in r.value.tokens
    ensures r.Ok? ==> Balance(r.value.tokens, a.userDeposit) == Balance(s.tokens, a.userDeposit) + amount
    ensures r.Ok? ==> r.value.tokens - {a.userAta, a.userDeposit} == s.tokens - {a.userAta, a.userDeposit}
  {
    // the account constraints, in the order the accounts are listed
    if a.escrow != EscrowPda then Err(ConstraintSeeds)
    else if s.escrow.None? then Err(AccountNotInitialized)
    else if !Signed(a.user, signers) then Err(AccountNotSigner)
    else if a.mint != s.escrow.value.mint then Err(ConstraintRaw)
    else if a.userState != UserStatePda(a.user) then Err(ConstraintSeeds)
    else if a.userAta != Ata(a.user, a.mint) then Err(ConstraintAssociated)
    else if a.userAta !in s.tokens then Err(AccountNotInitialized)
    else if a.userDeposit != Custody(a.mint) then Err(ConstraintAssociated)
    else DepositHandler(InitIfNeeded(s, a), a, amount)
  }

  /** The accounts Deposit marks `init_if_needed`: the user's UserState, at zero,
      and the custody account, empty, when they do not exist yet. */
  function InitIfNeeded(s: State, a: UserAccounts): (r: State)
    ensures r.escrow == s.escrow
    ensures r.userStates.Keys == s.userStates.Keys + {a.userState}
    ensures r.tokens.Keys == s.tokens.Keys + {a.userDeposit}
    ensures forall k :: Recorded(r, k) == Recorded(s, k)
    ensures forall k :: Balance(r.tokens, k) == Balance(s.tokens, k)
  {
    s.(userStates := s.userStates[a.userState := Recorded(s, a.userState)],
       tokens := s.tokens[a.userDeposit := Balance(s.tokens, a.userDeposit)])
  }

  /** The body of the deposit handler, run on the accounts once they are checked and created. */
  function DepositHandler(s: State, a: UserAccounts, amount: u64): (r: Result<State, Error>)
    requires s.escrow.Some? && a.userState in s.userStates && a.userAta in s.tokens && a.userDeposit in s.tokens
    ensures s.escrow.value.owner != a.user ==> r == Err(Unauthorized)
    ensures s.escrow.value.owner == a.user && amount > s.tokens[a.userAta] ==> r == Err(Error.InsufficientFunds)
    ensures r.Ok? <==> && s.escrow.value.owner == a.user && amount <= s.tokens[a.userAta]
                       && s.userStates[a.userState] + amount <= U64_MAX
                       && TransferChecked(s.tokens, a.userAta, a.userDeposit, a.mint, a.user, amount).Ok?
    ensures r.Ok? ==> && r.value.escrow == s.escrow
                      && r.value.userStates == s.userStates[a.userState := s.userStates[a.userState] + amount]
                      && r.value.tokens == TransferChecked(s.tokens, a.userAta, a.userDeposit, a.mint, a.user, amount).value
  {
    if s.escrow.value.owner != a.user then Err(Unauthorized)
    else if amount > s.tokens[a.userAta] then Err(Error.InsufficientFunds)
    else if s.userStates[a.userState] + amount > U64_MAX then Err(ArithmeticOverflow)
    else
      match TransferChecked(s.tokens, a.userAta, a.userDeposit, a.mint, a.user, amount)
      case Err(e) => Err(TokenFailure(e))
      case Ok(t) => Ok(s.(userStates := s.userStates[a.userState := s.userStates[a.userState] + amount], tokens := t))
  }

  // ------------------------------------------------------------------ Withdraw

  /** The account constraints of Withdraw hold: as for Deposit, and besides the
      user's UserState account and the custody account must already exist. */
  predicate WithdrawAccountsOk(s: State, a: UserAccounts, signers: set<Pubkey>): (ok: bool)
    ensures ok ==> Signed(a.user, signers) && a.userState == UserStatePda(a.user) && a.userState in s.userStates
    ensures ok ==> a.userAta in s.tokens && a.userDeposit in s.tokens && a.userAta != a.userDeposit
  {
    && DepositAccountsOk(s, a, signers)
    && a.userState in s.userStates
    && a.userDeposit in s.tokens
  }

  /** Moves `amount` from custody back to the user's token account, under the
      escrow's own authority, and debits it from the UserState derived from the
      signer's key. Never more than that UserState records. */
  function Withdraw(s: State, a: UserAccounts, signers: set<Pubkey>, amount: u64): (r: Result<State, Error>)
    ensures r.Ok? ==> WithdrawAccountsOk(s, a, signers)
    ensures r.Ok? ==> amount <= Amount(s, a.user)
    ensures r.Ok? ==> r.value.escrow == s.escrow
    ensures r.Ok? ==> a.userState in r.value.userStates && Amount(r.value, a.user) == Amount(s, a.user) - amount
    ensures r.Ok? ==> r.value.userStates - {a.userState} == s.userStates - {a.userState}
    ensures r.Ok? ==> r.value.tokens.Keys == s.tokens.Keys
    ensures r.Ok? ==> r.value.tokens[a.userDeposit] == s.tokens[a.userDeposit] - amount
    ensures r.Ok? ==> r.value.tokens[a.userAta] == s.tokens[a.userAta] + amount
    ensures r.Ok? ==> r.value.tokens - {a.userAta, a.userDeposit} == s.tokens - {a.userAta, a.userDeposit}
  {
    // the account constraints, in the order the accounts are listed
    if a.escrow != EscrowPda then Err(ConstraintSeeds)
    else if s.escrow.None? then Err(AccountNotInitialized)
    else if !Signed(a.user, signers) then Err(AccountNotSigner)
    else if a.mint != s.escrow.value.mint then Err(ConstraintRaw)
    else if a.userState != UserStatePda(a.user) then Err(ConstraintSeeds)
    else if a.userState !in s.userStates then Err(AccountNotInitialized)
    else if a.userAta != Ata(a.user, a.mint) then Err(ConstraintAssociated)
    else if a.userAta !in s.tokens then Err(AccountNotInitialized)
    else if a.userDeposit != Custody(a.mint) then Err(ConstraintAssociated)
    else if a.userDeposit !in s.tokens then Err(AccountNotInitialized)
    // the handler
    else if amount > s.userStates[a.userState] then Err(Error.InsufficientFunds)
    else
      match TransferChecked(s.tokens, a.userDeposit, a.userAta, a.mint, EscrowPda, amount)
      case Err(e) => Err(TokenFailure(e))
      case Ok(t) => Ok(s.(userStates := s.userStates[a.userState := s.userStates[a.userState] - amount], tokens := t))
  }

  // ------------------------------------------------------------ the invariant

  /** Every token account is an associated token account. */
  ghost predicate TokensWellFormed(s: State)
  {
    forall k :: k in s.tokens ==> k.Ata?
  }

  /** What the accounts of any mint hold fits the mint's u64 supply. */
  ghost predicate SupplyBounded(s: State)
  {
    forall mint :: Supply(s.tokens, mint) <= U64_MAX
  }

  /** Before Initialize nobody has deposited, and no escrow-owned token account holds anything. */
  ghost predicate Pristine(s: State)
  {
    s.escrow.None? ==>
      && s.userStates == map[]
      && forall k :: k in s.tokens && k.Ata? && k.authority == EscrowPda ==> s.tokens[k] == 0
  }

  /** The central consistency invariant: the recorded deposits add up to the custody balance. */
  ghost predicate Conserved(s: State)
  {
    s.escrow.Some? ==> Sum(s.userStates) == Balance(s.tokens, Custody(s.escrow.value.mint))
  }

  ghost predicate Valid(s: State)
  {
    TokensWellFormed(s) && SupplyBounded(s) && Pristine(s) && Conserved(s)
  }

  // ------------------------------------------------------------------ traces

  datatype Instruction =
    | InitializeIx(initAccounts: InitializeAccounts)
    | DepositIx(accounts: UserAccounts, amount: u64)
    | WithdrawIx(accounts: UserAccounts, amount: u64)

  datatype Transaction = Transaction(ix: Instruction, signers: set<Pubkey>)

  /** The outcome of one transaction. */
  function Execute(s: State, tx: Transaction): Result<State, Error>
  {
    match tx.ix
    case InitializeIx(a) => Initialize(s, a, tx.signers)
    case DepositIx(a, n) => Deposit(s, a, tx.signers, n)
    case WithdrawIx(a, n) => Withdraw(s, a, tx.signers, n)
  }

  /** The state after a sequence of transactions; a failed one commits nothing. */
  function Run(s: State, txs: seq<Transaction>): State
    decreases |txs|
  {
    if txs == [] then s
    else
      var next := match Execute(s, txs[0]) case Ok(s') => s' case Err(_) => s;
      Run(next, txs[1..])
  }
}
