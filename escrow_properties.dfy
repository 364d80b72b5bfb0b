/** What the three instructions guarantee together: the deposits recorded always
    add up to the custody balance, the owner's checks are the only way a
    well-formed request can fail, and a deposit is undone by an equal withdrawal. */
module EscrowProperties {
  import opened Results
  import opened Addresses
  import opened Token
  import opened Sums
  import opened AnchorEscrow

  // ---------------------------------------------------------------- Initialize

  lemma InitializePreservesValid(s: State, a: InitializeAccounts, signers: set<Pubkey>)
    requires Valid(s)
    requires Initialize(s, a, signers).Ok?
    ensures Valid(Initialize(s, a, signers).value)
  {
  }

  /** A second Initialize always fails, whatever accounts and signers it brings. */
  lemma InitializeOnce(s: State, a: InitializeAccounts, signers: set<Pubkey>, a2: InitializeAccounts, signers2: set<Pubkey>)
    requires Initialize(s, a, signers).Ok?
    ensures Initialize(Initialize(s, a, signers).value, a2, signers2).Err?
  {
  }

  // ------------------------------------------------------------------- Deposit

  /** Under the invariant, what a user has recorded plus what any other account of
      the mint holds fits in a u64. */
  lemma RecordedPlusHeldFits(s: State, user: Pubkey, k: Pubkey)
    requires Valid(s) && s.escrow.Some?
    requires k in s.tokens && k.mint == s.escrow.value.mint && k != Custody(s.escrow.value.mint)
    ensures Amount(s, user) + s.tokens[k] <= U64_MAX
    ensures Balance(s.tokens, Custody(s.escrow.value.mint)) + s.tokens[k] <= U64_MAX
  {
    var mint := s.escrow.value.mint;
    if UserStatePda(user) in s.userStates {
      SumBoundsEntry(s.userStates, UserStatePda(user));
    }
    if Custody(mint) in s.tokens {
      SupplyBoundsPair(s.tokens, k, Custody(mint), mint);
    }
    assert Supply(s.tokens, mint) <= U64_MAX;
  }

  /** Deposit by the owner, with well-formed accounts and enough tokens, succeeds:
      under the invariant neither the u64 increment nor the transfer can fail. */
  lemma DepositSucceeds(s: State, a: UserAccounts, signers: set<Pubkey>, amount: u64)
    requires Valid(s)
    requires DepositAccountsOk(s, a, signers)
    requires a.user == s.escrow.value.owner && amount <= s.tokens[a.userAta]
    ensures Deposit(s, a, signers, amount).Ok?
  {
    RecordedPlusHeldFits(s, a.user, a.userAta);
    var tokens := s.tokens[a.userDeposit := Balance(s.tokens, a.userDeposit)];
    assert tokens[a.userDeposit] + amount <= U64_MAX;
    assert TransferChecked(tokens, a.userAta, a.userDeposit, a.mint, a.user, amount).Ok?;
  }

  /** How Deposit fails: a bad account list is rejected before the handler runs,
      anyone but the owner gets Unauthorized, and an amount above the user's token
      balance gets InsufficientFunds. */
  lemma DepositRejects(s: State, a: UserAccounts, signers: set<Pubkey>, amount: u64)
    ensures !DepositAccountsOk(s, a, signers) ==>
              Deposit(s, a, signers, amount).Err? && IsConstraintError(Deposit(s, a, signers, amount).error)
    ensures DepositAccountsOk(s, a, signers) && a.user != s.escrow.value.owner ==>
              Deposit(s, a, signers, amount) == Err(Unauthorized)
    ensures DepositAccountsOk(s, a, signers) && a.user == s.escrow.value.owner && amount > s.tokens[a.userAta] ==>
              Deposit(s, a, signers, amount) == Err(Error.InsufficientFunds)
  {
  }

  /** Creating the deposit's missing accounts at zero changes no total. */
  lemma InitIfNeededConserves(s: State, a: UserAccounts)
    requires a.userDeposit.Ata?
    ensures Sum(InitIfNeeded(s, a).userStates) == Sum(s.userStates)
    ensures forall m :: Supply(InitIfNeeded(s, a).tokens, m) == Supply(s.tokens, m)
  {
    SumUpdate(s.userStates, a.userState, Recorded(s, a.userState));
    forall m ensures Supply(InitIfNeeded(s, a).tokens, m) == Supply(s.tokens, m) {
      SupplyUpdate(s.tokens, a.userDeposit, Balance(s.tokens, a.userDeposit), m);
    }
  }

  /** The deposit handler raises the recorded total and the destination account by
      the amount, and leaves every mint's total unchanged. */
  lemma DepositHandlerConserves(s: State, a: UserAccounts, amount: u64)
    requires s.escrow.Some? && a.userState in s.userStates && a.userAta in s.tokens && a.userDeposit in s.tokens
    requires a.userAta != a.userDeposit
    requires DepositHandler(s, a, amount).Ok?
    ensures Sum(DepositHandler(s, a, amount).value.userStates) == Sum(s.userStates) + amount
    ensures DepositHandler(s, a, amount).value.tokens[a.userDeposit] == s.tokens[a.userDeposit] + amount
    ensures forall m :: Supply(DepositHandler(s, a, amount).value.tokens, m) == Supply(s.tokens, m)
  {
    SumUpdate(s.userStates, a.userState, s.userStates[a.userState] + amount);
    TransferConserves(s.tokens, a.userAta, a.userDeposit, a.mint, a.user, amount);
  }

  lemma DepositPreservesValid(s: State, a: UserAccounts, signers: set<Pubkey>, amount: u64)
    requires Valid(s)
    requires Deposit(s, a, signers, amount).Ok?
    ensures Valid(Deposit(s, a, signers, amount).value)
    ensures forall m :: Supply(Deposit(s, a, signers, amount).value.tokens, m) == Supply(s.tokens, m)
  {
    var s1 := InitIfNeeded(s, a);
    InitIfNeededConserves(s, a);
    assert Deposit(s, a, signers, amount) == DepositHandler(s1, a, amount);
    DepositHandlerConserves(s1, a, amount);
  }

  // ------------------------------------------------------------------ Withdraw

  /** Withdraw with well-formed accounts and an amount within the user's record
      succeeds: under the invariant custody always covers the record. */
  lemma WithdrawSucceeds(s: State, a: UserAccounts, signers: set<Pubkey>, amount: u64)
    requires Valid(s)
    requires WithdrawAccountsOk(s, a, signers)
    requires amount <= Amount(s, a.user)
    ensures Withdraw(s, a, signers, amount).Ok?
  {
    RecordedPlusHeldFits(s, a.user, a.userAta);
    SumBoundsEntry(s.userStates, a.userState);
    assert TransferChecked(s.tokens, a.userDeposit, a.userAta, a.mint, EscrowPda, amount).Ok?;
  }

  /** How Withdraw fails: a bad account list (someone else's UserState, a missing
      signature, a wrong mint, an account never created) is rejected before the
      handler runs, and an amount above the record gets InsufficientFunds. */
  lemma WithdrawRejects(s: State, a: UserAccounts, signers: set<Pubkey>, amount: u64)
    ensures !WithdrawAccountsOk(s, a, signers) ==>
              Withdraw(s, a, signers, amount).Err? && IsConstraintError(Withdraw(s, a, signers, amount).error)
    ensures WithdrawAccountsOk(s, a, signers) && amount > Amount(s, a.user) ==>
              Withdraw(s, a, signers, amount) == Err(Error.InsufficientFunds)
  {
  }

  lemma WithdrawPreservesValid(s: State, a: UserAccounts, signers: set<Pubkey>, amount: u64)
    requires Valid(s)
    requires Withdraw(s, a, signers, amount).Ok?
    ensures Valid(Withdraw(s, a, signers, amount).value)
    ensures forall m :: Supply(Withdraw(s, a, signers, amount).value.tokens, m) == Supply(s.tokens, m)
  {
    TransferConserves(s.tokens, a.userDeposit, a.userAta, a.mint, EscrowPda, amount);
    SumUpdate(s.userStates, a.userState, s.userStates[a.userState] - amount);
  }

  // ---------------------------------------------------------------- round trip

  /** Withdrawing what was just deposited succeeds and puts every balance and every
      recorded amount back (a UserState created by the deposit stays, at zero). */
  lemma DepositThenWithdraw(s: State, a: UserAccounts, signers: set<Pubkey>, amount: u64)
    requires Deposit(s, a, signers, amount).Ok?
    ensures Withdraw(Deposit(s, a, signers, amount).value, a, signers, amount).Ok?
    ensures var s2 := Withdraw(Deposit(s, a, signers, amount).value, a, signers, amount).value;
            && s2.escrow == s.escrow
            && (forall k :: Balance(s2.tokens, k) == Balance(s.tokens, k))
            && s2.userStates == s.userStates[a.userState := Amount(s, a.user)]
            && (forall u :: Amount(s2, u) == Amount(s, u))
  {
  }

  // ------------------------------------------------------------------ traces

  lemma ExecutePreservesValid(s: State, tx: Transaction)
    requires Valid(s)
    requires Execute(s, tx).Ok?
    ensures Valid(Execute(s, tx).value)
    ensures forall m :: Supply(Execute(s, tx).value.tokens, m) == Supply(s.tokens, m)
  {
    match tx.ix
    case InitializeIx(a) => InitializePreservesValid(s, a, tx.signers);
    case DepositIx(a, n) => DepositPreservesValid(s, a, tx.signers, n);
    case WithdrawIx(a, n) => WithdrawPreservesValid(s, a, tx.signers, n);
  }

  /** Every state reachable from a valid one is valid, and no sequence of
      instructions creates or destroys tokens of any mint. */
  lemma {:induction false} RunPreservesValid(s: State, txs: seq<Transaction>)
    requires Valid(s)
    ensures Valid(Run(s, txs))
    ensures forall m :: Supply(Run(s, txs).tokens, m) == Supply(s.tokens, m)
    decreases |txs|
  {
    if txs != [] {
      var next := match Execute(s, txs[0]) case Ok(s') => s' case Err(_) => s;
      if Execute(s, txs[0]).Ok? {
        ExecutePreservesValid(s, txs[0]);
      }
      RunPreservesValid(next, txs[1..]);
    }
  }
}
