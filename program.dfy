/** The program's accounts as mutable state, and the three instruction handlers
    as methods that update them in the order the program does: accounts created by
    `init_if_needed` and the UserState amount are written before the token
    transfer runs, and when any later step fails the runtime restores every
    account to what it held before the instruction. */
module Program {
  import opened Results
  import opened Addresses
  import opened Token
  import opened AnchorEscrow
  import EscrowProperties

  class Ledger {
    var escrow: Option<Escrow>
    var userStates: map<Pubkey, u64>
    var tokens: Balances

    function View(): State
      reads this
    {
      State(escrow, userStates, tokens)
    }

    ghost predicate Valid()
      reads this
    {
      AnchorEscrow.Valid(View())
    }

    /** A chain on which the escrow has not been initialised yet: every token
        account is an associated one, no mint's accounts hold more than a u64, and
        no escrow-owned account holds anything. */
    constructor (tokens: Balances)
      requires AnchorEscrow.Valid(State(None, map[], tokens))
      ensures View() == State(None, map[], tokens)
      ensures Valid()
    {
      this.escrow := None;
      this.userStates := map[];
      this.tokens := tokens;
    }

    /** The runtime discarding a failed instruction's writes. */
    method Rollback(before: State)
      modifies this
      ensures View() == before
    {
      escrow, userStates, tokens := before.escrow, before.userStates, before.tokens;
    }

    /** The token program's transfer_checked; it fails as a whole or not at all. */
    method Transfer(from: Pubkey, to: Pubkey, mint: Pubkey, authority: Pubkey, amount: u64)
      returns (r: Outcome<TokenError>)
      requires from in tokens && to in tokens
      modifies this
      ensures escrow == old(escrow) && userStates == old(userStates)
      ensures match TransferChecked(old(tokens), from, to, mint, authority, amount)
              case Ok(t) => r == Pass && tokens == t
              case Err(e) => r == Fail(e) && tokens == old(tokens)
    {
      if tokens[from] < amount { return Fail(TokenError.InsufficientFunds); }
      if !(from.Ata? && to.Ata? && from.mint == mint && to.mint == mint) { return Fail(MintMismatch); }
      if from.authority != authority { return Fail(OwnerMismatch); }
      if from == to { return Pass; }
      if tokens[to] + amount > U64_MAX { return Fail(Overflow); }
      tokens := tokens[from := tokens[from] - amount];
      tokens := tokens[to := tokens[to] + amount];
      r := Pass;
    }

    method Initialize(a: InitializeAccounts, signers: set<Pubkey>) returns (r: Outcome<Error>)
      modifies this
      ensures var res := AnchorEscrow.Initialize(old(View()), a, signers);
              && (res.Ok? ==> r == Pass && View() == res.value)
              && (res.Err? ==> r == Fail(res.error) && View() == old(View()))
      ensures old(Valid()) ==> Valid()
    {
      if !Signed(a.owner, signers) { return Fail(AccountNotSigner); }
      if a.escrow != EscrowPda { return Fail(ConstraintSeeds); }
      if escrow.Some? { return Fail(AccountAlreadyInUse); }
      escrow := Some(Escrow(a.owner, a.mint));
      r := Pass;
      if old(Valid()) {
        EscrowProperties.InitializePreservesValid(old(View()), a, signers);
      }
    }

    method Deposit(a: UserAccounts, signers: set<Pubkey>, amount: u64) returns (r: Outcome<Error>)
      modifies this
      ensures var res := AnchorEscrow.Deposit(old(View()), a, signers, amount);
              && (res.Ok? ==> r == Pass && View() == res.value)
              && (res.Err? ==> r == Fail(res.error) && View() == old(View()))
      ensures old(Valid()) ==> Valid()
    {
      var before := View();
      if a.escrow != EscrowPda { return Fail(ConstraintSeeds); }
      if escrow.None? { return Fail(AccountNotInitialized); }
      if !Signed(a.user, signers) { return Fail(AccountNotSigner); }
      if a.mint != escrow.value.mint { return Fail(ConstraintRaw); }
      if a.userState != UserStatePda(a.user) { return Fail(ConstraintSeeds); }
      if a.userState !in userStates {
        userStates := userStates[a.userState := 0];
      }
      if a.userAta != Ata(a.user, a.mint) { Rollback(before); return Fail(ConstraintAssociated); }
      if a.userAta !in tokens { Rollback(before); return Fail(AccountNotInitialized); }
      if a.userDeposit != Custody(a.mint) { Rollback(before); return Fail(ConstraintAssociated); }
      if a.userDeposit !in tokens {
        tokens := tokens[a.userDeposit := 0];
      }

      assert View() == InitIfNeeded(before, a);
      r := DepositHandler(a, amount);
      if r.Fail? {
        Rollback(before);
        return;
      }
      if old(Valid()) {
        EscrowProperties.DepositPreservesValid(old(View()), a, signers, amount);
      }
    }

    /** The deposit handler proper: it raises the user's amount, then transfers. */
    method DepositHandler(a: UserAccounts, amount: u64) returns (r: Outcome<Error>)
      requires escrow.Some? && a.userState in userStates && a.userAta in tokens && a.userDeposit in tokens
      modifies this
      ensures escrow == old(escrow)
      ensures match AnchorEscrow.DepositHandler(old(View()), a, amount)
              case Ok(s') => r == Pass && View() == s'
              case Err(e) => r == Fail(e)
    {
      var userBalance := tokens[a.userAta];
      if escrow.value.owner != a.user { return Fail(Unauthorized); }
      if amount > userBalance { return Fail(Error.InsufficientFunds); }
      if userStates[a.userState] + amount > U64_MAX { return Fail(ArithmeticOverflow); }
      userStates := userStates[a.userState := userStates[a.userState] + amount];
      var moved := Transfer(a.userAta, a.userDeposit, a.mint, a.user, amount);
      if moved.Fail? { return Fail(TokenFailure(moved.error)); }
      r := Pass;
    }

    method Withdraw(a: UserAccounts, signers: set<Pubkey>, amount: u64) returns (r: Outcome<Error>)
      modifies this
      ensures var res := AnchorEscrow.Withdraw(old(View()), a, signers, amount);
              && (res.Ok? ==> r == Pass && View() == res.value)
              && (res.Err? ==> r == Fail(res.error) && View() == old(View()))
      ensures old(Valid()) ==> Valid()
    {
      var before := View();
      if a.escrow != EscrowPda { return Fail(ConstraintSeeds); }
      if escrow.None? { return Fail(AccountNotInitialized); }
      if !Signed(a.user, signers) { return Fail(AccountNotSigner); }
      if a.mint != escrow.value.mint { return Fail(ConstraintRaw); }
      if a.userState != UserStatePda(a.user) { return Fail(ConstraintSeeds); }
      if a.userState !in userStates { return Fail(AccountNotInitialized); }
      if a.userAta != Ata(a.user, a.mint) { return Fail(ConstraintAssociated); }
      if a.userAta !in tokens { return Fail(AccountNotInitialized); }
      if a.userDeposit != Custody(a.mint) { return Fail(ConstraintAssociated); }
      if a.userDeposit !in tokens { return Fail(AccountNotInitialized); }

      if amount > userStates[a.userState] { return Fail(Error.InsufficientFunds); }
      userStates := userStates[a.userState := userStates[a.userState] - amount];
      var moved := Transfer(a.userDeposit, a.userAta, a.mint, EscrowPda, amount);
      if moved.Fail? { Rollback(before); return Fail(TokenFailure(moved.error)); }
      r := Pass;
      if old(Valid()) {
        EscrowProperties.WithdrawPreservesValid(old(View()), a, signers, amount);
      }
    }
  }
}
