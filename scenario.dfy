/** The end-to-end run the repository's tests perform: the owner initialises the
    escrow, deposits 300 of their 1000 tokens (nine decimals), fails to withdraw
    400, withdraws 200, and a second key fails to withdraw on the owner's record. */
module Scenario {
  import opened Results
  import opened Addresses
  import opened Token
  import opened AnchorEscrow
  import opened Sums

  const Owner: Pubkey := Key(1)
  const Intruder: Pubkey := Key(2)
  const TheMint: Pubkey := Key(3)
  const Unit: nat := 1_000_000_000

  const Genesis: State := State(None, map[], map[Ata(Owner, TheMint) := 1000 * Unit])
  const OwnerAccounts: UserAccounts := AccountsFor(Owner, TheMint)

  /** Only the test's mint has accounts at the start. */
  lemma GenesisHeld(m: Pubkey)
    ensures OfMint(Genesis.tokens, m) == if m == TheMint then Genesis.tokens else map[]
  {
  }

  /** At the start the owner's 1000 tokens are all there is. */
  lemma GenesisTotal()
    ensures Sum(Genesis.tokens) == 1000 * Unit
  {
    SumRemove(Genesis.tokens, Ata(Owner, TheMint));
    assert Genesis.tokens - {Ata(Owner, TheMint)} == map[];
  }

  /** The test's starting chain satisfies the invariant. */
  lemma GenesisValid()
    ensures Valid(Genesis)
  {
    GenesisTotal();
    forall m ensures Supply(Genesis.tokens, m) <= U64_MAX {
      GenesisHeld(m);
    }
  }

  lemma EndToEnd()
    ensures Valid(Genesis)
    ensures Initialize(Genesis, InitializeAccounts(EscrowPda, TheMint, Owner), {Owner}).Ok?
    ensures var s1 := Initialize(Genesis, InitializeAccounts(EscrowPda, TheMint, Owner), {Owner}).value;
            && s1.escrow == Some(Escrow(Owner, TheMint))
            && Deposit(s1, OwnerAccounts, {Owner}, 300 * Unit).Ok?
            && var s2 := Deposit(s1, OwnerAccounts, {Owner}, 300 * Unit).value;
            && Amount(s2, Owner) == 300 * Unit
            && Balance(s2.tokens, Custody(TheMint)) == 300 * Unit
            && Balance(s2.tokens, Ata(Owner, TheMint)) == 700 * Unit
            && Withdraw(s2, OwnerAccounts, {Owner}, 400 * Unit) == Err(Error.InsufficientFunds)
            && Withdraw(s2, OwnerAccounts, {Owner}, 200 * Unit).Ok?
            && var s3 := Withdraw(s2, OwnerAccounts, {Owner}, 200 * Unit).value;
            && Amount(s3, Owner) == 100 * Unit
            && Balance(s3.tokens, Custody(TheMint)) == 100 * Unit
            && Balance(s3.tokens, Ata(Owner, TheMint)) == 900 * Unit
            // the intruder named as user, with the owner's accounts, signed by the owner
            && Withdraw(s3, OwnerAccounts.(user := Intruder), {Owner}, 200 * Unit) == Err(AccountNotSigner)
            // the intruder signing, but pointing at the owner's UserState
            && Withdraw(s3, OwnerAccounts.(user := Intruder), {Intruder}, 200 * Unit) == Err(ConstraintSeeds)
            // the intruder signing with their own accounts: they have no UserState
            && Withdraw(s3, AccountsFor(Intruder, TheMint), {Intruder}, 200 * Unit) == Err(AccountNotInitialized)
            // the intruder holds no token account of the mint, so a deposit cannot even load its accounts
            && Deposit(s3, AccountsFor(Intruder, TheMint), {Intruder}, 0) == Err(AccountNotInitialized)
  {
    GenesisValid();
  }
}
