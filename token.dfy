/** The part of the token program the escrow relies on: token account balances
    and the checked transfer between two accounts of the same mint. */
module Token {
  import opened Results
  import opened Addresses
  import opened Sums

  const U64_MAX: int := 0xFFFF_FFFF_FFFF_FFFF

  /** An unsigned 64-bit amount. */
  type u64 = x: int | 0 <= x <= U64_MAX

  /** Balances of the existing token accounts, by address. */
  type Balances = map<Pubkey, u64>

  datatype TokenError = InsufficientFunds | MintMismatch | OwnerMismatch | Overflow

  /** The balance at `k`, counting an account that does not exist yet as empty. */
  function Balance(t: Balances, k: Pubkey): u64
  {
    if k in t then t[k] else 0
  }

  /** The associated token accounts of `mint`. */
  ghost function OfMint(t: Balances, mint: Pubkey): map<Pubkey, nat>
  {
    map k | k in t && k.Ata? && k.mint == mint :: t[k]
  }

  /** Everything held in accounts of `mint`; the mint's supply bounds it. */
  ghost function Supply(t: Balances, mint: Pubkey): nat
  {
    Sum(OfMint(t, mint))
  }

  /** transfer_checked: move `amount` of `mint` from `from` to `to`, authorised by
      `authority`, which must own the source account. */
  function TransferChecked(t: Balances, from: Pubkey, to: Pubkey, mint: Pubkey, authority: Pubkey, amount: u64)
    : (r: Result<Balances, TokenError>)
    requires from in t && to in t
    ensures r.Ok? ==> amount <= t[from] && from.Ata? && from.authority == authority
    ensures r.Ok? ==> from.mint == mint && to.Ata? && to.mint == mint
    ensures r.Ok? ==> r.value.Keys == t.Keys
    ensures r.Ok? && from == to ==> r.value == t
    ensures r.Ok? && from != to ==> r.value[from] == t[from] - amount && r.value[to] == t[to] + amount
    ensures r.Ok? ==> r.value - {from, to} == t - {from, to}
  {
    if t[from] < amount then Err(InsufficientFunds)
    else if !(from.Ata? && to.Ata? && from.mint == mint && to.mint == mint) then Err(MintMismatch)
    else if from.authority != authority then Err(OwnerMismatch)
    else if from == to then Ok(t)
    else if t[to] + amount > U64_MAX then Err(Overflow)
    else Ok(t[from := t[from] - amount][to := t[to] + amount])
  }

  /** Writing one associated token account changes only its own mint's supply, by the difference. */
  lemma SupplyUpdate(t: Balances, k: Pubkey, v: u64, mint: Pubkey)
    requires k.Ata?
    ensures Supply(t[k := v], mint)
            == Supply(t, mint) - (if k in t && k.mint == mint then t[k] else 0) + (if k.mint == mint then v else 0)
  {
    if k.mint == mint {
      OfMintUpdate(t, k, v);
      SumUpdate(OfMint(t, mint), k, v);
    } else {
      OfMintUpdateOther(t, k, v, mint);
    }
  }

  /** Writing an account of `k`'s own mint writes the same entry of that mint's accounts. */
  lemma OfMintUpdate(t: Balances, k: Pubkey, v: u64)
    requires k.Ata?
    ensures OfMint(t[k := v], k.mint) == OfMint(t, k.mint)[k := v]
  {
  }

  /** Writing an account of another mint leaves `mint`'s accounts as they were. */
  lemma OfMintUpdateOther(t: Balances, k: Pubkey, v: u64, mint: Pubkey)
    requires k.Ata? && k.mint != mint
    ensures OfMint(t[k := v], mint) == OfMint(t, mint)
  {
  }

  /** Two distinct accounts of one mint together hold at most its supply. */
  lemma SupplyBoundsPair(t: Balances, j: Pubkey, k: Pubkey, mint: Pubkey)
    requires j in t && k in t && j != k
    requires j.Ata? && j.mint == mint && k.Ata? && k.mint == mint
    ensures t[j] + t[k] <= Supply(t, mint)
  {
    SumBoundsPair(OfMint(t, mint), j, k);
  }

  /** A transfer creates and destroys nothing: every mint's supply is unchanged. */
  lemma TransferConserves(t: Balances, from: Pubkey, to: Pubkey, mint: Pubkey, authority: Pubkey, amount: u64)
    requires from in t && to in t
    requires TransferChecked(t, from, to, mint, authority, amount).Ok?
    ensures forall m :: Supply(TransferChecked(t, from, to, mint, authority, amount).value, m) == Supply(t, m)
  {
    if from != to {
      var t1 := t[from := t[from] - amount];
      forall m ensures Supply(t1[to := t[to] + amount], m) == Supply(t, m) {
        SupplyUpdate(t, from, t[from] - amount, m);
        SupplyUpdate(t1, to, t[to] + amount, m);
      }
    }
  }
}
