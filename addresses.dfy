/** Account addresses. On chain every address is a 32-byte public key; here the
    addresses the program derives are kept apart as constructors, so that each
    derivation is injective and never yields a key that someone could sign for. */
module Addresses {

  datatype Pubkey =
      /** The public key of an ordinary key pair: a wallet or a mint. */
    | Key(id: nat)
      /** The escrow's program-derived address, from the single seed "Escrow". */
    | EscrowPda
      /** A depositor's program-derived UserState address, from "UserState" and the depositor's key. */
    | UserStatePda(user: Pubkey)
      /** The associated token account of an authority for a mint. */
    | Ata(authority: Pubkey, mint: Pubkey)

  /** Whether `k` signed the transaction. A program-derived address has no private
      key, so only an ordinary key can appear as a verified signer. */
  predicate Signed(k: Pubkey, signers: set<Pubkey>)
  {
    k.Key? && k in signers
  }
}
