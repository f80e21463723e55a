/**
 * The proof-of-existence pallet of lesson6/pallets/poe/src/lib.rs: a map from
 * claims (byte strings) to the account that owns each claim and the block at
 * which it was stored, with guarded create, revoke and transfer calls.
 *
 * The current block number is a parameter of each call.
 */
module ProofOfExistence {
  import opened Results

  datatype Error = ClaimAlreadyExist | ClaimNotExist | NotClaimOwner | ClaimTooShort | ClaimTooLong

  type Claim = seq<bv8>

  /** What `Proofs` stores for a claim: its owner and the block it was stored at. */
  datatype Proof<A> = Proof(owner: A, block: nat)

  /** The `Proofs` storage map with the configured claim length bounds. */
  class ClaimStore<A(==)> {
    /** `ClaimMinLength`. */
    const minLength: nat
    /** `ClaimMaxLength`. */
    const maxLength: nat
    /** `Proofs`. */
    var proofs: map<Claim, Proof<A>>

    /** Every stored claim has an accepted length. */
    ghost predicate Valid()
      reads this
    {
      forall c :: c in proofs ==> minLength <= |c| <= maxLength
    }

    constructor (minLength: nat, maxLength: nat)
      ensures this.minLength == minLength && this.maxLength == maxLength
      ensures proofs == map[] && Valid()
    {
      this.minLength := minLength;
      this.maxLength := maxLength;
      proofs := map[];
    }

    /** `create_claim`: store `claim` for `sender` at block `now`. */
    method CreateClaim(sender: A, claim: Claim, now: nat) returns (r: Outcome<Error>)
      requires Valid()
      modifies this
      ensures Valid()
      ensures |claim| < minLength ==> r == Fail(ClaimTooShort)
      ensures minLength <= |claim| && maxLength < |claim| ==> r == Fail(ClaimTooLong)
      ensures minLength <= |claim| <= maxLength && claim in old(proofs) ==> r == Fail(ClaimAlreadyExist)
      ensures minLength <= |claim| <= maxLength && claim !in old(proofs) ==> r == Pass
      ensures proofs == if r.Pass? then old(proofs)[claim := Proof(sender, now)] else old(proofs)
    {
      if |claim| < minLength {
        return Fail(ClaimTooShort);
      }
      if |claim| > maxLength {
        return Fail(ClaimTooLong);
      }
      if claim in proofs {
        return Fail(ClaimAlreadyExist);
      }
      proofs := proofs[claim := Proof(sender, now)];
      r := Pass;
    }

    /** `revoke_claim`: the owner of `claim` deletes it. */
    method RevokeClaim(sender: A, claim: Claim) returns (r: Outcome<Error>)
      requires Valid()
      modifies this
      ensures Valid()
      ensures claim !in old(proofs) ==> r == Fail(ClaimNotExist)
      ensures claim in old(proofs) && old(proofs)[claim].owner != sender ==> r == Fail(NotClaimOwner)
      ensures claim in old(proofs) && old(proofs)[claim].owner == sender ==> r == Pass
      ensures proofs == if r.Pass? then old(proofs) - {claim} else old(proofs)
    {
      if claim !in proofs {
        return Fail(ClaimNotExist);
      }
      var owner := proofs[claim].owner;
      if owner != sender {
        return Fail(NotClaimOwner);
      }
      proofs := proofs - {claim};
      r := Pass;
    }

    /** `transfer_claim`: the owner of `claim` hands it to `receiver`, restamped with block `now`. */
    method TransferClaim(sender: A, receiver: A, claim: Claim, now: nat) returns (r: Outcome<Error>)
      requires Valid()
      modifies this
      ensures Valid()
      ensures claim !in old(proofs) ==> r == Fail(ClaimNotExist)
      ensures claim in old(proofs) && old(proofs)[claim].owner != sender ==> r == Fail(NotClaimOwner)
      ensures claim in old(proofs) && old(proofs)[claim].owner == sender ==> r == Pass
      ensures proofs == if r.Pass? then old(proofs)[claim := Proof(receiver, now)] else old(proofs)
    {
      if claim !in proofs {
        return Fail(ClaimNotExist);
      }
      var owner := proofs[claim].owner;
      if owner != sender {
        return Fail(NotClaimOwner);
      }
      proofs := proofs - {claim};
      proofs := proofs[claim := Proof(receiver, now)];
      r := Pass;
    }

    /**
     * `create_claim` then `revoke_claim` by the same account: a create that
     * succeeds is undone.  A create that fails leaves the revoke to act alone,
     * and it deletes a claim the account already held.
     */
    method CreateThenRevoke(sender: A, claim: Claim, now: nat) returns (created: Outcome<Error>, revoked: Outcome<Error>)
      requires Valid()
      modifies this
      ensures Valid()
      ensures created.Pass? ==> revoked == Pass && proofs == old(proofs)
      ensures created.Fail? && claim in old(proofs) && old(proofs)[claim].owner == sender ==>
                revoked == Pass && proofs == old(proofs) - {claim}
      ensures created.Fail? && !(claim in old(proofs) && old(proofs)[claim].owner == sender) ==>
                revoked.Fail? && proofs == old(proofs)
    {
      created := CreateClaim(sender, claim, now);
      revoked := RevokeClaim(sender, claim);
    }
  }

  /** The claim the expectations below use, of length 5. */
  const SampleClaim: Claim := [0, 1, 2, 4, 5]

  /**
   * The expectations on `create_claim`, with bounds under which a claim of
   * length 2 is too short, one of length 17 too long and one of length 5 accepted.
   */
  method CreateExpectations(minLength: nat, maxLength: nat, now: nat)
    returns (created: Outcome<Error>, stored: Option<Proof<int>>, again: Outcome<Error>,
             short: Outcome<Error>, long: Outcome<Error>)
    requires 2 < minLength <= 5 <= maxLength < 17
    ensures created == Pass && stored == Some(Proof(1, now))
    ensures again == Fail(ClaimAlreadyExist)
    ensures short == Fail(ClaimTooShort) && long == Fail(ClaimTooLong)
  {
    var store := new ClaimStore<int>(minLength, maxLength);
    created := store.CreateClaim(1, SampleClaim, now);
    stored := if SampleClaim in store.proofs then Some(store.proofs[SampleClaim]) else None;
    again := store.CreateClaim(1, SampleClaim, now);
    var empty := new ClaimStore<int>(minLength, maxLength);
    short := empty.CreateClaim(1, [0, 1], now);
    long := empty.CreateClaim(1, [0, 1, 2, 3, 4, 5, 6, 7, 8, 9, 10, 11, 12, 13, 14, 15, 16], now);
  }

  /** The expectations on `revoke_claim`. */
  method RevokeExpectations(minLength: nat, maxLength: nat, now: nat)
    returns (revoked: Outcome<Error>, absent: Outcome<Error>, notOwner: Outcome<Error>)
    requires minLength <= 5 <= maxLength
    ensures revoked == Pass
    ensures absent == Fail(ClaimNotExist)
    ensures notOwner == Fail(NotClaimOwner)
  {
    var store := new ClaimStore<int>(minLength, maxLength);
    var _ := store.CreateClaim(1, SampleClaim, now);
    revoked := store.RevokeClaim(1, SampleClaim);
    var empty := new ClaimStore<int>(minLength, maxLength);
    absent := empty.RevokeClaim(1, SampleClaim);
    var other := new ClaimStore<int>(minLength, maxLength);
    var _ := other.CreateClaim(1, SampleClaim, now);
    notOwner := other.RevokeClaim(2, SampleClaim);
  }

  /** The expectations on `transfer_claim`. */
  method TransferExpectations(minLength: nat, maxLength: nat, now: nat)
    returns (transferred: Outcome<Error>, stored: Option<Proof<int>>, notOwner: Outcome<Error>, absent: Outcome<Error>)
    requires minLength <= 5 <= maxLength
    ensures transferred == Pass && stored == Some(Proof(2, now))
    ensures notOwner == Fail(NotClaimOwner)
    ensures absent == Fail(ClaimNotExist)
  {
    var store := new ClaimStore<int>(minLength, maxLength);
    var _ := store.CreateClaim(1, SampleClaim, now);
    transferred := store.TransferClaim(1, 2, SampleClaim, now);
    stored := if SampleClaim in store.proofs then Some(store.proofs[SampleClaim]) else None;
    var other := new ClaimStore<int>(minLength, maxLength);
    var _ := other.CreateClaim(1, SampleClaim, now);
    notOwner := other.TransferClaim(3, 2, SampleClaim, now);
    var empty := new ClaimStore<int>(minLength, maxLength);
    absent := empty.TransferClaim(1, 2, SampleClaim, now);
  }
}
