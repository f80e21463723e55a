# Kitties, linked lists and proofs of existence in Dafny

This project models three Substrate pallets from a tutorial repository and proves properties of the models.

- **The storage-backed doubly linked list** (`link.rs`, module `LinkedList`).
  - One storage map holds a list per key. The node of element `v` in list `k` is stored under `(k, Some(v))`.
  - The slot `(k, None)` is a sentinel. Its `next` is the head and its `prev` is the tail.
  - `append` puts an element at the head. `remove` splices an element out using only the element's own links.
  - The class `LinkedStore` holds the storage map as a field. A ghost map records the list each key holds.
  - The pure functions `Appended` and `Removed` give the map after each operation, slot by slot, with reads that see earlier writes.
  - The lemmas prove that a well-formed list stays well formed under `append` of a non-member and `remove` of a member. The list becomes `[v] + s` and `s` without `v` respectively.
- **The kitties pallet** (`lesson2_kitties/.../lib.rs`, module `Kitties`). The class `Kitties` holds:
  - the kitty map and the kitty counter;
  - the owned-kitties index (a `LinkedStore` keyed by account);
  - the owner map and the price map;
  - the parents, mates and children indices (`LinkedStore`s keyed by kitty);
  - an abstract currency ledger.

  Its invariant `Valid` states that the maps agree with the counter, that every kitty sits in exactly its owner's list, and that the relation indices are well-formed lists naming existing kitties. Every state-changing call preserves it.
- **The proof-of-existence pallet** (`lesson6/.../lib.rs`, module `ProofOfExistence`).
  - The class `ClaimStore` holds the `Proofs` map from claim bytes to an owner and a block number.
  - Each call's contract gives its errors in the order the source checks them, and the exact new map.
  - The expectations of the pallet's unit tests are restated as methods with postconditions.

Inputs that the pallets get from the runtime become parameters:
- the block number;
- the random DNA of `create`;
- the random selector of `do_breed`.

Module `Results` holds the `Option`, `Result` and `Outcome` datatypes. `Outcome` stands for `DispatchResult`.

## Model

| member | source | states |
|---|---|---|
| LinkedList.ItemAt | lesson3/node/pallets/kitties/src/link.rs:27-32 | `read` returns the stored node, and `{None, None}` for an empty slot |
| LinkedList.UnwrittenListIsEmpty | lesson3/node/pallets/kitties/src/link.rs:27-32 | an absent slot reads as `{None, None}`, so a key with no stored slot holds the empty list |
| LinkedList.Appended | lesson3/node/pallets/kitties/src/link.rs:38-69 | empty list: `v` gets `{None, None}` and the sentinel gets `{v, v}`; otherwise `v` gets `{None, old head}`, the old head gets `prev := v` and keeps its `next`, and the sentinel gets `next := v` and keeps its tail; only those three slots change |
| LinkedList.Removed | lesson3/node/pallets/kitties/src/link.rs:71-85 | the predecessor slot (or the sentinel) gets `next := v.next` and keeps its `prev`; the successor slot (or the sentinel) gets `prev := v.prev` and keeps its `next`; no other slot changes, no slot is deleted; an element without a node resets the sentinel to `{None, None}` |
| LinkedList.ListKept | lesson3/node/pallets/kitties/src/link.rs:34-36 | writes under other keys leave a key's list intact |
| LinkedList.WalkYieldsList | lesson3/node/pallets/kitties/src/link.rs:7-10 | following `next` links from the sentinel's head visits exactly the list, in order |
| LinkedList.WalkBackYieldsReverse | lesson3/node/pallets/kitties/src/link.rs:7-10 | following `prev` links from the sentinel's tail visits the list in reverse |
| LinkedList.ListUnique | lesson3/node/pallets/kitties/src/link.rs:7-10 | a store holds at most one well-formed list per key |
| LinkedList.PointersReciprocal | lesson3/node/pallets/kitties/src/link.rs:7-10 | in a well-formed list, `x.next == y` implies `y.prev == x`, and `x.prev == y` implies `y.next == x` |
| LinkedList.AppendedKeepsList | lesson3/node/pallets/kitties/src/link.rs:38-69 | appending a non-member to a well-formed list gives the well-formed list `[v] + s` (the single-element case goes through the empty-list branch) |
| LinkedList.RemovedKeepsList | lesson3/node/pallets/kitties/src/link.rs:71-85 | removing the member at position `i` gives the well-formed list `s[..i] + s[i+1..]`; removing the only element leaves the sentinel `{None, None}`, because the second read sees the first write |
| LinkedList.RemovedKeepsOwnNode | lesson3/node/pallets/kitties/src/link.rs:71-85 | after `remove(v)` the slot `(k, Some(v))` is still stored, with its old links |
| LinkedList.RemovingNonMemberEmptiesList | lesson3/node/pallets/kitties/src/link.rs:72-84 | `remove` of an element with no node reads `{None, None}` and overwrites the sentinel, so the key then reads as the empty list |
| LinkedList.RemovingFormerMemberBreaksList | lesson3/node/pallets/kitties/src/link.rs:71-85 | removing a former member again splices through its stale links: from `[1, 2, 3]`, removing 2, then 1, then 2 again leaves the sentinel `{3, 3}` and node 3 with `prev == 1`, so no well-formed list remains |
| LinkedList.AppendingHeadAgainBreaksList | lesson3/node/pallets/kitties/src/link.rs:38-56 | appending the current head again makes its node point to itself both ways, and the key then holds no well-formed list |
| LinkedList.LinkedStore.constructor | lesson3/node/pallets/kitties/src/link.rs:12-18 | an empty storage map holds the empty list under every key |
| LinkedList.LinkedStore.MemberIsContained | lesson3/node/pallets/kitties/src/link.rs:38-69 | in a valid store every member of a list has a stored node |
| LinkedList.LinkedStore.Contains | lesson2_kitties/pallets/kitties/src/lib.rs:130 | `contains_key((k, Some(v)))` accepts every member of `k`'s list, and on a store that `remove` never ran on it accepts exactly the members |
| LinkedList.LinkedStore.ReadHead | lesson3/node/pallets/kitties/src/link.rs:19-21 | the sentinel read is `{tail, head}` of the key's list |
| LinkedList.LinkedStore.Write | lesson3/node/pallets/kitties/src/link.rs:34-36 | the slot `(k, v)` is set to the item and nothing else changes |
| LinkedList.LinkedStore.WriteHead | lesson3/node/pallets/kitties/src/link.rs:23-25 | the sentinel slot `(k, None)` is set to the item and nothing else changes |
| LinkedList.LinkedStore.Append | lesson3/node/pallets/kitties/src/link.rs:38-69 | the store becomes `Appended(old store, k, v)`; for a non-member of a valid store, all lists stay well formed, `k`'s list becomes `[v] + old list`, and the other lists are unchanged |
| LinkedList.LinkedStore.Remove | lesson3/node/pallets/kitties/src/link.rs:71-85 | the store becomes `Removed(old store, k, v)`; for a member of a valid store, all lists stay well formed, `k`'s list loses `v`, and the other lists are unchanged |
| Kitties.CombineDna | lesson2_kitties/pallets/kitties/src/lib.rs:218-220 | the bits set in the selector come from `dna1` and the clear bits from `dna2` |
| Kitties.CombineDnaUnique | lesson2_kitties/pallets/kitties/src/lib.rs:218-220 | those two mask conditions determine the combined byte |
| Kitties.CombineDnaExtremes | lesson2_kitties/pallets/kitties/src/lib.rs:218-220 | selector `0xFF` gives `dna1`; selector `0x00` gives `dna2` |
| Kitties.MixDna | lesson2_kitties/pallets/kitties/src/lib.rs:268-273 | byte `i` of the child DNA combines byte `i` of each parent with selector byte `i`; an all-ones selector gives the first parent's DNA and an all-zeros one the second's |
| Kitties.Moved | lesson2_kitties/pallets/kitties/src/lib.rs:164 | the ledger step of `buy`: the payer loses the price, the payee gains it, and other balances are unchanged |
| Kitties.InsertKeepsOwnership | lesson2_kitties/pallets/kitties/src/lib.rs:240-251 | giving a new kitty to an owner keeps every kitty in its owner's list and no other |
| Kitties.TransferKeepsOwnership | lesson2_kitties/pallets/kitties/src/lib.rs:300-303 | moving a kitty from its owner's list to the head of the receiver's list keeps every kitty in exactly its owner's list |
| Kitties.RelationBounds | lesson2_kitties/pallets/kitties/src/lib.rs:280-285 | a relation list of a kitty not yet created is empty, and every member of a relation list is an existing kitty |
| Kitties.AddRelation | lesson2_kitties/pallets/kitties/src/lib.rs:280-285 | appending a non-member to a relation list puts it at the head and keeps the index well formed |
| Kitties.AddParents | lesson2_kitties/pallets/kitties/src/lib.rs:280-281 | appending `id1` and then `id2` to the empty parents list of a new kitty gives `[id2, id1]` and keeps the index well formed |
| Kitties.AddMate | lesson2_kitties/pallets/kitties/src/lib.rs:282-283 | the mates list of `a` gains `b` at the head unless `b` is already a mate |
| Kitties.Kitties.constructor | lesson2_kitties/pallets/kitties/src/lib.rs:29-56 | empty storage satisfies the pallet invariant |
| Kitties.Kitties.Owns | lesson2_kitties/pallets/kitties/src/lib.rs:130 | the ownership check used in place of `contains_key`: while the owned index is valid, it holds exactly for the kitties in the account's owned list |
| Kitties.Kitties.OwnerPassesCheck | lesson2_kitties/pallets/kitties/src/lib.rs:130 | every owner passes the `contains_key` ownership check |
| Kitties.Kitties.OwnershipExclusive | lesson2_kitties/pallets/kitties/src/lib.rs:37-39 | a kitty in two accounts' owned lists means the two accounts are the same account, and that account is its owner |
| Kitties.Kitties.NextKittyId | lesson2_kitties/pallets/kitties/src/lib.rs:232-238 | fails with `KittiesCountOverflow` exactly when the count is the largest index; otherwise returns the count; reads only |
| Kitties.Kitties.InsertOwnedKitty | lesson2_kitties/pallets/kitties/src/lib.rs:240-243 | appends the kitty to the owner's list and records the owner |
| Kitties.Kitties.InsertKitty | lesson2_kitties/pallets/kitties/src/lib.rs:245-251 | stores the kitty, sets the count to `id + 1`, puts `id` at the head of the owner's list, records the owner, and preserves the invariant |
| Kitties.Kitties.Create | lesson2_kitties/pallets/kitties/src/lib.rs:95-107 | fails with the overflow error and changes nothing, or stores the given DNA under the old count for the sender |
| Kitties.Kitties.RecordBirth | lesson2_kitties/pallets/kitties/src/lib.rs:280-285 | the child's parents list becomes `[id2, id1]`; each parent's mates list gains the other parent unless already present; each parent's children list gains the child |
| Kitties.Kitties.Breed | lesson2_kitties/pallets/kitties/src/lib.rs:253-285 | errors in the order `InvalidKittyId`, `RequireOwner`, `RequireDifferentParent`, overflow, each with nothing changed; on success the child id is the old count, its DNA is the byte-wise combination, it belongs to the sender, and the relation lists are updated as `RecordBirth` states; the invariant is preserved |
| Kitties.Kitties.DoTransfer | lesson2_kitties/pallets/kitties/src/lib.rs:300-303 | removes the kitty from the sender's list, puts it at the head of the receiver's list, records the receiver as owner, and preserves the invariant |
| Kitties.Kitties.Transfer | lesson2_kitties/pallets/kitties/src/lib.rs:127-138 | fails with `RequireOwner` and changes nothing unless the sender owns the kitty; otherwise it behaves as `DoTransfer` |
| Kitties.Kitties.Ask | lesson2_kitties/pallets/kitties/src/lib.rs:143-151 | fails with `RequireOwner` unless the sender owns the kitty; otherwise it sets the price to exactly the new price, or removes it for `None` |
| Kitties.Kitties.Buy | lesson2_kitties/pallets/kitties/src/lib.rs:155-171 | errors in the order `InvalidKittyId`, `NotForSale`, `PriceTooLow`, then the ledger's failure, each with nothing changed; it succeeds whenever the kitty is priced, the offer covers the price and the buyer can pay it; on success the price is paid to the owner, the price entry is deleted, and ownership moves to the buyer as in `DoTransfer` |
| Kitties.FormerOwnerPassesCheck | lesson2_kitties/pallets/kitties/src/lib.rs:127-138 | after kitty 0 moves from account 1 to account 2, account 1 still passes `contains_key`; its second transfer, to account 3, leaves kitty 0 in both account 2's and account 3's lists |
| Kitties.RebreedingBreaksMates | lesson2_kitties/pallets/kitties/src/lib.rs:282-283 | breeding kitties 0 and 1 a second time appends 1 to the mates list `[1]` again; the node of 1 then points to itself, and the list is no longer well formed |
| ProofOfExistence.ClaimStore.constructor | lesson6/pallets/poe/src/lib.rs:32-37 | an empty `Proofs` map with the configured length bounds |
| ProofOfExistence.ClaimStore.CreateClaim | lesson6/pallets/poe/src/lib.rs:77-89 | errors in the order `ClaimTooShort`, `ClaimTooLong`, `ClaimAlreadyExist`, each with the map unchanged; on success the claim maps to `(sender, now)` and no other entry changes |
| ProofOfExistence.ClaimStore.RevokeClaim | lesson6/pallets/poe/src/lib.rs:92-106 | `ClaimNotExist` for an absent claim, then `NotClaimOwner` for another account, each with the map unchanged; on success exactly that key is removed |
| ProofOfExistence.ClaimStore.TransferClaim | lesson6/pallets/poe/src/lib.rs:109-125 | the same two errors in the same order; on success the claim maps to `(receiver, now)` and no other entry changes |
| ProofOfExistence.ClaimStore.CreateThenRevoke | lesson6/pallets/poe/src/lib.rs:77-106 | when the create succeeds, the revoke by the same account succeeds and the map is as it was; when the create fails, the revoke still deletes a claim the account already held, and otherwise fails with the map unchanged |
| ProofOfExistence.CreateExpectations | lesson6/pallets/poe/src/tests.rs:5-50 | a five-byte claim is stored for account 1 at the current block; creating it again fails with `ClaimAlreadyExist`; claims of 2 and 17 bytes fail as too short and too long |
| ProofOfExistence.RevokeExpectations | lesson6/pallets/poe/src/tests.rs:52-85 | the owner's revoke succeeds; revoking an absent claim fails with `ClaimNotExist`; revoking another account's claim fails with `NotClaimOwner` |
| ProofOfExistence.TransferExpectations | lesson6/pallets/poe/src/tests.rs:87-121 | the owner's transfer stores the claim for account 2 at the current block; a transfer by another account fails with `NotClaimOwner`; a transfer of an absent claim fails with `ClaimNotExist` |

## Left out

- `random_value` (lesson2_kitties/pallets/kitties/src/lib.rs:223-230) is left out because it calls the runtime's randomness, hashing and extrinsic index. The DNA of `Create` and the selector of `Breed` are parameters instead.
- The sibling loop of `do_breed` (lesson2_kitties/pallets/kitties/src/lib.rs:287-295) is left out because it does not type-check. It uses undeclared variables and indexes a storage map. As written, it would also read the children lists after the child was appended.
- `KittyBrothers` is left out for the same reason: only that loop writes it.
- `reserve_funds`, `unreserve_funds` and `transfer_funds`, and their calls at the end of `create`, `breed` and `transfer`, are left out. They are calls into the currency pallet, and they reuse the moved `origin`.
- Kitties.Kitties.Buy: the call to `T::Currency::transfer` is the abstract ledger step `Moved`, which fails with `InsufficientFunds` when the buyer's free balance is below the price. It does not model the existential deposit that `KeepAlive` protects, or any other failure of the currency pallet. The pallet's own error enum has no such variant.
- The relation indices `KittyParents`, `KittyMates` and `KittyChildren` are declared with the single key `Option<KittyIndex>` (lesson2_kitties/pallets/kitties/src/lib.rs:46-55), but they are used as two-key linked lists. They are modelled as linked lists keyed `(KittyIndex, Option<KittyIndex>)`, like `OwnedKitties`.
- `KittyIndex` is an unbounded natural number. Its largest value is the parameter `maxIndex`, which the overflow check compares against.
- Balances are unbounded natural numbers.
- Events, origin checks (`ensure_signed`), weights, the `decl_*` wiring and the SCALE codec are left out.
- `ClaimMinLength` and `ClaimMaxLength` are constructor parameters. The test mock that sets them is not part of this model. The test expectations assume bounds under which 2 bytes is too short, 17 bytes too long and 5 bytes accepted.
- The names of the tests at lesson6/pallets/poe/src/tests.rs:98-121 are swapped relative to what they assert. The model follows the assertions.
- `remove` of a non-member is given no precondition. `LinkedStore.Remove` promises well-formedness only for members. For an element with no stored node, `Removed` and `RemovingNonMemberEmptiesList` state that the sentinel is cleared. For a former member, which keeps its stale node, `RemovingFormerMemberBreaksList` shows that the list can be corrupted.
- The kitties model keeps ownership with the owner map, and the mates index with a duplicate check. This follows the two findings below. The source as written is captured by the finding lemmas.

## Findings

| source | as written | input that shows it | evidently intended | confidence | as-written member | corrected member |
|---|---|---|---|---|---|---|
| lesson2_kitties/pallets/kitties/src/lib.rs:130,146,257-258 with lesson3/node/pallets/kitties/src/link.rs:71-85 | `transfer`, `ask` and `do_breed` check ownership with `contains_key((sender, Some(id)))` on the owned-list storage, and `remove` never deletes the removed node; the former owner's second `do_transfer` removes the kitty through its stale links, which can also corrupt the former owner's remaining list (`LinkedList.RemovingFormerMemberBreaksList`) | account 1 creates kitty 0 and transfers it to account 2; account 1 then transfers kitty 0 to account 3, and kitty 0 is in the owned lists of both 2 and 3 | only the current owner may transfer, price or breed a kitty; every kitty is in exactly one owned list | high (proved on the model, not executed) | Kitties.FormerOwnerPassesCheck | Kitties.Kitties.Transfer |
| lesson2_kitties/pallets/kitties/src/lib.rs:282-283 | each breed appends each parent to the other's mates list with no membership check | breed kitties 0 and 1, then breed them again: 1 is appended to the mates list `[1]` of 0 a second time | a mate is recorded once, and the mates list stays a well-formed list | high (proved on the model, not executed) | Kitties.RebreedingBreaksMates | Kitties.Kitties.Breed |
