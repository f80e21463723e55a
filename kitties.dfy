/**
 * The kitties pallet of lesson2_kitties/pallets/kitties/src/lib.rs: a registry
 * of kitties (16 bytes of DNA each) with an id counter, an ownership index kept
 * as one linked list per account, a reverse owner map, a price map, and three
 * relation indices (parents, mates, children) kept as one linked list per kitty.
 * Every linked list is an instance of `LinkedList.LinkedStore`.
 *
 * Random DNA and the random selector are inputs, and the currency is an
 * abstract ledger of free balances.
 */
module Kitties {
  import opened Results
  import opened LinkedList

  datatype Error =
    | KittiesCountOverflow
    | InvalidKittyId
    | RequireDifferentParent
    | RequireOwner
    | NotForSale
    | PriceTooLow
    | InsufficientFunds  // reported by the currency ledger

  type KittyIndex = nat

  const DnaLength: nat := 16

  /** `Kitty([u8; 16])`. */
  type Dna = s: seq<bv8> | |s| == DnaLength witness seq(DnaLength, _ => 0)

  /**
   * `combine_dna`: the bits set in `selector` come from `dna1`, the others from `dna2`.
   */
  function CombineDna(dna1: bv8, dna2: bv8, selector: bv8): (r: bv8)
    ensures r & selector == dna1 & selector
    ensures r & !selector == dna2 & !selector
  {
    (selector & dna1) | (!selector & dna2)
  }

  /** The two mask conditions determine the combined byte. */
  lemma CombineDnaUnique(dna1: bv8, dna2: bv8, selector: bv8, x: bv8)
    requires x & selector == dna1 & selector
    requires x & !selector == dna2 & !selector
    ensures x == CombineDna(dna1, dna2, selector)
  {
  }

  /** An all-ones selector gives the first parent's byte, an all-zeros selector the second's. */
  lemma CombineDnaExtremes(dna1: bv8, dna2: bv8)
    ensures CombineDna(dna1, dna2, 0xFF) == dna1
    ensures CombineDna(dna1, dna2, 0) == dna2
  {
  }

  /** The loop of `do_breed` that fills `new_dna` byte by byte. */
  method MixDna(dna1: Dna, dna2: Dna, selector: Dna) returns (child: Dna)
    ensures forall i :: 0 <= i < DnaLength ==> child[i] == CombineDna(dna1[i], dna2[i], selector[i])
    ensures (forall i :: 0 <= i < DnaLength ==> selector[i] == 0xFF) ==> child == dna1
    ensures (forall i :: 0 <= i < DnaLength ==> selector[i] == 0) ==> child == dna2
  {
    var newDna := new bv8[DnaLength](_ => 0);
    for i := 0 to DnaLength
      invariant forall j :: 0 <= j < i ==> newDna[j] == CombineDna(dna1[j], dna2[j], selector[j])
    {
      newDna[i] := CombineDna(dna1[i], dna2[i], selector[i]);
    }
    child := newDna[..];
  }

  /** The ledger after moving `amount` from `from` to `to` (absent accounts hold 0). */
  function Moved<A(==, !new)>(balances: map<A, nat>, from: A, to: A, amount: nat): (r: map<A, nat>)
    requires amount <= BalanceIn(balances, from)
    ensures from != to ==> BalanceIn(r, from) == BalanceIn(balances, from) - amount
    ensures from != to ==> BalanceIn(r, to) == BalanceIn(balances, to) + amount
    ensures forall a :: a != from && a != to ==> BalanceIn(r, a) == BalanceIn(balances, a)
    ensures from == to ==> r == balances
  {
    if from == to then balances
    else
      var debited := balances[from := BalanceIn(balances, from) - amount];
      debited[to := BalanceIn(debited, to) + amount]
  }

  function BalanceIn<A(==)>(balances: map<A, nat>, a: A): nat
  {
    if a in balances then balances[a] else 0
  }

  /** Each kitty is in exactly one account's list: that of its owner in `owners`. */
  ghost predicate OwnedMatches<A(!new)>(lists: map<A, seq<KittyIndex>>, owners: map<KittyIndex, A>)
  {
    forall a: A, id: KittyIndex :: id in ListIn(lists, a) <==> id in owners && owners[id] == a
  }

  /** Giving a new kitty to `owner` keeps every kitty in its owner's list only. */
  lemma InsertKeepsOwnership<A(!new)>(lists: map<A, seq<KittyIndex>>, owners: map<KittyIndex, A>, owner: A, id: KittyIndex)
    requires OwnedMatches(lists, owners) && id !in owners
    ensures id !in ListIn(lists, owner)
    ensures OwnedMatches(lists[owner := [id] + ListIn(lists, owner)], owners[id := owner])
  {
    var lists' := lists[owner := [id] + ListIn(lists, owner)];
    forall a, x
      ensures x in ListIn(lists', a) <==> x in owners[id := owner] && owners[id := owner][x] == a
    {
      if a != owner {
        assert ListIn(lists', a) == ListIn(lists, a);
      }
    }
  }

  /** Moving `id` from `from`'s list to the head of `to`'s keeps every kitty in its owner's list only. */
  lemma TransferKeepsOwnership<A(!new)>(lists: map<A, seq<KittyIndex>>, owners: map<KittyIndex, A>, from: A, to: A, id: KittyIndex)
    requires OwnedMatches(lists, owners) && id in owners && owners[id] == from
    ensures var removed := lists[from := Delete(ListIn(lists, from), id)];
            && id in ListIn(lists, from)
            && id !in ListIn(removed, to)
            && OwnedMatches(removed[to := [id] + ListIn(removed, to)], owners[id := to])
  {
    var removed := lists[from := Delete(ListIn(lists, from), id)];
    var lists' := removed[to := [id] + ListIn(removed, to)];
    assert to != from ==> ListIn(removed, to) == ListIn(lists, to);
    forall a, x
      ensures x in ListIn(lists', a) <==> x in owners[id := to] && owners[id := to][x] == a
    {
      if a != from && a != to {
        assert ListIn(lists', a) == ListIn(lists, a);
      } else if a == from && a != to {
        assert ListIn(lists', a) == Delete(ListIn(lists, from), id);
      }
    }
  }

  /** A relation index: well formed, never removed from, and naming kitties below `count` only. */
  ghost predicate RelationIndex(rel: LinkedStore<KittyIndex, KittyIndex>, count: nat)
    reads rel
  {
    && rel.Valid()
    && rel.Exact()
    && forall k, x :: (k, x) in rel.store ==> k < count && (x.Some? ==> x.value < count)
  }

  /** A relation list of a kitty not yet created is empty, and its members are existing kitties. */
  lemma RelationBounds(rel: LinkedStore<KittyIndex, KittyIndex>, count: nat, k: KittyIndex)
    requires RelationIndex(rel, count)
    ensures k >= count ==> rel.List(k) == []
    ensures forall x :: x in rel.List(k) ==> x < count
  {
    forall x | x in rel.List(k)
      ensures x < count
    {
      rel.MemberIsContained(k, x);
    }
    if rel.List(k) != [] {
      rel.MemberIsContained(k, rel.List(k)[0]);
    }
  }

  /** Append `x` to the relation list of `k`, keeping the index valid. */
  method AddRelation(rel: LinkedStore<KittyIndex, KittyIndex>, count: nat, k: KittyIndex, x: KittyIndex)
    requires RelationIndex(rel, count) && k < count && x < count && x !in rel.List(k)
    modifies rel
    ensures RelationIndex(rel, count)
    ensures rel.lists == old(rel.lists)[k := [x] + old(rel.List(k))]
  {
    if rel.List(k) != [] {
      NodeOf(rel.store, k, rel.List(k), 0);
    }
    rel.Append(k, x);
  }

  /** Record `id1` and then `id2` as the parents of the new kitty `id`. */
  method AddParents(parents: LinkedStore<KittyIndex, KittyIndex>, count: nat, id: KittyIndex, id1: KittyIndex, id2: KittyIndex)
    requires RelationIndex(parents, count) && id < count && id1 < count && id2 < count && id1 != id2
    requires parents.List(id) == []
    modifies parents
    ensures RelationIndex(parents, count)
    ensures parents.lists == old(parents.lists)[id := [id2, id1]]
  {
    AddRelation(parents, count, id, id1);
    AddRelation(parents, count, id, id2);
    assert parents.List(id) == [id2] + ([id1] + []) == [id2, id1];
  }

  /** Record `b` as a mate of `a`, unless it already is one. */
  method AddMate(mates: LinkedStore<KittyIndex, KittyIndex>, count: nat, a: KittyIndex, b: KittyIndex)
    requires RelationIndex(mates, count) && a < count && b < count
    modifies mates
    ensures RelationIndex(mates, count)
    ensures mates.lists == old(mates.lists)[a := if b in old(mates.List(a)) then old(mates.List(a)) else [b] + old(mates.List(a))]
  {
    if !mates.Contains(a, b) {
      AddRelation(mates, count, a, b);
    } else {
      assert mates.lists == mates.lists[a := mates.List(a)];
    }
  }

  /** The pallet's storage. */
  class Kitties<A(==, !new)> {
    /** `KittyIndex::max_value()`. */
    const maxIndex: KittyIndex
    /** `Kitties`. */
    var kitties: map<KittyIndex, Dna>
    /** `KittiesCount`. */
    var count: KittyIndex
    /** `OwnedKitties`, used through `OwnedKittiesList`. */
    const owned: LinkedStore<A, KittyIndex>
    /** `KittyOwners`. */
    var owners: map<KittyIndex, A>
    /** `KittyPrices`. */
    var prices: map<KittyIndex, nat>
    /** `KittyParents`, `KittyMates`, `KittyChildren`: one list per kitty. */
    const parents: LinkedStore<KittyIndex, KittyIndex>
    const mates: LinkedStore<KittyIndex, KittyIndex>
    const children: LinkedStore<KittyIndex, KittyIndex>
    /** Free balances of the currency ledger. */
    var balances: map<A, nat>

    /** The kitties `a` owns, newest first. */
    ghost function Owned(a: A): seq<KittyIndex>
      reads this, owned
    {
      owned.List(a)
    }

    /**
     * `a` is the owner of `id` in `KittyOwners`: the ownership check that replaces
     * `contains_key((a, Some(id)))`, true exactly for the kitties in `a`'s owned list.
     */
    predicate Owns(a: A, id: KittyIndex): (b: bool)
      reads this, owned
      ensures OwnershipValid() ==> (b <==> id in Owned(a))
    {
      id in owners && owners[id] == a
    }

    function Balance(a: A): nat
      reads this
    {
      BalanceIn(balances, a)
    }

    /** The kitty map, the count, the owner map and the price map agree. */
    ghost predicate Indexed()
      reads this
    {
      && count <= maxIndex
      && (forall id: KittyIndex :: id in kitties <==> id < count)
      && owners.Keys == kitties.Keys
      && prices.Keys <= kitties.Keys
    }

    /** Every kitty is in exactly one owned list: that of its owner. */
    ghost predicate OwnershipValid()
      reads this, owned
    {
      && owned.Valid()
      && OwnedMatches(owned.lists, owners)
    }

    ghost predicate Valid()
      reads this, owned, parents, mates, children
    {
      && owned as object !in {parents as object, mates as object, children as object}
      && parents != mates && parents != children && mates != children
      && Indexed()
      && OwnershipValid()
      && RelationIndex(parents, count)
      && RelationIndex(mates, count)
      && RelationIndex(children, count)
    }

    constructor (maxIndex: KittyIndex, balances: map<A, nat>)
      ensures Valid()
      ensures this.maxIndex == maxIndex && this.balances == balances
      ensures kitties == map[] && count == 0 && owners == map[] && prices == map[]
      ensures owned.lists == map[] && parents.lists == map[] && mates.lists == map[] && children.lists == map[]
      ensures fresh(owned) && fresh(parents) && fresh(mates) && fresh(children)
    {
      this.maxIndex := maxIndex;
      this.balances := balances;
      kitties := map[];
      count := 0;
      owners := map[];
      prices := map[];
      owned := new LinkedStore();
      parents := new LinkedStore();
      mates := new LinkedStore();
      children := new LinkedStore();
      new;
      assert Indexed();
    }

    /** Every owner passes the source's `contains_key` ownership check. */
    lemma OwnerPassesCheck(a: A, id: KittyIndex)
      requires Valid() && Owns(a, id)
      ensures owned.Contains(a, id)
    {
      assert id in Owned(a);
    }

    /** No kitty is in two accounts' owned lists. */
    lemma OwnershipExclusive(a: A, b: A, id: KittyIndex)
      requires Valid() && id in Owned(a) && id in Owned(b)
      ensures a == b && Owns(a, id)
    {
      assert OwnedMatches(owned.lists, owners);
      assert id in ListIn(owned.lists, a) && id in ListIn(owned.lists, b);
      assert owners[id] == a;
      assert owners[id] == b;
    }

    /** `next_kitty_id`: the current count, unless it is the largest index. */
    function NextKittyId(): (r: Result<KittyIndex, Error>)
      reads this
      ensures r.Ok? <==> count != maxIndex
      ensures r.Ok? ==> r.value == count
      ensures r.Err? ==> r.error == KittiesCountOverflow
    {
      if count == maxIndex then Err(KittiesCountOverflow) else Ok(count)
    }

    /** `insert_owned_kitty`: append `id` to `owner`'s list and record `owner` as its owner. */
    method InsertOwnedKitty(owner: A, id: KittyIndex)
      modifies owned, this`owners
      ensures owned.store == Appended(old(owned.store), owner, id)
      ensures owners == old(owners)[id := owner]
      ensures old(owned.Valid()) && id !in old(owned.List(owner)) ==>
                owned.Valid() && owned.lists == old(owned.lists)[owner := [id] + old(owned.List(owner))]
    {
      owned.Append(owner, id);
      owners := owners[id := owner];
    }

    /** `insert_kitty`: store the kitty, advance the count and give it to `owner`. */
    method InsertKitty(owner: A, id: KittyIndex, kitty: Dna)
      requires Valid() && id == count && count < maxIndex
      modifies this, owned
      ensures Valid()
      ensures kitties == old(kitties)[id := kitty] && count == id + 1
      ensures owners == old(owners)[id := owner]
      ensures owned.lists == old(owned.lists)[owner := [id] + old(Owned(owner))]
      ensures prices == old(prices) && balances == old(balances)
    {
      InsertKeepsOwnership(owned.lists, owners, owner, id);
      kitties := kitties[id := kitty];
      count := id + 1;
      InsertOwnedKitty(owner, id);
    }

    /** `create`: a new kitty with the given DNA for `sender`. */
    method Create(sender: A, dna: Dna) returns (r: Result<KittyIndex, Error>)
      requires Valid()
      modifies this, owned
      ensures Valid()
      ensures r == old(NextKittyId())
      ensures r.Err? ==> unchanged(this, owned)
      ensures r.Ok? ==>
                && kitties == old(kitties)[r.value := dna] && count == r.value + 1
                && owners == old(owners)[r.value := sender]
                && owned.lists == old(owned.lists)[sender := [r.value] + old(Owned(sender))]
                && prices == old(prices) && balances == old(balances)
    {
      r := NextKittyId();
      if r.Err? {
        return;
      }
      InsertKitty(sender, r.value, dna);
    }

    /** The relation updates of `do_breed` for the child `id` of `id1` and `id2`. */
    method RecordBirth(id1: KittyIndex, id2: KittyIndex, id: KittyIndex)
      requires parents != mates && parents != children && mates != children
      requires RelationIndex(parents, count) && RelationIndex(mates, count) && RelationIndex(children, count)
      requires id1 < count && id2 < count && id < count && id1 != id2
      requires parents.List(id) == [] && id !in children.List(id1) && id !in children.List(id2)
      modifies parents, mates, children
      ensures RelationIndex(parents, count) && RelationIndex(mates, count) && RelationIndex(children, count)
      ensures parents.lists == old(parents.lists)[id := [id2, id1]]
      ensures mates.lists == old(mates.lists)
                [id1 := if id2 in old(mates.List(id1)) then old(mates.List(id1)) else [id2] + old(mates.List(id1))]
                [id2 := if id1 in old(mates.List(id2)) then old(mates.List(id2)) else [id1] + old(mates.List(id2))]
      ensures children.lists == old(children.lists)
                [id1 := [id] + old(children.List(id1))]
                [id2 := [id] + old(children.List(id2))]
    {
      AddParents(parents, count, id, id1, id2);
      AddMate(mates, count, id1, id2);
      AddMate(mates, count, id2, id1);
      AddRelation(children, count, id1, id);
      AddRelation(children, count, id2, id);
    }

    /** `do_breed`: validate, then create a child of `id1` and `id2` for `sender` and record the relations. */
    method Breed(sender: A, id1: KittyIndex, id2: KittyIndex, selector: Dna) returns (r: Result<KittyIndex, Error>)
      requires Valid()
      modifies this, owned, parents, mates, children
      ensures Valid()
      ensures id1 !in old(kitties) || id2 !in old(kitties) ==> r == Err(InvalidKittyId)
      ensures id1 in old(kitties) && id2 in old(kitties) && !(old(Owns(sender, id1)) && old(Owns(sender, id2))) ==>
                r == Err(RequireOwner)
      ensures old(Owns(sender, id1)) && old(Owns(sender, id2)) && id1 == id2 ==> r == Err(RequireDifferentParent)
      ensures old(Owns(sender, id1)) && old(Owns(sender, id2)) && id1 != id2 ==> r == old(NextKittyId())
      ensures r.Err? ==> unchanged(this, owned, parents, mates, children)
      ensures r.Ok? ==>
                && count == r.value + 1
                && r.value in kitties
                && kitties == old(kitties)[r.value := kitties[r.value]]
                && (forall i :: 0 <= i < DnaLength ==>
                      kitties[r.value][i] == CombineDna(old(kitties)[id1][i], old(kitties)[id2][i], selector[i]))
                && owners == old(owners)[r.value := sender]
                && owned.lists == old(owned.lists)[sender := [r.value] + old(Owned(sender))]
                && parents.lists == old(parents.lists)[r.value := [id2, id1]]
                && mates.lists == old(mates.lists)
                     [id1 := if id2 in old(mates.List(id1)) then old(mates.List(id1)) else [id2] + old(mates.List(id1))]
                     [id2 := if id1 in old(mates.List(id2)) then old(mates.List(id2)) else [id1] + old(mates.List(id2))]
                && children.lists == old(children.lists)
                     [id1 := [r.value] + old(children.List(id1))]
                     [id2 := [r.value] + old(children.List(id2))]
                && prices == old(prices) && balances == old(balances)
    {
      if id1 !in kitties || id2 !in kitties {
        return Err(InvalidKittyId);
      }
      var kitty1 := kitties[id1];
      var kitty2 := kitties[id2];
      if !Owns(sender, id1) || !Owns(sender, id2) {
        return Err(RequireOwner);
      }
      if id1 == id2 {
        return Err(RequireDifferentParent);
      }
      r := NextKittyId();
      if r.Err? {
        return;
      }
      var id := r.value;
      var child := MixDna(kitty1, kitty2, selector);
      RelationBounds(parents, count, id);
      RelationBounds(children, count, id1);
      RelationBounds(children, count, id2);
      InsertKitty(sender, id, child);
      RecordBirth(id1, id2, id);
    }

    /** `do_transfer`: move `id` from `from`'s owned list to the head of `to`'s. */
    method DoTransfer(from: A, to: A, id: KittyIndex)
      requires Valid() && Owns(from, id)
      modifies owned, this`owners
      ensures Valid()
      ensures owners == old(owners)[id := to]
      ensures var removed := old(owned.lists)[from := Delete(old(Owned(from)), id)];
              owned.lists == removed[to := [id] + ListIn(removed, to)]
    {
      TransferKeepsOwnership(owned.lists, owners, from, to, id);
      owned.Remove(from, id);
      InsertOwnedKitty(to, id);
    }

    /** `transfer`: the owner of `id` gives it to `to`. */
    method Transfer(sender: A, to: A, id: KittyIndex) returns (r: Outcome<Error>)
      requires Valid()
      modifies owned, this`owners
      ensures Valid()
      ensures r == if old(Owns(sender, id)) then Pass else Fail(RequireOwner)
      ensures r.Fail? ==> unchanged(this, owned)
      ensures r.Pass? ==>
                var removed := old(owned.lists)[sender := Delete(old(Owned(sender)), id)];
                && owned.lists == removed[to := [id] + ListIn(removed, to)]
                && owners == old(owners)[id := to]
    {
      if !Owns(sender, id) {
        return Fail(RequireOwner);
      }
      DoTransfer(sender, to, id);
      r := Pass;
    }

    /** `ask`: the owner of `id` sets its price, or takes it off sale with `None`. */
    method Ask(sender: A, id: KittyIndex, newPrice: Option<nat>) returns (r: Outcome<Error>)
      requires Valid()
      modifies this`prices
      ensures Valid()
      ensures r == if Owns(sender, id) then Pass else Fail(RequireOwner)
      ensures prices == if r.Fail? then old(prices)
                        else if newPrice.Some? then old(prices)[id := newPrice.value]
                        else old(prices) - {id}
    {
      if !Owns(sender, id) {
        return Fail(RequireOwner);
      }
      match newPrice {
        case Some(p) => prices := prices[id := p];
        case None => prices := prices - {id};
      }
      r := Pass;
    }

    /** `buy`: pay the asked price to the owner of `id` and take it over. */
    method Buy(sender: A, id: KittyIndex, offer: nat) returns (r: Outcome<Error>)
      requires Valid()
      modifies this, owned
      ensures Valid()
      ensures id !in old(owners) ==> r == Fail(InvalidKittyId)
      ensures id in old(owners) && id !in old(prices) ==> r == Fail(NotForSale)
      ensures id in old(owners) && id in old(prices) && offer < old(prices)[id] ==> r == Fail(PriceTooLow)
      ensures id in old(owners) && id in old(prices) && offer >= old(prices)[id] && old(Balance(sender)) < old(prices)[id] ==>
                r == Fail(InsufficientFunds)
      ensures id in old(owners) && id in old(prices) && offer >= old(prices)[id] && old(Balance(sender)) >= old(prices)[id] ==>
                r == Pass
      ensures r.Fail? ==> unchanged(this, owned)
      ensures r.Pass? ==>
                var owner := old(owners)[id];
                var removed := old(owned.lists)[owner := Delete(old(Owned(owner)), id)];
                && id in old(prices)
                && balances == Moved(old(balances), sender, owner, old(prices)[id])
                && prices == old(prices) - {id}
                && owners == old(owners)[id := sender]
                && owned.lists == removed[sender := [id] + ListIn(removed, sender)]
                && kitties == old(kitties) && count == old(count)
    {
      if id !in owners {
        return Fail(InvalidKittyId);
      }
      var owner := owners[id];
      if id !in prices {
        return Fail(NotForSale);
      }
      var price := prices[id];
      if offer < price {
        return Fail(PriceTooLow);
      }
      if Balance(sender) < price {
        return Fail(InsufficientFunds);
      }
      balances := Moved(balances, sender, owner, price);
      prices := prices - {id};
      DoTransfer(owner, sender, id);
      r := Pass;
    }
  }

  // ----- the source as written -----

  /**
   * `remove` keeps the removed node, so the `contains_key` ownership check of
   * `transfer`, `ask` and `do_breed` still accepts a former owner.  Account 1
   * creates kitty 0 and transfers it to account 2; account 1 passes the check
   * and transfers kitty 0 again, to account 3.  Kitty 0 is then in the owned
   * lists of both accounts 2 and 3.
   */
  lemma FormerOwnerPassesCheck()
    ensures var created := Appended(map[], 1, 0);
            var moved := Appended(Removed(created, 1, 0), 2, 0);
            var again := Appended(Removed(moved, 1, 0), 3, 0);
            && IsList(moved, 1, []) && IsList(moved, 2, [0])
            && (1, Some(0)) in moved
            && IsList(again, 2, [0]) && IsList(again, 3, [0])
  {
    var created: Store<int, int> := Appended(map[], 1, 0);
    assert IsList(created, 1, [0]);
    RemovedKeepsList(created, 1, [0], 0);
    var removed := Removed(created, 1, 0);
    assert IsList(removed, 1, []);
    UnwrittenListIsEmpty(removed, 2);
    AppendedKeepsList(removed, 2, [], 0);
    var moved := Appended(removed, 2, 0);
    ListKept(removed, moved, 1, []);
    var removedAgain := Removed(moved, 1, 0);
    ListKept(moved, removedAgain, 2, [0]);
    UnwrittenListIsEmpty(removedAgain, 3);
    AppendedKeepsList(removedAgain, 3, [], 0);
    ListKept(removedAgain, Appended(removedAgain, 3, 0), 2, [0]);
  }

  /**
   * `do_breed` appends each parent to the other's mates list without checking
   * that it is already there.  After kitties 0 and 1 were bred once, the mates
   * list of 0 is `[1]`; breeding them again appends 1 a second time, and 1's
   * node then points at itself both ways: the list is no longer well formed.
   */
  lemma RebreedingBreaksMates(t: seq<int>)
    ensures var once: Store<int, int> := Appended(Appended(map[], 0, 1), 1, 0);
            var again := Appended(once, 0, 1);
            && IsList(once, 0, [1])
            && ItemAt(again, 0, Some(1)) == Item(Some(1), Some(1))
            && !IsList(again, 0, t)
  {
    var first: Store<int, int> := Appended(map[], 0, 1);
    assert IsList(first, 0, [1]);
    var once := Appended(first, 1, 0);
    ListKept(first, once, 0, [1]);
    AppendingHeadAgainBreaksList(once, 0, [1], t);
  }
}
