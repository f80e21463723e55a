/**
 * The doubly linked list of lesson3/node/pallets/kitties/src/link.rs.
 *
 * The list lives in a sparse key-value store: the node of element `v` in the
 * list named `k` is stored under `(k, Some(v))`, and the slot `(k, None)` is a
 * sentinel whose `next` is the head of the list and whose `prev` is its tail.
 * A node whose `prev` (`next`) is `None` is the head (tail).  There is no
 * traversal: `append` and `remove` touch a constant number of slots.
 *
 * The functions `Appended` and `Removed` give the store after each operation,
 * reading and writing in the same order as the source (a later read sees an
 * earlier write).  `IsList(m, k, s)` says that the store `m` holds the list `s`
 * under `k`; the lemmas prove that `s` is what a walk from the sentinel yields,
 * and that append and remove keep a well-formed list well formed.
 */
module LinkedList {
  import opened Results

  /** `LinkedItem`: the links of one node (or of the sentinel). */
  datatype Item<V> = Item(prev: Option<V>, next: Option<V>)

  /** The storage map `(Key, Option<Value>) -> LinkedItem<Value>`. */
  type Store<K(==), V(==)> = map<(K, Option<V>), Item<V>>

  /** `read`: the node stored under `(k, v)`, or `{prev: None, next: None}` when the slot is empty. */
  function ItemAt<K(==), V(==)>(m: Store<K, V>, k: K, v: Option<V>): (item: Item<V>)
    ensures (k, v) in m ==> item == m[(k, v)]
    ensures (k, v) !in m ==> item == Item(None, None)
  {
    if (k, v) in m then m[(k, v)] else Item(None, None)
  }

  // ----- the abstract list -----

  /** The list a map of lists holds under `k`, empty when there is none. */
  function ListIn<K, V>(lists: map<K, seq<V>>, k: K): seq<V>
  {
    if k in lists then lists[k] else []
  }

  function First<V>(s: seq<V>): Option<V>
  {
    if s == [] then None else Some(s[0])
  }

  function Last<V>(s: seq<V>): Option<V>
  {
    if s == [] then None else Some(s[|s| - 1])
  }

  /** The link a node at position `i` of `s` should have to its predecessor. */
  function Before<V>(s: seq<V>, i: int): Option<V>
    requires 0 <= i < |s|
  {
    if i == 0 then None else Some(s[i - 1])
  }

  /** The link a node at position `i` of `s` should have to its successor. */
  function After<V>(s: seq<V>, i: int): Option<V>
    requires 0 <= i < |s|
  {
    if i == |s| - 1 then None else Some(s[i + 1])
  }

  ghost predicate Distinct<V>(s: seq<V>)
  {
    forall i, j :: 0 <= i < j < |s| ==> s[i] != s[j]
  }

  /**
   * The store `m` holds the list `s` under the name `k`: no element twice, the
   * sentinel points at the head and the tail, and every element has a stored
   * node whose links name its neighbours (`None` next to the sentinel).
   */
  ghost predicate IsList<K, V>(m: Store<K, V>, k: K, s: seq<V>)
  {
    && Distinct(s)
    && ItemAt(m, k, None) == Item(Last(s), First(s))
    && forall i :: 0 <= i < |s| ==> Linked(m, k, s, i)
  }

  /** The element at position `i` of `s` has a stored node linking it to its neighbours. */
  ghost predicate Linked<K, V>(m: Store<K, V>, k: K, s: seq<V>, i: int)
    requires 0 <= i < |s|
  {
    (k, Some(s[i])) in m && m[(k, Some(s[i]))] == Item(Before(s, i), After(s, i))
  }

  /** The elements met by following `next` links from `from`, for at most `fuel` steps. */
  function Walk<K(==), V(==)>(m: Store<K, V>, k: K, from: Option<V>, fuel: nat): seq<V>
    decreases fuel
  {
    if fuel == 0 || from.None? then [] else [from.value] + Walk(m, k, ItemAt(m, k, from).next, fuel - 1)
  }

  /** The elements met by following `prev` links from `from`, for at most `fuel` steps. */
  function WalkBack<K(==), V(==)>(m: Store<K, V>, k: K, from: Option<V>, fuel: nat): seq<V>
    decreases fuel
  {
    if fuel == 0 || from.None? then [] else [from.value] + WalkBack(m, k, ItemAt(m, k, from).prev, fuel - 1)
  }

  function Reverse<V>(s: seq<V>): (r: seq<V>)
    ensures |r| == |s|
    ensures forall i :: 0 <= i < |s| ==> r[i] == s[|s| - 1 - i]
  {
    if s == [] then [] else [s[|s| - 1]] + Reverse(s[..|s| - 1])
  }

  /** `s` with every occurrence of `v` taken out. */
  function Delete<V(==, !new)>(s: seq<V>, v: V): (r: seq<V>)
    ensures forall x :: x in r <==> x in s && x != v
    ensures |r| <= |s|
  {
    if s == [] then [] else (if s[0] == v then [] else [s[0]]) + Delete(s[1..], v)
  }

  // ----- the two operations, slot by slot -----

  /**
   * The store after `append(k, v)`: `v` becomes the head.  On an empty list the
   * node `{None, None}` and the sentinel `{v, v}` are written; otherwise `v`'s
   * node `{None, old head}`, the old head's node with `prev := v` (read after
   * `v`'s node was written) and the sentinel with `next := v`.
   */
  function Appended<K(==), V(==)>(m: Store<K, V>, k: K, v: V): (r: Store<K, V>)
    ensures r.Keys == m.Keys + {(k, None), (k, Some(v)), (k, ItemAt(m, k, None).next)}
    ensures forall key :: key in m && key != (k, None) && key != (k, Some(v)) && key != (k, ItemAt(m, k, None).next)
              ==> r[key] == m[key]
    ensures ItemAt(m, k, None).next == None ==>
              ItemAt(r, k, Some(v)) == Item(None, None) && ItemAt(r, k, None) == Item(Some(v), Some(v))
    ensures ItemAt(m, k, None).next != None && ItemAt(m, k, None).next != Some(v) ==>
              && ItemAt(r, k, Some(v)) == Item(None, ItemAt(m, k, None).next)
              && ItemAt(r, k, ItemAt(m, k, None).next) == Item(Some(v), ItemAt(m, k, ItemAt(m, k, None).next).next)
              && ItemAt(r, k, None) == Item(ItemAt(m, k, None).prev, Some(v))
  {
    var head := ItemAt(m, k, None);
    if head.next.Some? then
      var m1 := m[(k, Some(v)) := Item(None, head.next)];
      var oldHead := ItemAt(m1, k, head.next);
      var m2 := m1[(k, head.next) := Item(Some(v), oldHead.next)];
      m2[(k, None) := Item(head.prev, Some(v))]
    else
      m[(k, Some(v)) := Item(None, None)][(k, None) := Item(Some(v), Some(v))]
  }

  /**
   * The store after `remove(k, v)`: the slot before `v` (the sentinel when
   * `v.prev` is `None`) gets `next := v.next`, then the slot after `v` (the
   * sentinel when `v.next` is `None`, read after the first write) gets
   * `prev := v.prev`.  Nothing is deleted, not even `v`'s own node; and an
   * element that has no node reads as `{None, None}`, so removing it resets
   * the sentinel to `{None, None}`.
   */
  function Removed<K(==), V(==)>(m: Store<K, V>, k: K, v: V): (r: Store<K, V>)
    ensures r.Keys == m.Keys + {(k, ItemAt(m, k, Some(v)).prev), (k, ItemAt(m, k, Some(v)).next)}
    ensures forall key :: key in m && key != (k, ItemAt(m, k, Some(v)).prev) && key != (k, ItemAt(m, k, Some(v)).next)
              ==> r[key] == m[key]
    ensures ItemAt(m, k, Some(v)).prev != ItemAt(m, k, Some(v)).next ==>
              && ItemAt(r, k, ItemAt(m, k, Some(v)).prev)
                   == Item(ItemAt(m, k, ItemAt(m, k, Some(v)).prev).prev, ItemAt(m, k, Some(v)).next)
              && ItemAt(r, k, ItemAt(m, k, Some(v)).next)
                   == Item(ItemAt(m, k, Some(v)).prev, ItemAt(m, k, ItemAt(m, k, Some(v)).next).next)
    ensures ItemAt(m, k, Some(v)) == Item(None, None) ==> r == m[(k, None) := Item(None, None)]
  {
    var item := ItemAt(m, k, Some(v));
    var prevItem := ItemAt(m, k, item.prev);
    var m1 := m[(k, item.prev) := Item(prevItem.prev, item.next)];
    var nextItem := ItemAt(m1, k, item.next);
    m1[(k, item.next) := Item(item.prev, nextItem.next)]
  }

  // ----- lemmas -----

  /** A list that was never written reads as the empty list. */
  lemma UnwrittenListIsEmpty<K, V>(m: Store<K, V>, k: K)
    requires forall x :: (k, x) !in m
    ensures ItemAt(m, k, None) == Item(None, None)
    ensures IsList(m, k, [])
  {
  }

  /** The list under `k` depends only on the slots named `(k, _)`. */
  lemma {:induction false} ListKept<K, V>(m: Store<K, V>, r: Store<K, V>, k: K, s: seq<V>)
    requires IsList(m, k, s)
    requires forall x :: (k, x) in m ==> (k, x) in r && r[(k, x)] == m[(k, x)]
    requires ItemAt(r, k, None) == ItemAt(m, k, None)
    ensures IsList(r, k, s)
  {
    forall i | 0 <= i < |s|
      ensures Linked(r, k, s, i)
    {
      assert Linked(m, k, s, i);
    }
  }

  /** What `IsList` says about the node at position `i`. */
  lemma NodeOf<K, V>(m: Store<K, V>, k: K, s: seq<V>, i: int)
    requires IsList(m, k, s) && 0 <= i < |s|
    ensures (k, Some(s[i])) in m && ItemAt(m, k, Some(s[i])) == Item(Before(s, i), After(s, i))
  {
    assert Linked(m, k, s, i);
  }

  lemma {:induction false} WalkFrom<K, V>(m: Store<K, V>, k: K, s: seq<V>, j: int, fuel: nat)
    requires IsList(m, k, s)
    requires 0 <= j < |s| && fuel >= |s| - j
    ensures Walk(m, k, Some(s[j]), fuel) == s[j..]
    decreases |s| - j
  {
    NodeOf(m, k, s, j);
    assert Walk(m, k, Some(s[j]), fuel) == [s[j]] + Walk(m, k, After(s, j), fuel - 1);
    if j < |s| - 1 {
      WalkFrom(m, k, s, j + 1, fuel - 1);
      assert s[j..] == [s[j]] + s[j + 1..];
    }
  }

  /** Following `next` from the sentinel yields exactly the list, and then stops. */
  lemma {:induction false} WalkYieldsList<K, V>(m: Store<K, V>, k: K, s: seq<V>, fuel: nat)
    requires IsList(m, k, s) && fuel >= |s|
    ensures Walk(m, k, ItemAt(m, k, None).next, fuel) == s
  {
    if s != [] {
      WalkFrom(m, k, s, 0, fuel);
    }
  }

  lemma {:induction false} WalkBackFrom<K, V>(m: Store<K, V>, k: K, s: seq<V>, j: int, fuel: nat)
    requires IsList(m, k, s)
    requires 0 <= j < |s| && fuel > j
    ensures WalkBack(m, k, Some(s[j]), fuel) == Reverse(s[..j + 1])
  {
    NodeOf(m, k, s, j);
    if j > 0 {
      WalkBackFrom(m, k, s, j - 1, fuel - 1);
      assert s[..j + 1][..j] == s[..j];
    }
  }

  /** Following `prev` from the sentinel yields the list reversed. */
  lemma {:induction false} WalkBackYieldsReverse<K, V>(m: Store<K, V>, k: K, s: seq<V>, fuel: nat)
    requires IsList(m, k, s) && fuel >= |s|
    ensures WalkBack(m, k, ItemAt(m, k, None).prev, fuel) == Reverse(s)
  {
    if s != [] {
      WalkBackFrom(m, k, s, |s| - 1, fuel);
      assert s[..|s|] == s;
    }
  }

  /** A store holds at most one list under a name. */
  lemma {:induction false} ListUnique<K, V>(m: Store<K, V>, k: K, s: seq<V>, t: seq<V>)
    requires IsList(m, k, s) && IsList(m, k, t)
    ensures s == t
  {
    WalkYieldsList(m, k, s, |s| + |t|);
    WalkYieldsList(m, k, t, |s| + |t|);
  }

  /** Links are reciprocal: a node's successor points back at it, and so does its predecessor. */
  lemma PointersReciprocal<K, V>(m: Store<K, V>, k: K, s: seq<V>, i: int)
    requires IsList(m, k, s) && 0 <= i < |s|
    ensures ItemAt(m, k, Some(s[i])).next.Some? ==>
              ItemAt(m, k, Some(s[i])).next.value in s
              && ItemAt(m, k, ItemAt(m, k, Some(s[i])).next).prev == Some(s[i])
    ensures ItemAt(m, k, Some(s[i])).prev.Some? ==>
              ItemAt(m, k, Some(s[i])).prev.value in s
              && ItemAt(m, k, ItemAt(m, k, Some(s[i])).prev).next == Some(s[i])
  {
    NodeOf(m, k, s, i);
    if i < |s| - 1 {
      NodeOf(m, k, s, i + 1);
    }
    if i > 0 {
      NodeOf(m, k, s, i - 1);
    }
  }

  lemma {:induction false} DeleteAbsent<V(!new)>(s: seq<V>, v: V)
    requires v !in s
    ensures Delete(s, v) == s
  {
    if s != [] {
      DeleteAbsent(s[1..], v);
      assert s == [s[0]] + s[1..];
    }
  }

  /** On a list without duplicates, deleting an element takes out exactly its position. */
  lemma {:induction false} DeleteAt<V(!new)>(s: seq<V>, i: int)
    requires Distinct(s) && 0 <= i < |s|
    ensures Delete(s, s[i]) == s[..i] + s[i + 1..]
  {
    if i == 0 {
      assert s[0] !in s[1..];
      DeleteAbsent(s[1..], s[0]);
    } else {
      DeleteAt(s[1..], i - 1);
      assert s[1..][..i - 1] == s[1..i];
      assert s[1..][i..] == s[i + 1..];
      assert s[..i] == [s[0]] + s[1..i];
    }
  }

  /** `append` of a non-member turns the list `s` into `[v] + s`. */
  lemma {:induction false} AppendedKeepsList<K, V>(m: Store<K, V>, k: K, s: seq<V>, v: V)
    requires IsList(m, k, s) && v !in s
    ensures IsList(Appended(m, k, v), k, [v] + s)
  {
    var r := Appended(m, k, v);
    var t := [v] + s;
    if s != [] {
      NodeOf(m, k, s, 0);
      forall i | 0 <= i < |t|
        ensures Linked(r, k, t, i)
      {
        if i > 1 {
          NodeOf(m, k, s, i - 1);
          assert t[i] == s[i - 1] && s[i - 1] != s[0];
        }
      }
    }
  }

  /** `remove` of the element at position `i` turns the list into `s` without it. */
  lemma {:induction false} RemovedKeepsList<K, V>(m: Store<K, V>, k: K, s: seq<V>, i: int)
    requires IsList(m, k, s) && 0 <= i < |s|
    ensures IsList(Removed(m, k, s[i]), k, s[..i] + s[i + 1..])
  {
    var r := Removed(m, k, s[i]);
    var t := s[..i] + s[i + 1..];
    NodeOf(m, k, s, i);
    if |s| > 1 {
      forall j | 0 <= j < |t|
        ensures Linked(r, k, t, j)
      {
        RemovedNodeAt(m, k, s, i, j);
      }
      assert Distinct(t) by {
        forall a, b | 0 <= a < b < |t| ensures t[a] != t[b] {
          var a' := if a < i then a else a + 1;
          var b' := if b < i then b else b + 1;
          assert t[a] == s[a'] && t[b] == s[b'];
        }
      }
      if i == |s| - 1 {
        assert Last(t) == Some(s[i - 1]);
      }
    }
  }

  /** One node of the list after `remove`, for `RemovedKeepsList`. */
  lemma RemovedNodeAt<K, V>(m: Store<K, V>, k: K, s: seq<V>, i: int, j: int)
    requires IsList(m, k, s) && 0 <= i < |s| && |s| > 1 && 0 <= j < |s| - 1
    ensures Linked(Removed(m, k, s[i]), k, s[..i] + s[i + 1..], j)
  {
    var t := s[..i] + s[i + 1..];
    NodeOf(m, k, s, i);
    if j < i - 1 {
      NodeOf(m, k, s, j);
      assert t[j] == s[j] && t[j + 1] == s[j + 1];
      assert s[j] != s[i - 1] && s[j] != s[i];
    } else if j == i - 1 {
      NodeOf(m, k, s, j);
      assert t[j] == s[j];
      assert j < |t| - 1 ==> t[j + 1] == s[i + 1];
    } else if j == i {
      NodeOf(m, k, s, i + 1);
      assert t[j] == s[i + 1];
      assert j < |t| - 1 ==> t[j + 1] == s[i + 2];
      assert j > 0 ==> t[j - 1] == s[i - 1];
    } else {
      NodeOf(m, k, s, j + 1);
      assert t[j] == s[j + 1] && t[j - 1] == s[j];
      assert j < |t| - 1 ==> t[j + 1] == s[j + 2];
      assert s[j + 1] != s[i + 1] && s[j + 1] != s[i];
    }
  }

  /** `remove` leaves the removed element's own node in the store, links and all. */
  lemma RemovedKeepsOwnNode<K, V>(m: Store<K, V>, k: K, s: seq<V>, i: int)
    requires IsList(m, k, s) && 0 <= i < |s|
    ensures (k, Some(s[i])) in Removed(m, k, s[i])
    ensures Removed(m, k, s[i])[(k, Some(s[i]))] == Item(Before(s, i), After(s, i))
  {
    NodeOf(m, k, s, i);
  }

  /** `remove` of an element with no node wipes the sentinel: the list reads as empty. */
  lemma RemovingNonMemberEmptiesList<K, V>(m: Store<K, V>, k: K, v: V)
    requires (k, Some(v)) !in m
    ensures IsList(Removed(m, k, v), k, [])
  {
  }

  /** In a list, the head's node has no predecessor. */
  lemma HeadHasNoPrev<K, V>(m: Store<K, V>, k: K, t: seq<V>)
    ensures IsList(m, k, t) && t != [] ==> ItemAt(m, k, Some(t[0])).prev == None
  {
    if IsList(m, k, t) && t != [] {
      NodeOf(m, k, t, 0);
    }
  }

  /** `append` of the current head a second time makes its node point at itself: no list remains. */
  lemma AppendingHeadAgainBreaksList<K, V>(m: Store<K, V>, k: K, s: seq<V>, t: seq<V>)
    requires IsList(m, k, s) && s != []
    ensures ItemAt(Appended(m, k, s[0]), k, Some(s[0])) == Item(Some(s[0]), Some(s[0]))
    ensures !IsList(Appended(m, k, s[0]), k, t)
  {
    NodeOf(m, k, s, 0);
    HeadHasNoPrev(Appended(m, k, s[0]), k, t);
  }

  /**
   * `remove` of a former member splices through its stale links.  From the list
   * `[1, 2, 3]`, remove 2, then 1, then 2 again: the second removal of 2 reads
   * its old links `{1, 3}` and writes `prev := 1` into the node of 3, which the
   * sentinel `{3, 3}` still names as the only element, so no list remains.
   */
  lemma RemovingFormerMemberBreaksList(t: seq<int>)
    ensures var m: Store<int, int> := map[(0, None) := Item(Some(3), Some(1)), (0, Some(1)) := Item(None, Some(2)),
                                          (0, Some(2)) := Item(Some(1), Some(3)), (0, Some(3)) := Item(Some(2), None)];
            var once := Removed(Removed(m, 0, 2), 0, 1);
            var again := Removed(once, 0, 2);
            && IsList(m, 0, [1, 2, 3])
            && IsList(once, 0, [3])
            && ItemAt(again, 0, None) == Item(Some(3), Some(3))
            && ItemAt(again, 0, Some(3)) == Item(Some(1), None)
            && !IsList(again, 0, t)
  {
    var m: Store<int, int> := map[(0, None) := Item(Some(3), Some(1)), (0, Some(1)) := Item(None, Some(2)),
                                  (0, Some(2)) := Item(Some(1), Some(3)), (0, Some(3)) := Item(Some(2), None)];
    var s := [1, 2, 3];
    assert Linked(m, 0, s, 0) && Linked(m, 0, s, 1) && Linked(m, 0, s, 2);
    assert IsList(m, 0, s);
    RemovedKeepsList(m, 0, s, 1);
    assert s[..1] + s[2..] == [1, 3];
    var m1 := Removed(m, 0, 2);
    RemovedKeepsList(m1, 0, [1, 3], 0);
    assert [1, 3][..0] + [1, 3][1..] == [3];
    HeadHasNoPrev(Removed(Removed(m1, 0, 1), 0, 2), 0, t);
  }

  // ----- the list as stored state -----

  /** `LinkedList<Storage, Key, Value>`: one storage map holding a list per key. */
  class LinkedStore<K(==, !new), V(==, !new)> {
    var store: Store<K, V>
    /** The list each key holds (the empty list for keys not in the map). */
    ghost var lists: map<K, seq<V>>

    ghost function List(k: K): seq<V>
      reads this
    {
      ListIn(lists, k)
    }

    /** Every key's slots hold that key's list. */
    ghost predicate Valid()
      reads this
    {
      forall k :: IsList(store, k, List(k))
    }

    /** Every stored node belongs to a member: a store that `remove` never ran on. */
    ghost predicate Exact()
      reads this
    {
      forall k, v :: (k, Some(v)) in store ==> v in List(k)
    }

    constructor ()
      ensures store == map[] && lists == map[]
      ensures Valid() && Exact()
    {
      store := map[];
      lists := map[];
    }

    /**
     * `contains_key((k, Some(v)))`: every member passes, and on a store that
     * `remove` never ran on, exactly the members pass.
     */
    predicate Contains(k: K, v: V): (b: bool)
      reads this
      ensures Valid() && v in List(k) ==> b
      ensures Valid() && Exact() ==> (b <==> v in List(k))
    {
      MemberIsContained(k, v);
      (k, Some(v)) in store
    }

    /** Every member of a list has a stored node. */
    lemma MemberIsContained(k: K, v: V)
      ensures Valid() && v in List(k) ==> (k, Some(v)) in store
    {
      if Valid() && v in List(k) {
        var s := List(k);
        assert IsList(store, k, s);
        var i :| 0 <= i < |s| && s[i] == v;
        NodeOf(store, k, s, i);
      }
    }

    /** `read_head`: the sentinel of `k`'s list. */
    function ReadHead(k: K): (head: Item<V>)
      reads this
      ensures Valid() ==> head == Item(Last(List(k)), First(List(k)))
    {
      ItemAt(store, k, None)
    }

    /** `write`. */
    method Write(k: K, v: Option<V>, item: Item<V>)
      modifies this
      ensures store == old(store)[(k, v) := item] && lists == old(lists)
    {
      store := store[(k, v) := item];
    }

    /** `write_head`. */
    method WriteHead(k: K, item: Item<V>)
      modifies this
      ensures store == old(store)[(k, None) := item] && lists == old(lists)
    {
      Write(k, None, item);
    }

    /** `append`: insert `v` at the head of `k`'s list. */
    method Append(k: K, v: V)
      modifies this
      ensures store == Appended(old(store), k, v)
      ensures old(Valid()) && v !in old(List(k)) ==>
                Valid() && lists == old(lists)[k := [v] + old(List(k))]
                && (old(Exact()) ==> Exact())
    {
      ghost var s := List(k);
      ghost var wellFormed := Valid() && v !in s;
      var item := ReadHead(k);
      if item.next.Some? {
        Write(k, Some(v), Item(None, item.next));
        var oldHead := ItemAt(store, k, item.next);
        Write(k, item.next, Item(Some(v), oldHead.next));
        WriteHead(k, Item(item.prev, Some(v)));
      } else {
        Write(k, Some(v), Item(None, None));
        WriteHead(k, Item(Some(v), Some(v)));
      }
      if wellFormed {
        AppendedKeepsList(old(store), k, s, v);
        lists := lists[k := [v] + s];
        forall k' | k' != k
          ensures IsList(store, k', List(k'))
        {
          assert old(IsList(store, k', List(k')));
          ListKept(old(store), store, k', old(List(k')));
        }
        if old(Exact()) {
          forall k', x | (k', Some(x)) in store
            ensures x in List(k')
          {
            if (k', Some(x)) in old(store) {
              assert old(x in List(k'));
            } else if x != v {
              assert s != [] && Some(x) == ItemAt(old(store), k, None).next;
            }
          }
        }
      }
    }

    /** `remove`: splice `v` out of `k`'s list. */
    method Remove(k: K, v: V)
      modifies this
      ensures store == Removed(old(store), k, v)
      ensures old(Valid()) && v in old(List(k)) ==>
                Valid() && lists == old(lists)[k := Delete(old(List(k)), v)]
    {
      ghost var s := List(k);
      ghost var wellFormed := Valid() && v in s;
      var item := ItemAt(store, k, Some(v));
      var prevItem := ItemAt(store, k, item.prev);
      Write(k, item.prev, Item(prevItem.prev, item.next));
      var nextItem := ItemAt(store, k, item.next);
      Write(k, item.next, Item(item.prev, nextItem.next));
      if wellFormed {
        var i :| 0 <= i < |s| && s[i] == v;
        RemovedKeepsList(old(store), k, s, i);
        DeleteAt(s, i);
        lists := lists[k := Delete(s, v)];
        forall k' | k' != k
          ensures IsList(store, k', List(k'))
        {
          assert old(IsList(store, k', List(k')));
          ListKept(old(store), store, k', old(List(k')));
        }
      }
    }
  }
}
