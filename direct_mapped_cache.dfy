/**
  The bounded cache the navigator puts in front of the symbol index
  (`DirectMappedCache<string, V>` of the IDE's utility library). It has a fixed
  number of slots; a key lives only in the slot its hash selects, and each slot
  holds at most one key with its value. The hash function is not part of this
  model: it is an arbitrary function given at construction.
 */
module Caching {
  import opened Wrappers

  /** A slot count: the cache is always built with at least one slot. */
  type Capacity = n: nat | 0 < n witness 1

  datatype Entry<V> = Entry(key: string, value: V)

  class DirectMappedCache<V> {
    const capacity: Capacity
    const hash: string -> nat
    const entries: array<Option<Entry<V>>>
    /** Every key for which the factory ran, oldest first. */
    ghost var computed: seq<string>

    /** The one slot `key` may occupy. */
    function SlotIndex(key: string): (i: nat)
      ensures i < capacity
    {
      hash(key) % capacity
    }

    /** Each occupied slot holds a key that belongs there. */
    ghost predicate Valid()
      reads entries
    {
      && entries.Length == capacity
      && forall i :: 0 <= i < entries.Length && entries[i].Some? ==> SlotIndex(entries[i].value.key) == i
    }

    /** What the cache answers for `key` without running the factory. */
    ghost function Lookup(key: string): Option<V>
      reads entries
      requires Valid()
    {
      match entries[SlotIndex(key)]
      case Some(e) => if e.key == key then Some(e.value) else None
      case None => None
    }

    /** The keys the cache currently holds. */
    ghost function Keys(): set<string>
      reads entries
      requires Valid()
    {
      set i | 0 <= i < entries.Length && entries[i].Some? :: entries[i].value.key
    }

    /**
      Since the previous state, `key` has been answered with `v`: it is now
      held with `v`, the factory ran for it only if it was not held, nothing
      changed if it was, and any other key that lost its answer shared its slot.
     */
    twostate predicate Answered(key: string, new v: V)
      reads this, entries
      requires old(Valid()) && Valid()
    {
      && Lookup(key) == Some(v)
      && computed == old(computed) + (if old(Lookup(key)).Some? then [] else [key])
      && (old(Lookup(key)).Some? ==> entries[..] == old(entries[..]))
      && forall k :: k != key ==>
           Lookup(k) == old(Lookup(k)) || (Lookup(k) == None && SlotIndex(k) == SlotIndex(key))
    }

    /** Since the previous state, neither the slots nor the factory log changed. */
    twostate predicate Untouched()
      reads this, entries
    {
      entries[..] == old(entries[..]) && computed == old(computed)
    }

    constructor (capacity: Capacity, hash: string -> nat)
      ensures Valid() && fresh(entries)
      ensures this.capacity == capacity && this.hash == hash
      ensures forall k :: Lookup(k) == None
      ensures computed == []
    {
      this.capacity := capacity;
      this.hash := hash;
      entries := new Option<Entry<V>>[capacity](_ => None);
      computed := [];
    }

    /**
      Answers `key` from its slot when the slot holds that key; otherwise runs
      `factory` once and stores the result in the slot, evicting whatever key
      was there.
     */
    method GetOrCreate(key: string, factory: string -> V) returns (v: V)
      requires Valid()
      modifies entries, this`computed
      ensures Valid()
      ensures old(Lookup(key)).Some? ==>
        && v == old(Lookup(key)).value
        && computed == old(computed)
        && entries[..] == old(entries[..])
      ensures old(Lookup(key)).None? ==>
        && v == factory(key)
        && computed == old(computed) + [key]
        && entries[..] == old(entries[..])[SlotIndex(key) := Some(Entry(key, v))]
      ensures Answered(key, v)
    {
      var i := SlotIndex(key);
      var slot := entries[i];
      if slot.Some? && slot.value.key == key {
        v := slot.value.value;
        return;
      }
      v := factory(key);
      computed := computed + [key];
      entries[i] := Some(Entry(key, v));
    }

    /** A key is held exactly when the cache answers it. */
    lemma KeysAreCached(k: string)
      requires Valid()
      ensures k in Keys() <==> Lookup(k).Some?
    {
    }

    /** The cache never holds more keys than it has slots. */
    lemma CapacityBound()
      requires Valid()
      ensures |Keys()| <= capacity
    {
      var keys := Keys();
      forall a, b | a in keys && b in keys && SlotIndex(a) == SlotIndex(b) ensures a == b {
        KeysAreCached(a);
        KeysAreCached(b);
      }
      InjectionBound(keys, SlotIndex, capacity);
    }
  }

  /** A set that `slot` maps one-to-one into `0..n-1` has at most `n` elements. */
  lemma {:induction false} InjectionBound(keys: set<string>, slot: string -> nat, n: nat)
    requires forall k :: k in keys ==> slot(k) < n
    requires forall a, b :: a in keys && b in keys && slot(a) == slot(b) ==> a == b
    ensures |keys| <= n
    decreases n
  {
    if n == 0 {
      assert keys == {};
    } else {
      var lower := set k | k in keys && slot(k) < n - 1;
      var top := keys - lower;
      InjectionBound(lower, slot, n - 1);
      assert |top| <= 1 by {
        if top != {} {
          var k :| k in top;
          forall k' | k' in top ensures k' == k {
            assert slot(k') == n - 1 == slot(k);
          }
          assert top == {k};
        }
      }
      assert keys == lower + top && lower * top == {};
    }
  }
}
