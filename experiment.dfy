/**
 * The extracing experiment recorder: a thread-local pair of an eight-slot
 * `u64` array and a count, where `add_item` stores a number in the next slot
 * and `span!` records the number 1.
 */
module Experiment {

  const U64_LIMIT: int := 0x1_0000_0000_0000_0000

  type U64 = x: int | 0 <= x < U64_LIMIT

  /** The length of the `[u64; 8]` array. */
  const SLOTS: nat := 8

  /** The array after `ns` were added to a fresh recorder: `ns` in order, then zeros. */
  function Filled(ns: seq<U64>): (r: seq<U64>)
    requires |ns| <= SLOTS
    ensures |r| == SLOTS
  {
    ns + seq(SLOTS - |ns|, _ => 0)
  }

  /** A filled array starts with the numbers added and is zero after them. */
  lemma FilledParts(ns: seq<U64>)
    requires |ns| <= SLOTS
    ensures Filled(ns)[..|ns|] == ns
    ensures forall k :: |ns| <= k < SLOTS ==> Filled(ns)[k] == 0
  {
  }

  /** Storing `n` at the first free slot of a filled array fills one more slot with it. */
  lemma FilledSnoc(ns: seq<U64>, n: U64)
    requires |ns| < SLOTS
    ensures Filled(ns)[|ns| := n] == Filled(ns + [n])
  {
    var a, b := Filled(ns)[|ns| := n], Filled(ns + [n]);
    FilledParts(ns);
    FilledParts(ns + [n]);
    assert forall k :: 0 <= k < |ns| ==> a[k] == ns[k] == b[k];
  }

  /** `ITEMS`: `slots` is the array, `count` the counter. */
  class Items {
    const slots: array<U64>
    var count: nat
    /** The numbers added so far, oldest first. */
    ghost var added: seq<U64>

    /** The counter is the number of numbers added, and the array holds them in order, then zeros. */
    ghost predicate Valid()
      reads this, slots
    {
      && slots.Length == SLOTS
      && count == |added| <= SLOTS
      && slots[..] == Filled(added)
    }

    /** `([0; 8], 0)`. */
    constructor ()
      ensures Valid()
      ensures fresh(slots)
      ensures count == 0 && added == []
      ensures slots[..] == [0, 0, 0, 0, 0, 0, 0, 0]
    {
      slots := new U64[SLOTS](_ => 0);
      count := 0;
      added := [];
      new;
      assert slots[..] == Filled([]);
    }

    /**
     * `add_item(number)`: writes `number` at index `count` and increments
     * `count`. Index 8 is out of bounds for the array, so the call panics
     * once all eight slots are used.
     */
    method AddItem(number: U64)
      requires Valid()
      requires count < SLOTS
      modifies this, slots
      ensures Valid()
      ensures count == old(count) + 1
      ensures slots[..] == old(slots[..])[old(count) := number]
      ensures added == old(added) + [number]
    {
      var c := count;
      FilledSnoc(added, number);
      slots[c] := number;
      count := count + 1;
      added := added + [number];
    }

    /** `span!`: whatever its arguments, records the number 1. */
    method Span()
      requires Valid()
      requires count < SLOTS
      modifies this, slots
      ensures Valid()
      ensures count == old(count) + 1
      ensures added == old(added) + [1]
    {
      AddItem(1);
    }
  }

  /**
   * The `ignore_span` test: four `span!` calls on a fresh thread leave the
   * count at 4, ones in slots 0 to 3 and zeros after them.
   */
  method IgnoreSpanScenario() returns (slots: seq<U64>, count: nat)
    ensures count == 4
    ensures slots == [1, 1, 1, 1, 0, 0, 0, 0]
  {
    var items := new Items();
    items.Span();
    items.Span();
    items.Span();
    items.Span();
    slots, count := items.slots[..], items.count;
    assert items.added == [1, 1, 1, 1];
    FourOnes();
  }

  /** The array after four `span!` calls on a fresh recorder: four ones, then zeros. */
  lemma FourOnes()
    ensures Filled([1, 1, 1, 1]) == [1, 1, 1, 1, 0, 0, 0, 0]
  {
    var r := Filled([1, 1, 1, 1]);
    assert r[..4] == [1, 1, 1, 1];
    assert r == r[..4] + [r[4], r[5], r[6], r[7]];
  }
}
