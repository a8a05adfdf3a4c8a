/** The ledger of form ids: the script's `processedForms` (ids loaded from the
    log sheet) and `newlyProcessedFormIds` (ids reconciled during this run).
    Both are JavaScript `Set`s, which iterate in first-insertion order and
    ignore a second `add` of the same id, so a set is a duplicate-free
    sequence. */
module Ledger {

  predicate Distinct(ids: seq<string>) {
    forall i, j :: 0 <= i < j < |ids| ==> ids[i] != ids[j]
  }

  /** `Set.prototype.add`. */
  function AddId(ids: seq<string>, id: string): (r: seq<string>)
    ensures Distinct(ids) ==> Distinct(r)
  {
    if id in ids then ids else ids + [id]
  }

  /** The ids of `xs` added one by one, in order. */
  function AddIds(ids: seq<string>, xs: seq<string>): seq<string>
    decreases |xs|
  {
    if xs == [] then ids else AddId(AddIds(ids, xs[..|xs| - 1]), xs[|xs| - 1])
  }

  /** Adding ids keeps the earlier ones in front, in their order, holds
      exactly the old ids and the added ones, and never repeats an id. */
  lemma {:induction false} AddIdsSpec(ids: seq<string>, xs: seq<string>)
    ensures |ids| <= |AddIds(ids, xs)| && AddIds(ids, xs)[..|ids|] == ids
    ensures forall x :: x in AddIds(ids, xs) <==> x in ids || x in xs
    ensures Distinct(ids) ==> Distinct(AddIds(ids, xs))
    decreases |xs|
  {
    if xs != [] {
      var n := |xs| - 1;
      AddIdsSpec(ids, xs[..n]);
      assert xs == xs[..n] + [xs[n]];
      var before := AddIds(ids, xs[..n]);
      assert before[..|ids|] == ids;
      assert forall x :: x in xs <==> x in xs[..n] || x == xs[n];
      if xs[n] !in before {
        assert (before + [xs[n]])[..|ids|] == before[..|ids|];
      }
    }
  }

  /** A JavaScript `Set` of form ids. */
  class IdSet {
    var ids: seq<string>

    ghost predicate Valid()
      reads this
    {
      Distinct(ids)
    }

    /** `new Set()`. */
    constructor ()
      ensures Valid() && ids == []
    {
      ids := [];
    }

    /** `set.has(id)`. */
    predicate Has(id: string)
      reads this
    {
      id in ids
    }

    /** `set.size`. */
    function Size(): nat
      reads this
    {
      |ids|
    }

    /** `set.add(id)`. */
    method Add(id: string)
      requires Valid()
      modifies this
      ensures Valid()
      ensures ids == AddId(old(ids), id)
    {
      if id !in ids {
        ids := ids + [id];
      }
    }
  }
}
