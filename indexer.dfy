/** The in-memory indexer store (guess-game/src/indexer.rs): a cursor naming
    the next block height to index, and the published indexer state. A block
    is indexed into a copy of the state, and the copy replaces the published
    state only once indexing succeeded, so a failure leaves no trace. */
module Indexer {
  import opened Common

  datatype IndexError =
    | HeightMismatch(expected: nat, got: nat)   // the `ensure!` on the height
    | IndexingFailed                            // the inner `add_block` failed

  /** `IndexerMemoryStore<State>`. The read-write lock and the `Arc`
      around `state` are represented by the field itself.
      `indexed` records the heights accepted so far, from `first` on. */
  class IndexerMemoryStore<S> {
    var nextToIndex: nat
    var state: S
    ghost const first: nat
    ghost var indexed: seq<nat>

    /** Every accepted height is the one after the previous, and the
        cursor is the height after the last accepted one. */
    ghost predicate Valid()
      reads this
    {
      && (forall i :: 0 <= i < |indexed| ==> indexed[i] == first + i)
      && nextToIndex == first + |indexed|
    }

    constructor (nextToIndex: nat, state: S)
      ensures Valid() && indexed == []
      ensures this.nextToIndex == nextToIndex && this.state == state
    {
      this.nextToIndex := nextToIndex;
      this.state := state;
      first := nextToIndex;
      indexed := [];
    }

    /** `next_to_index`: reports the cursor and changes nothing. */
    method NextToIndex() returns (h: nat)
      ensures h == nextToIndex
    {
      h := nextToIndex;
    }

    /** `add_block`: `index` is the indexer state's own `add_block` for this
        block, applied to a copy; `None` is its failure. */
    method AddBlock(height: nat, index: S -> Option<S>) returns (r: Result<(), IndexError>)
      requires Valid()
      modifies this
      ensures Valid()
      ensures height != old(nextToIndex) ==> r == Err(HeightMismatch(old(nextToIndex), height))
      ensures height == old(nextToIndex) && index(old(state)).None? ==> r == Err(IndexingFailed)
      ensures r.Err? ==> state == old(state) && nextToIndex == old(nextToIndex) && indexed == old(indexed)
      ensures r.Ok? <==> height == old(nextToIndex) && index(old(state)).Some?
      ensures r.Ok? ==> state == index(old(state)).value && nextToIndex == old(nextToIndex) + 1
      ensures r.Ok? ==> indexed == old(indexed) + [height]
    {
      if nextToIndex != height {
        return Err(HeightMismatch(nextToIndex, height));
      }
      var copy := state;
      var updated := index(copy);
      if updated.None? {
        return Err(IndexingFailed);
      }
      state := updated.value;
      nextToIndex := nextToIndex + 1;
      indexed := indexed + [height];
      r := Ok(());
    }
  }
}
