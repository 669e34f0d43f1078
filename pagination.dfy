/** The paginator a paginated model hands to its queryset.

    Its class is not part of this model, so its behaviour stays abstract: the cursor
    position lives in a state of an arbitrary type `S`, `seek` is what `cursor(pos)` does to
    that state, and `advance` is what `next(retrieved=...)` does to it together with the
    answer "fetch another page?". Only `max`, the record total reported by the server, is a
    concrete field, because the queryset reads and overwrites it directly. */
module Pagination {
  import opened Wrappers

  class Paginator<S> {
    /** Cursor state (offset, page number, token, ...), left abstract. */
    var state: S
    /** The number of records the server last reported, if it reported one. */
    var max: Option<int>
    /** `cursor(pos)`: the state after moving the cursor to record `pos`. */
    const seek: (S, int) -> S
    /** `next(retrieved)`: given the state, `max` and the size of the page just received,
        the new state and whether another page should be fetched. */
    const advance: (S, Option<int>, nat) -> (S, bool)

    constructor (initial: S, max: Option<int>, seek: (S, int) -> S, advance: (S, Option<int>, nat) -> (S, bool))
      ensures state == initial && this.max == max
      ensures this.seek == seek && this.advance == advance
    {
      state := initial;
      this.max := max;
      this.seek := seek;
      this.advance := advance;
    }

    /** Moves the cursor to record `position`; `max` is untouched. */
    method Cursor(position: int)
      modifies this
      ensures state == seek(old(state), position)
      ensures max == old(max)
    {
      state := seek(state, position);
    }

    /** Records that `retrieved` records arrived and says whether to fetch again. */
    method Next(retrieved: nat) returns (more: bool)
      modifies this
      ensures (state, more) == advance(old(state), old(max), retrieved)
      ensures max == old(max)
    {
      var after := advance(state, max, retrieved);
      state, more := after.0, after.1;
    }
  }
}
