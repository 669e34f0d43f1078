/** Concrete evaluations: an unpaginated collection of three records, and a paginated one of
    five records that the server serves two per page, starting at the offset the request's
    URL carries. Records are the items themselves; the paginator's state is a plain offset. */
module Scenarios {
  import opened Wrappers
  import opened Pages
  import opened Evaluation

  function Identity(x: int): int { x }

  function Offset(state: int, position: int): int { position }

  function Onward(state: int, max: Option<int>, retrieved: nat): (int, bool)
  {
    (state + retrieved, max.None? || state + retrieved < max.value)
  }

  const FreshPager := PagerView(0, None, Offset, Onward)

  const Five := [1, 2, 3, 4, 5]

  /** A server that answers by cursor state: asked at offset `at`, it returns the (at most two) records
      from there on, and reports 5 as the total. */
  function ByOffset(at: int): Page<int>
  {
    Page(if 0 <= at <= 5 then Five[at..if at + 2 <= 5 then at + 2 else 5] else [], Some(5))
  }

  lemma ByOffsetPages()
    ensures ByOffset(0) == Page([1, 2], Some(5))
    ensures ByOffset(2) == Page([3, 4], Some(5))
    ensures ByOffset(4) == Page([5], Some(5))
    ensures ByOffset(7) == Page([], Some(5))
  {
    assert Five[0..2] == [1, 2];
    assert Five[2..4] == [3, 4];
    assert Five[4..5] == [5];
  }

  lemma RecordsOfPages()
    ensures Records(Identity, [1, 2]) == [1, 2]
    ensures Records(Identity, [3, 4]) == [3, 4]
    ensures Records(Identity, [5]) == [5]
  {
    RecordsAt(Identity, [1, 2]);
    RecordsAt(Identity, [3, 4]);
    RecordsAt(Identity, [5]);
  }

  /** Unpaginated `[1, 2, 3]`: iteration yields all three in order after one request, and
      `qs[1]` as written yields record 1, where the corrected index yields record 2. */
  lemma {:induction false} UnpaginatedIndexScenario()
    ensures var v: View<int, int> := View([], 0, true, None);
      var server := Server(Some([1, 2, 3]), []);
      var all := Evaluated(Identity, v, 0, None, server);
      var one := Evaluated(Identity, v, 1, Some(2), server);
      && all.outcome == Success([1, 2, 3]) && all.requests == 1 && all.after.count == 3
      && Selected(Index(1), one.outcome) == Success(One(1))
      && SelectedIntended(Index(1), false, one.outcome) == Success(One(2))
  {
    RecordsAt(Identity, [1, 2, 3]);
    assert Records(Identity, [1, 2, 3]) == [1, 2, 3];
  }

  /** `qs[0:4]` on the five records while `max` is unknown: the bounded loop never calls
      `next`, so both requests carry offset 0, the server answers `[1, 2]` both times, and the
      slice is `[1, 2, 1, 2]`. The first page reports 5 records, so afterwards `qs[0:5]` and
      `len(qs)` both raise. */
  lemma {:induction false} PaginatedSliceScenario()
    ensures var v := View([], 0, true, Some(FreshPager));
      var server := Server(None, [ByOffset(0), ByOffset(0)]);
      var first := Evaluated(Identity, v, 0, Some(4), server);
      && first.outcome == Success([1, 2, 1, 2]) && first.requests == 2
      && first.asked == [0, 0] && AnswersByCursor(ByOffset, first.asked, server.pages)
      && first.after.pager.value.max == Some(5)
      && Evaluated(Identity, first.after, 0, Some(5), server).outcome == Failure(EndBeyondMax)
      && Evaluated(Identity, first.after, 0, None, server).outcome == Failure(EndBeyondMax)
  {
    ByOffsetPages();
    RecordsOfPages();
    var pages := [ByOffset(0), ByOffset(0)];
    var L := Loop(Identity, Onward, 0, Some(4), pages);
    assert [] + [1, 2] == [1, 2] && [1, 2] + [1, 2] == [1, 2, 1, 2];
    var c1 := Walk(L, 1, 0, Some(5), [1, 2], 2, [0]);
    assert c1 == Crawl(true, [1, 2, 1, 2], 4, 2, 0, Some(5), [0, 0]);
    assert Walk(L, 0, Offset(Offset(0, 0), 0), None, [], 0, []) == c1;
  }

  /** The same slice with the corrected loop: `next` moves the cursor past the first page, the
      second request carries offset 2, and the slice is `[1, 2, 3, 4]`. */
  lemma {:induction false} IntendedSliceScenario()
    ensures var pages := [ByOffset(0), ByOffset(2)];
      var c := WalkIntended(Loop(Identity, Onward, 0, Some(4), pages), 0, 0, None, [], 0, []);
      && c.complete && c.records == [1, 2, 3, 4] && c.requests == 2
      && c.asked == [0, 2] && AnswersByCursor(ByOffset, c.asked, pages)
  {
    ByOffsetPages();
    RecordsOfPages();
    var pages := [ByOffset(0), ByOffset(2)];
    var L := Loop(Identity, Onward, 0, Some(4), pages);
    assert [] + [1, 2] == [1, 2] && [1, 2] + [3, 4] == [1, 2, 3, 4];
    var c1 := WalkIntended(L, 1, 2, Some(5), [1, 2], 2, [0]);
    assert c1 == Crawl(true, [1, 2, 3, 4], 4, 2, 4, Some(5), [0, 2]);
    assert WalkIntended(L, 0, 0, None, [], 0, []) == c1;
  }

  /** After `qs[0:4]` the queryset is fresh, so `qs[2]` evaluates `[2, 3)` without a
      request, gets the cached `[1, 2, 1, 2]` back and yields record 1, not record 3; the
      corrected index does the same, because it takes element 0 on a paginated queryset. */
  lemma {:induction false} FreshPaginatedIndexScenario()
    ensures var v := View([], 0, true, Some(FreshPager));
      var server := Server(None, [ByOffset(0), ByOffset(0)]);
      var first := Evaluated(Identity, v, 0, Some(4), server);
      var second := Evaluated(Identity, first.after, 2, Some(3), server);
      && second.requests == 0 && second.outcome == Success([1, 2, 1, 2])
      && Selected(Index(2), second.outcome) == Success(One(1))
      && SelectedIntended(Index(2), true, second.outcome) == Success(One(1))
  {
    PaginatedSliceScenario();
  }

  /** Iterating the five records while `max` is unknown: with no `end` the paginator's `next`
      moves the cursor by each page's size, the requests carry offsets 0, 2 and 4, and all five
      records come back in order; `next` stops the loop once the offset reaches the reported
      total. */
  lemma {:induction false} PaginatedWholeScenario()
    ensures var v := View([], 0, true, Some(FreshPager));
      var server := Server(None, [ByOffset(0), ByOffset(2), ByOffset(4)]);
      var e := Evaluated(Identity, v, 0, None, server);
      && e.outcome == Success([1, 2, 3, 4, 5]) && e.requests == 3 && !e.after.stale
      && e.asked == [0, 2, 4] && AnswersByCursor(ByOffset, e.asked, server.pages)
  {
    ByOffsetPages();
    RecordsOfPages();
    var pages := [ByOffset(0), ByOffset(2), ByOffset(4)];
    var L := Loop(Identity, Onward, 0, None, pages);
    assert [] + [1, 2] == [1, 2] && [1, 2] + [3, 4] == [1, 2, 3, 4];
    assert [1, 2, 3, 4] + [5] == [1, 2, 3, 4, 5];
    var c2 := Walk(L, 2, 4, Some(5), [1, 2, 3, 4], 4, [0, 2]);
    assert c2 == Crawl(true, [1, 2, 3, 4, 5], 5, 3, 5, Some(5), [0, 2, 4]);
    assert L.pages[0] == Page([1, 2], Some(5)) && L.pages[1] == Page([3, 4], Some(5)) && L.pages[2] == Page([5], Some(5));
    assert Onward(0, Some(5), 2) == (2, true) && Onward(2, Some(5), 2) == (4, true) && Onward(4, Some(5), 1) == (5, false);
    assert [] + [0] == [0] && [0] + [2] == [0, 2] && [0, 2] + [4] == [0, 2, 4];
    var c1 := Walk(L, 1, 2, Some(5), [1, 2], 2, [0]);
    assert c1 == c2;
    assert Walk(L, 0, Offset(Offset(0, 0), 0), None, [], 0, []) == c1;
  }

  /** `qs[7]` on the five records while `max` is unknown: the range `[7, 8)` is accepted, every
      request carries offset 7, and the server answers each with an empty page. However many
      answers the server gives, the loop requests them all and never stops on its own. */
  lemma {:induction false} PastTheEndScenario(n: nat)
    ensures var v := View([], 0, true, Some(FreshPager));
      var server := Server(None, seq(n, _ => ByOffset(7)));
      var e := Evaluated(Identity, v, 7, Some(8), server);
      && AnswersByCursor(ByOffset, e.asked, server.pages)
      && e.requests == n + 1 && e.outcome == Failure(TransportError)
  {
    ByOffsetPages();
    var v := View([], 0, true, Some(FreshPager));
    var server := Server(None, seq(n, _ => ByOffset(7)));
    BoundedEmptyPagesNeverComplete(Identity, v, 7, 8, server);
    BoundedRequestsRepeatCursor(Identity, v, 7, 8, server, ByOffset);
  }
}
