/** The pagination loop of `_fetch_pages` as a reference function over the server's pages,
    with the properties of its stopping rule. */
module Pages {
  import opened Wrappers

  /** One paginated response body: its `results` and the optional `count` of records the
      server holds. */
  datatype Page<Item> = Page(results: seq<Item>, count: Option<int>)

  /** One record per raw item, in the server's order. */
  function Records<Item, Record>(build: Item -> Record, items: seq<Item>): (r: seq<Record>)
    ensures |r| == |items|
  {
    seq(|items|, i requires 0 <= i < |items| => build(items[i]))
  }

  lemma RecordsAt<Item, Record>(build: Item -> Record, items: seq<Item>)
    ensures forall i :: 0 <= i < |items| ==> Records(build, items)[i] == build(items[i])
  {
  }

  /** The records of consecutive pages, page after page. */
  function Gather<Item, Record>(build: Item -> Record, pages: seq<Page<Item>>): seq<Record>
  {
    if pages == [] then [] else Records(build, pages[0].results) + Gather(build, pages[1..])
  }

  /** What one run of the loop does not change: the record constructor, the paginator's
      `next`, the requested `start` and `end`, and the server's answers in request order. */
  datatype Loop<!Item, Record, !S> = Loop(
    build: Item -> Record,
    advance: (S, Option<int>, nat) -> (S, bool),
    start: int,
    end: Option<int>,
    pages: seq<Page<Item>>)

  /** Where the loop ended: whether it left through its stop test (`complete`) or because
      the server had no answer to the next request, the cache and counter it built, how many
      requests were answered (a loop that did not complete made one more, the GET that
      failed), the paginator's state and `max`, and the cursor state each answered request was
      made with, in request order. */
  datatype Crawl<Record, S> = Crawl(
    complete: bool,
    records: seq<Record>,
    count: int,
    requests: nat,
    state: S,
    max: Option<int>,
    asked: seq<S>)

  /** The stop test: with no `end` the paginator decides, and moves the cursor; otherwise the
      loop goes on while fewer than `end - start` records are cached, and `next` is not called,
      so the cursor stays where it is. */
  function Decide<Item, Record, S>(L: Loop<Item, Record, S>, state: S, max: Option<int>, count: int, retrieved: nat): (r: (S, bool))
    ensures L.end.Some? ==> r.0 == state && (r.1 <==> count < L.end.value - L.start)
    ensures L.end.None? ==> r == L.advance(state, max, retrieved)
  {
    if L.end.None? then L.advance(state, max, retrieved) else (state, count < L.end.value - L.start)
  }

  /** The loop from request number `k` on, with cache `acc`, counter `count`, paginator
      state `state` and `max`, and the cursor states `asked` of the `k` requests already made.
      Each round requests a page with the current cursor state, takes the server's answer,
      overwrites `max` with its `count`, appends its records, adds its size to the counter,
      and asks the stop test. */
  function Walk<Item, Record, S>(L: Loop<Item, Record, S>, k: nat, state: S, max: Option<int>, acc: seq<Record>, count: int, asked: seq<S>): (c: Crawl<Record, S>)
    requires k <= |L.pages| && |asked| == k
    ensures k <= c.requests <= |L.pages|
    ensures |c.asked| == c.requests && c.asked[..k] == asked
    ensures c.complete ==> k < c.requests
    ensures !c.complete ==> c.requests == |L.pages|
    ensures c.complete && L.end.Some? ==> c.count >= L.end.value - L.start
    ensures c.max == if c.requests == k then max else L.pages[c.requests - 1].count
    decreases |L.pages| - k
  {
    if k == |L.pages| then
      Crawl(false, acc, count, k, state, max, asked)
    else
      var page := L.pages[k];
      var n := |page.results|;
      var acc' := acc + Records(L.build, page.results);
      var count' := count + n;
      var next := Decide(L, state, page.count, count', n);
      if next.1 then Walk(L, k + 1, next.0, page.count, acc', count', asked + [state])
      else Crawl(true, acc', count', k + 1, next.0, page.count, asked + [state])
  }

  /** Where the loop ends from a point between two rounds: when the last stop test said
      "fetch", the rest of the walk; otherwise the loop is over. */
  function Resume<Item, Record, S>(L: Loop<Item, Record, S>, fetch: bool, k: nat, state: S, max: Option<int>, acc: seq<Record>, count: int, asked: seq<S>): Crawl<Record, S>
    requires k <= |L.pages| && |asked| == k
  {
    if fetch then Walk(L, k, state, max, acc, count, asked) else Crawl(true, acc, count, k, state, max, asked)
  }

  /** One round of the loop: request `k` either ends the loop or leaves the rest to request
      `k + 1`. */
  lemma WalkStep<Item, Record, S>(L: Loop<Item, Record, S>, k: nat, state: S, max: Option<int>, acc: seq<Record>, count: int, asked: seq<S>)
    requires k < |L.pages| && |asked| == k
    ensures var page := L.pages[k];
      var count' := count + |page.results|;
      var next := Decide(L, state, page.count, count', |page.results|);
      Walk(L, k, state, max, acc, count, asked) ==
        Resume(L, next.1, k + 1, next.0, page.count, acc + Records(L.build, page.results), count', asked + [state])
  {
  }

  lemma GatherCons<Item, Record>(build: Item -> Record, pages: seq<Page<Item>>, k: nat, j: nat)
    requires k < j <= |pages|
    ensures Gather(build, pages[k..j]) == Records(build, pages[k].results) + Gather(build, pages[k + 1..j])
  {
  }

  /** The cache the loop leaves is the old cache followed by the records of every page it
      requested, in request order, and the counter grew by exactly the number of records
      appended. */
  lemma {:induction false} WalkAppends<Item, Record, S>(L: Loop<Item, Record, S>, k: nat, state: S, max: Option<int>, acc: seq<Record>, count: int, asked: seq<S>)
    requires k <= |L.pages| && |asked| == k
    ensures var c := Walk(L, k, state, max, acc, count, asked);
      c.records == acc + Gather(L.build, L.pages[k..c.requests]) &&
      c.count - count == |c.records| - |acc|
    decreases |L.pages| - k
  {
    if k < |L.pages| {
      var page := L.pages[k];
      var acc' := acc + Records(L.build, page.results);
      var count' := count + |page.results|;
      var next := Decide(L, state, page.count, count', |page.results|);
      var c := Walk(L, k, state, max, acc, count, asked);
      GatherCons(L.build, L.pages, k, c.requests);
      if next.1 {
        WalkAppends(L, k + 1, next.0, page.count, acc', count', asked + [state]);
      } else {
        assert L.pages[k + 1..c.requests] == [];
      }
    }
  }

  /** With an explicit `end` the loop stops at the first page that brings the counter to
      `end - start`: before every earlier request the counter was still short of it. */
  lemma {:induction false} WalkStopsAtFirstCover<Item, Record, S>(L: Loop<Item, Record, S>, k: nat, state: S, max: Option<int>, acc: seq<Record>, count: int, asked: seq<S>)
    requires k <= |L.pages| && |asked| == k && L.end.Some?
    ensures var c := Walk(L, k, state, max, acc, count, asked);
      forall j :: k < j < c.requests ==> count + |Gather(L.build, L.pages[k..j])| < L.end.value - L.start
    ensures var c := Walk(L, k, state, max, acc, count, asked);
      !c.complete && k < c.requests ==> count + |Gather(L.build, L.pages[k..c.requests])| < L.end.value - L.start
    decreases |L.pages| - k
  {
    if k < |L.pages| {
      var page := L.pages[k];
      var acc' := acc + Records(L.build, page.results);
      var count' := count + |page.results|;
      var next := Decide(L, state, page.count, count', |page.results|);
      var c := Walk(L, k, state, max, acc, count, asked);
      if next.1 {
        WalkStopsAtFirstCover(L, k + 1, next.0, page.count, acc', count', asked + [state]);
        forall j | k < j < c.requests || (!c.complete && j == c.requests)
          ensures count + |Gather(L.build, L.pages[k..j])| < L.end.value - L.start
        {
          GatherCons(L.build, L.pages, k, j);
          if j == k + 1 {
            assert L.pages[k + 1..j] == [];
          }
        }
      }
    }
  }

  /** With an explicit `end`, a server that still holds at least `end - start - count`
      records in its remaining answers lets the loop finish through its stop test. */
  lemma {:induction false} WalkCompletes<Item, Record, S>(L: Loop<Item, Record, S>, k: nat, state: S, max: Option<int>, acc: seq<Record>, count: int, asked: seq<S>)
    requires k < |L.pages| && |asked| == k && L.end.Some?
    requires count + |Gather(L.build, L.pages[k..])| >= L.end.value - L.start
    ensures Walk(L, k, state, max, acc, count, asked).complete
    decreases |L.pages| - k
  {
    var page := L.pages[k];
    var acc' := acc + Records(L.build, page.results);
    var count' := count + |page.results|;
    var next := Decide(L, state, page.count, count', |page.results|);
    GatherCons(L.build, L.pages, k, |L.pages|);
    assert L.pages[k..|L.pages|] == L.pages[k..];
    assert L.pages[k + 1..|L.pages|] == L.pages[k + 1..];
    if next.1 && k + 1 < |L.pages| {
      WalkCompletes(L, k + 1, next.0, page.count, acc', count', asked + [state]);
    }
  }

  /** With an explicit `end` the loop never calls `next` and nothing else in it moves the
      cursor: every request is made with the cursor state the loop started with, so every
      request carries the same URL, and the loop ends with the cursor where it was. */
  lemma {:induction false} WalkKeepsCursor<Item, Record, S>(L: Loop<Item, Record, S>, k: nat, state: S, max: Option<int>, acc: seq<Record>, count: int, asked: seq<S>)
    requires k <= |L.pages| && |asked| == k && L.end.Some?
    ensures var c := Walk(L, k, state, max, acc, count, asked);
      c.state == state && forall j :: k <= j < c.requests ==> c.asked[j] == state
    decreases |L.pages| - k
  {
    if k < |L.pages| {
      var page := L.pages[k];
      var acc' := acc + Records(L.build, page.results);
      var count' := count + |page.results|;
      var next := Decide(L, state, page.count, count', |page.results|);
      var c := Walk(L, k, state, max, acc, count, asked);
      assert c.asked[..k + 1] == asked + [state];
      assert c.asked[k] == (asked + [state])[k];
      if next.1 {
        WalkKeepsCursor(L, k + 1, next.0, page.count, acc', count', asked + [state]);
      }
    }
  }

  /** With an explicit `end` and a counter short of `end - start`, answers that are all empty
      pages never let the loop leave through its stop test: the counter never grows, so the
      loop asks again for as long as the server answers. */
  lemma {:induction false} WalkNeverCompletesOnEmptyPages<Item, Record, S>(L: Loop<Item, Record, S>, k: nat, state: S, max: Option<int>, acc: seq<Record>, count: int, asked: seq<S>)
    requires k <= |L.pages| && |asked| == k && L.end.Some?
    requires count < L.end.value - L.start
    requires forall j :: k <= j < |L.pages| ==> L.pages[j].results == []
    ensures var c := Walk(L, k, state, max, acc, count, asked);
      !c.complete && c.count == count
    decreases |L.pages| - k
  {
    if k < |L.pages| {
      var page := L.pages[k];
      assert |page.results| == 0;
      var acc' := acc + Records(L.build, page.results);
      WalkNeverCompletesOnEmptyPages(L, k + 1, state, page.count, acc', count, asked + [state]);
    }
  }

  // ---------------------------------------------------------------------------------------
  // The loop as evidently intended

  /** The corrected stop test: `next` is called with or without an `end`, so the cursor moves
      past every page received; with an explicit `end` the loop goes on while the range is not
      covered and the last page was not empty, since an empty page means the server holds
      nothing further. */
  function DecideIntended<Item, Record, S>(L: Loop<Item, Record, S>, state: S, max: Option<int>, count: int, retrieved: nat): (r: (S, bool))
    ensures r.0 == L.advance(state, max, retrieved).0
    ensures L.end.None? ==> r.1 == L.advance(state, max, retrieved).1
    ensures L.end.Some? ==> (r.1 <==> retrieved > 0 && count < L.end.value - L.start)
  {
    var next := L.advance(state, max, retrieved);
    if L.end.None? then next else (next.0, retrieved > 0 && count < L.end.value - L.start)
  }

  /** The loop of `Walk` with the corrected stop test. */
  function WalkIntended<Item, Record, S>(L: Loop<Item, Record, S>, k: nat, state: S, max: Option<int>, acc: seq<Record>, count: int, asked: seq<S>): (c: Crawl<Record, S>)
    requires k <= |L.pages| && |asked| == k
    ensures k <= c.requests <= |L.pages|
    ensures |c.asked| == c.requests && c.asked[..k] == asked
    ensures c.complete ==> k < c.requests
    ensures !c.complete ==> c.requests == |L.pages|
    decreases |L.pages| - k
  {
    if k == |L.pages| then
      Crawl(false, acc, count, k, state, max, asked)
    else
      var page := L.pages[k];
      var n := |page.results|;
      var acc' := acc + Records(L.build, page.results);
      var count' := count + n;
      var next := DecideIntended(L, state, page.count, count', n);
      if next.1 then WalkIntended(L, k + 1, next.0, page.count, acc', count', asked + [state])
      else Crawl(true, acc', count', k + 1, next.0, page.count, asked + [state])
  }

  /** Corrected loop: the first request is made with the starting cursor state, and each later
      request with the state `next` produced from the previous request's state and page. */
  lemma {:induction false} IntendedCursorAdvances<Item, Record, S>(L: Loop<Item, Record, S>, k: nat, state: S, max: Option<int>, acc: seq<Record>, count: int, asked: seq<S>)
    requires k <= |L.pages| && |asked| == k
    ensures var c := WalkIntended(L, k, state, max, acc, count, asked);
      && (k < c.requests ==> c.asked[k] == state)
      && forall j :: k <= j && j + 1 < c.requests ==>
           c.asked[j + 1] == L.advance(c.asked[j], L.pages[j].count, |L.pages[j].results|).0
    decreases |L.pages| - k
  {
    if k < |L.pages| {
      var page := L.pages[k];
      var acc' := acc + Records(L.build, page.results);
      var count' := count + |page.results|;
      var next := DecideIntended(L, state, page.count, count', |page.results|);
      var c := WalkIntended(L, k, state, max, acc, count, asked);
      assert c.asked[..k + 1] == asked + [state];
      assert c.asked[k] == (asked + [state])[k];
      if next.1 {
        IntendedCursorAdvances(L, k + 1, next.0, page.count, acc', count', asked + [state]);
      }
    }
  }

  /** Corrected loop: with an explicit `end`, the first empty page ends the loop through its
      stop test, so it never asks past an empty page. */
  lemma {:induction false} IntendedStopsOnEmptyPage<Item, Record, S>(L: Loop<Item, Record, S>, k: nat, state: S, max: Option<int>, acc: seq<Record>, count: int, asked: seq<S>, e: nat)
    requires k <= e < |L.pages| && |asked| == k && L.end.Some?
    requires L.pages[e].results == []
    ensures var c := WalkIntended(L, k, state, max, acc, count, asked);
      c.complete && c.requests <= e + 1
    decreases |L.pages| - k
  {
    var page := L.pages[k];
    var acc' := acc + Records(L.build, page.results);
    var count' := count + |page.results|;
    var next := DecideIntended(L, state, page.count, count', |page.results|);
    if next.1 {
      IntendedStopsOnEmptyPage(L, k + 1, next.0, page.count, acc', count', asked + [state], e);
    }
  }
}
