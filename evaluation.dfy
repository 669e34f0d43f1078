/** `_evaluate`, `_fetch` and `_fetch_pages` as functions from the queryset's state before
    an evaluation to its state after it, with the properties the queryset promises. */
module Evaluation {
  import opened Wrappers
  import opened Pages

  /** The exceptions an evaluation can end with. Both range errors are `ValueError`s in the
      queryset; they are told apart here by their messages. */
  datatype Error =
    | StartNotBeforeEnd  // "`start` cannot be greater than or equal to `end`"
    | EndBeyondMax       // "`end` cannot be greater than or equal to the maximum number of records"
    | TransportError     // the client's GET failed: the server had no answer to give
    | IndexError         // `[0]` of an empty evaluation

  /** The server's answers: `listing` is the body of the unpaginated GET (`None` when that
      GET fails), `pages` the bodies of successive paginated GETs in the order they are
      requested. */
  datatype Server<Item> = Server(listing: Option<seq<Item>>, pages: seq<Page<Item>>)

  /** What the queryset can see of its paginator: cursor state, `max`, and the two
      operations it calls. */
  datatype PagerView<!S> = PagerView(
    state: S,
    max: Option<int>,
    seek: (S, int) -> S,
    advance: (S, Option<int>, nat) -> (S, bool))

  /** The queryset's state: `_data`, `_count`, `_stale`, and its paginator if the model has
      one. */
  datatype View<Record, !S> = View(data: seq<Record>, count: int, stale: bool, pager: Option<PagerView<S>>)

  /** The value returned (or the exception raised), the number of GET requests made (a GET
      that failed included), the state afterwards, and the cursor state each paginated request
      was made with, in request order. */
  datatype Evaluation<Record, !S> = Evaluation(outcome: Result<seq<Record>, Error>, requests: nat, after: View<Record, S>, asked: seq<S>)

  /** A server that answers by cursor state: the page it returns for each answered request is
      a function `url` of the cursor state that request was made with. This is a server that
      answers by URL when `as_url()` renders the cursor state alone. */
  ghost predicate AnswersByCursor<Item, S>(url: S -> Page<Item>, asked: seq<S>, pages: seq<Page<Item>>)
  {
    forall j :: 0 <= j < |asked| && j < |pages| ==> pages[j] == url(asked[j])
  }

  /** The range check of `_evaluate` for a paginated queryset: an omitted `end` stands for
      `max`, and the resolved `end` must lie after `start` and, when `max` is known, below it.
      Because an omitted `end` resolves to `max` itself, an unbounded evaluation is refused
      as soon as `max` is known, and every accepted range keeps the caller's own `end`. */
  function CheckRange(start: int, end: Option<int>, max: Option<int>): (r: Result<Option<int>, Error>)
    ensures end.None? ==> (r.Success? <==> max.None?)
    ensures end.Some? ==> (r.Success? <==> start < end.value && (max.None? || end.value < max.value))
    ensures r.Success? ==> r.value == end
    ensures r.Failure? ==> r.error == (if start >= (if end.Some? then end else max).value then StartNotBeforeEnd else EndBeyondMax)
  {
    var bound := if end.None? then max else end;
    match bound
    case None => Success(None)
    case Some(e) =>
      if start >= e then Failure(StartNotBeforeEnd)
      else if max.Some? && e >= max.value then Failure(EndBeyondMax)
      else Success(bound)
  }

  /** `_fetch`: one GET of the whole collection when stale, otherwise the cache. A failed
      GET raises before any field is assigned. */
  function Fetched<Item, Record, S>(build: Item -> Record, v: View<Record, S>, listing: Option<seq<Item>>): (r: Evaluation<Record, S>)
    ensures r.requests == (if v.stale then 1 else 0) && r.after.pager == v.pager
    ensures r.outcome.Success? ==> !r.after.stale && r.outcome.value == r.after.data
    ensures r.outcome.Failure? ==> r.outcome == Failure(TransportError) && r.after == v
    ensures r.outcome.Failure? <==> v.stale && listing.None?
  {
    if !v.stale then
      Evaluation(Success(v.data), 0, v, [])
    else if listing.None? then
      Evaluation(Failure(TransportError), 1, v, [])
    else
      var data := Records(build, listing.value);
      Evaluation(Success(data), 1, v.(data := data, count := |data|, stale := false), [])
  }

  /** `_fetch_pages`: the cursor moves to `start`; when stale the cache is emptied, the
      cursor moved to `start` again and the loop run; a completed loop leaves the queryset
      fresh, a failed GET leaves it stale with what had been appended so far. */
  function PagesFetched<Item, Record, S>(build: Item -> Record, v: View<Record, S>, start: int, end: Option<int>, pages: seq<Page<Item>>): (r: Evaluation<Record, S>)
    requires v.pager.Some?
    ensures r.after.pager.Some? && r.after.pager.value.seek == v.pager.value.seek && r.after.pager.value.advance == v.pager.value.advance
    ensures |r.asked| == r.requests <= |pages| + 1
    ensures !v.stale ==> r.requests == 0 && r.outcome == Success(v.data) && r.after.data == v.data && !r.after.stale
    ensures v.stale ==> r.requests >= 1
    ensures r.outcome.Success? ==> !r.after.stale && r.outcome.value == r.after.data && r.requests <= |pages|
    ensures r.outcome.Failure? ==> r.outcome == Failure(TransportError) && r.after.stale && r.requests == |pages| + 1
  {
    var p := v.pager.value;
    var moved := p.(state := p.seek(p.state, start));
    if !v.stale then
      Evaluation(Success(v.data), 0, v.(pager := Some(moved)), [])
    else
      var c := Walk(Loop(build, p.advance, start, end, pages), 0, p.seek(moved.state, start), p.max, [], 0, []);
      Evaluation(
        if c.complete then Success(c.records) else Failure(TransportError),
        if c.complete then c.requests else c.requests + 1,
        View(c.records, c.count, !c.complete, Some(moved.(state := c.state, max := c.max))),
        if c.complete then c.asked else c.asked + [c.state])
  }

  /** `_evaluate(start, end)`: dispatch on whether the model has a paginator. */
  function Evaluated<Item, Record, S>(build: Item -> Record, v: View<Record, S>, start: int, end: Option<int>, server: Server<Item>): (r: Evaluation<Record, S>)
    ensures r.after.pager.Some? <==> v.pager.Some?
    ensures |r.asked| <= r.requests
    ensures r.outcome.Success? ==> !r.after.stale && r.outcome.value == r.after.data
    ensures r.outcome.Failure? && r.outcome.error != TransportError ==>
      v.pager.Some? && r.requests == 0 && r.after == v
    ensures r.requests == 0 && v.stale ==> r.outcome.Failure?
    ensures v.stale && (v.pager.None? || CheckRange(start, end, v.pager.value.max).Success?) ==> r.requests >= 1
  {
    match v.pager
    case None => Fetched(build, v, server.listing)
    case Some(p) =>
      match CheckRange(start, end, p.max)
      case Failure(err) => Evaluation(Failure(err), 0, v, [])
      case Success(bound) => PagesFetched(build, v, start, bound, server.pages)
  }

  /** The three shapes of `__getitem__`'s argument. */
  datatype Key = Slice(start: int, stop: Option<int>) | Index(i: int) | Whole

  /** What `__getitem__` hands back: the cache, or one record for an integer index. */
  datatype Selection<Record> = Many(records: seq<Record>) | One(record: Record)

  /** The range `__getitem__` evaluates for a key. */
  function KeyRange(key: Key): (r: (int, Option<int>))
    ensures key.Slice? ==> r == (key.start, key.stop)
    ensures key.Index? ==> r.0 == key.i && r.1 == Some(r.0 + 1)
    ensures key.Whole? ==> r.0 == 0 && r.1.None?
  {
    match key
    case Slice(start, stop) => (start, stop)
    case Index(i) => (i, Some(i + 1))
    case Whole => (0, None)
  }

  /** What `__getitem__` returns for a key, given the outcome of the evaluation: an integer
      index takes element 0 of the evaluated cache. */
  function Selected<Record>(key: Key, outcome: Result<seq<Record>, Error>): (r: Result<Selection<Record>, Error>)
    ensures r.Failure? <==> outcome.Failure? || (key.Index? && |outcome.value| == 0)
    ensures r.Failure? && outcome.Failure? ==> r.error == outcome.error
    ensures r.Failure? && outcome.Success? ==> r.error == IndexError
    ensures r.Success? && key.Index? ==> r.value == One(outcome.value[0])
    ensures r.Success? && !key.Index? ==> r.value == Many(outcome.value)
  {
    match outcome
    case Failure(err) => Failure(err)
    case Success(data) =>
      if key.Index? then (if |data| == 0 then Failure(IndexError) else Success(One(data[0])))
      else Success(Many(data))
  }

  /** The corrected integer index: a paginated evaluation of `[i, i + 1)` starts its cache at
      record `i`, so element 0 is right there; an unpaginated one caches the whole collection,
      so the record is element `i`. */
  function SelectedIntended<Record>(key: Key, paginated: bool, outcome: Result<seq<Record>, Error>): (r: Result<Selection<Record>, Error>)
    ensures paginated ==> r == Selected(key, outcome)
    ensures !paginated && key.Index? && outcome.Success? ==>
      r == if 0 <= key.i < |outcome.value| then Success(One(outcome.value[key.i])) else Failure(IndexError)
    ensures !key.Index? || outcome.Failure? ==> r == Selected(key, outcome)
  {
    match outcome
    case Failure(err) => Failure(err)
    case Success(data) =>
      if key.Index? then
        var at := if paginated then 0 else key.i;
        if 0 <= at < |data| then Success(One(data[at])) else Failure(IndexError)
      else Success(Many(data))
  }

  // ---------------------------------------------------------------------------------------
  // Properties of an evaluation

  /** An unpaginated evaluation makes a request exactly when the queryset is stale. If that
      GET fails, the exception leaves the queryset exactly as it was, still stale. Otherwise
      the cache holds one record per response item in response order, the queryset is fresh
      afterwards and returns its cache, and a second evaluation makes no request and returns
      the same cache. */
  lemma UnpaginatedFetchesOnce<Item, Record, S>(build: Item -> Record, v: View<Record, S>, start: int, end: Option<int>, server: Server<Item>,
                                                start': int, end': Option<int>, server': Server<Item>)
    requires v.pager.None?
    ensures var e := Evaluated(build, v, start, end, server);
      && e.requests == (if v.stale then 1 else 0)
      && (v.stale && server.listing.None? ==> e.outcome == Failure(TransportError) && e.after == v)
      && (!v.stale || server.listing.Some? ==>
            && !e.after.stale
            && e.outcome == Success(e.after.data)
            && (v.stale ==> |e.after.data| == |server.listing.value| == e.after.count &&
                            forall i :: 0 <= i < |server.listing.value| ==> e.after.data[i] == build(server.listing.value[i]))
            && (!v.stale ==> e.after == v)
            && var e' := Evaluated(build, e.after, start', end', server');
               e'.requests == 0 && e'.outcome == e.outcome && e'.after == e.after)
  {
  }

  /** An unpaginated evaluation ignores `start` and `end`: it always returns the whole
      collection. */
  lemma {:induction false} UnpaginatedIgnoresRange<Item, Record, S>(build: Item -> Record, v: View<Record, S>, server: Server<Item>,
                                                                   start: int, end: Option<int>, start': int, end': Option<int>)
    requires v.pager.None?
    ensures Evaluated(build, v, start, end, server) == Evaluated(build, v, start', end', server)
  {
  }

  /** A paginated evaluation whose range is refused raises before any request and leaves
      the queryset exactly as it was; the refusal happens exactly when the resolved `end`
      is not after `start`, or `max` is known and the resolved `end` reaches it. */
  lemma RefusedRangeChangesNothing<Item, Record, S>(build: Item -> Record, v: View<Record, S>, start: int, end: Option<int>, server: Server<Item>)
    requires v.pager.Some?
    ensures var e := Evaluated(build, v, start, end, server);
      var bound := if end.None? then v.pager.value.max else end;
      (e.outcome.Failure? && e.outcome.error != TransportError) <==>
        (bound.Some? && (start >= bound.value || (v.pager.value.max.Some? && bound.value >= v.pager.value.max.value)))
    ensures var e := Evaluated(build, v, start, end, server);
      e.outcome.Failure? && e.outcome.error != TransportError ==> e.requests == 0 && e.after == v
  {
  }

  /** `len()` and iteration evaluate without an `end`, so once the paginator knows `max`
      they raise: in particular after any completed evaluation whose last page reported a
      `count`. */
  lemma {:induction false} UnboundedRefusedOnceMaxKnown<Item, Record, S>(build: Item -> Record, v: View<Record, S>, start: int, end: Option<int>, server: Server<Item>,
                                                                        start': int, server': Server<Item>)
    requires v.pager.Some? && v.stale
    requires var e := Evaluated(build, v, start, end, server);
      var received := if e.requests <= |server.pages| then e.requests else |server.pages|;
      received > 0 && server.pages[received - 1].count.Some?
    ensures Evaluated(build, Evaluated(build, v, start, end, server).after, start', None, server').outcome.Failure?
  {
    var p := v.pager.value;
    var bound := CheckRange(start, end, p.max);
    assert bound.Success?;
  }

  /** A stale paginated evaluation with an explicit `end` that completes has emptied the
      cache and then appended the records of every page it requested, in request order; it
      holds at least `end - start` records (whole pages are appended and nothing is trimmed),
      the counter equals the cache length, the queryset is fresh, and `max` is the last
      page's `count`. */
  lemma BoundedEvaluationCovers<Item, Record, S>(build: Item -> Record, v: View<Record, S>, start: int, e: int, server: Server<Item>)
    requires v.pager.Some? && v.stale
    requires Evaluated(build, v, start, Some(e), server).outcome.Success?
    ensures var ev := Evaluated(build, v, start, Some(e), server);
      && ev.requests >= 1
      && ev.after.data == Gather(build, server.pages[..ev.requests])
      && ev.outcome == Success(ev.after.data)
      && |ev.after.data| >= e - start
      && ev.after.count == |ev.after.data|
      && !ev.after.stale
      && ev.after.pager.value.max == server.pages[ev.requests - 1].count
  {
    var p := v.pager.value;
    var L := Loop(build, p.advance, start, Some(e), server.pages);
    var st := p.seek(p.seek(p.state, start), start);
    WalkAppends(L, 0, st, p.max, [], 0, []);
    var c := Walk(L, 0, st, p.max, [], 0, []);
    assert server.pages[0..c.requests] == server.pages[..c.requests];
  }

  /** A bounded evaluation fetches no page it did not need: before each of its requests
      but the first, the pages already received held fewer than `end - start` records. */
  lemma BoundedEvaluationIsMinimal<Item, Record, S>(build: Item -> Record, v: View<Record, S>, start: int, e: int, server: Server<Item>)
    requires v.pager.Some? && v.stale
    ensures var ev := Evaluated(build, v, start, Some(e), server);
      forall j :: 0 < j < ev.requests ==> |Gather(build, server.pages[..j])| < e - start
  {
    var p := v.pager.value;
    if CheckRange(start, Some(e), p.max).Success? {
      var L := Loop(build, p.advance, start, Some(e), server.pages);
      var st := p.seek(p.seek(p.state, start), start);
      WalkStopsAtFirstCover(L, 0, st, p.max, [], 0, []);
      var c := Walk(L, 0, st, p.max, [], 0, []);
      forall j | 0 < j < c.requests || (!c.complete && 0 < j == c.requests)
        ensures |Gather(build, server.pages[..j])| < e - start
      {
        assert server.pages[0..j] == server.pages[..j];
      }
    }
  }

  /** A bounded evaluation whose range is accepted completes without a transport error as
      soon as the server's answers hold at least `end - start` records in all. */
  lemma BoundedEvaluationCompletes<Item, Record, S>(build: Item -> Record, v: View<Record, S>, start: int, e: int, server: Server<Item>)
    requires v.pager.Some? && v.stale
    requires CheckRange(start, Some(e), v.pager.value.max).Success?
    requires |Gather(build, server.pages)| >= e - start
    ensures Evaluated(build, v, start, Some(e), server).outcome.Success?
  {
    var p := v.pager.value;
    var L := Loop(build, p.advance, start, Some(e), server.pages);
    var st := p.seek(p.seek(p.state, start), start);
    assert server.pages[0..] == server.pages;
    WalkCompletes(L, 0, st, p.max, [], 0, []);
  }

  /** With an explicit `end`, a stale paginated evaluation makes every request with the one
      cursor state `seek(seek(state, start), start)` and leaves the cursor there, however many
      pages it requests; so a server that answers by cursor state returns the same page every
      time. */
  lemma BoundedRequestsRepeatCursor<Item, Record, S>(build: Item -> Record, v: View<Record, S>, start: int, e: int, server: Server<Item>, url: S -> Page<Item>)
    requires v.pager.Some? && v.stale
    ensures var ev := Evaluated(build, v, start, Some(e), server);
      var p := v.pager.value;
      var at := p.seek(p.seek(p.state, start), start);
      && |ev.asked| == ev.requests
      && (forall j :: 0 <= j < ev.requests ==> ev.asked[j] == at)
      && (CheckRange(start, Some(e), p.max).Success? ==> ev.after.pager.value.state == at)
      && (AnswersByCursor(url, ev.asked, server.pages) ==>
            forall j :: 0 <= j < ev.requests && j < |server.pages| ==> server.pages[j] == url(at))
  {
    var p := v.pager.value;
    if CheckRange(start, Some(e), p.max).Success? {
      var L := Loop(build, p.advance, start, Some(e), server.pages);
      var st := p.seek(p.seek(p.state, start), start);
      WalkKeepsCursor(L, 0, st, p.max, [], 0, []);
    }
  }

  /** A stale paginated evaluation of an accepted bounded range whose every answer is an
      empty page never leaves the loop through its stop test: it requests page after page for
      as long as the server answers, and ends only when a GET fails, stale and with nothing
      cached. */
  lemma BoundedEmptyPagesNeverComplete<Item, Record, S>(build: Item -> Record, v: View<Record, S>, start: int, e: int, server: Server<Item>)
    requires v.pager.Some? && v.stale
    requires CheckRange(start, Some(e), v.pager.value.max).Success?
    requires forall j :: 0 <= j < |server.pages| ==> server.pages[j].results == []
    ensures var ev := Evaluated(build, v, start, Some(e), server);
      && ev.outcome == Failure(TransportError)
      && ev.requests == |server.pages| + 1
      && ev.after.stale && ev.after.count == 0 && ev.after.data == []
  {
    var p := v.pager.value;
    var L := Loop(build, p.advance, start, Some(e), server.pages);
    var st := p.seek(p.seek(p.state, start), start);
    WalkNeverCompletesOnEmptyPages(L, 0, st, p.max, [], 0, []);
    WalkAppends(L, 0, st, p.max, [], 0, []);
  }

  /** A paginated evaluation of a fresh queryset with an accepted range makes no request and
      returns the cache as it is, whatever range was asked for; only the cursor moves to
      `start`. */
  lemma FreshEvaluationReusesCache<Item, Record, S>(build: Item -> Record, v: View<Record, S>, start: int, end: Option<int>, server: Server<Item>)
    requires v.pager.Some? && !v.stale
    requires CheckRange(start, end, v.pager.value.max).Success?
    ensures var ev := Evaluated(build, v, start, end, server);
      && ev.requests == 0
      && ev.outcome == Success(v.data)
      && ev.after.data == v.data && ev.after.count == v.count && !ev.after.stale
      && ev.after.pager.value.state == v.pager.value.seek(v.pager.value.state, start)
      && ev.after.pager.value.max == v.pager.value.max
  {
  }

  /** Every evaluation keeps `_count` equal to the cache length; one that returns records
      leaves the queryset fresh and returns its cache; one whose GET failed leaves it stale:
      unpaginated, unchanged after its one request; paginated, holding every record received
      before the failure, after all the server's pages were requested. */
  lemma {:induction false} EvaluationKeepsCountInStep<Item, Record, S>(build: Item -> Record, v: View<Record, S>, start: int, end: Option<int>, server: Server<Item>)
    requires v.count == |v.data|
    ensures var ev := Evaluated(build, v, start, end, server);
      && ev.after.count == |ev.after.data|
      && (ev.outcome.Success? ==> !ev.after.stale && ev.outcome.value == ev.after.data)
      && (ev.outcome == Failure(TransportError) ==>
            && ev.after.stale
            && (v.pager.None? ==> ev.requests == 1 && ev.after == v)
            && (v.pager.Some? ==> ev.requests == |server.pages| + 1 && ev.after.data == Gather(build, server.pages)))
  {
    if v.pager.Some? && v.stale && CheckRange(start, end, v.pager.value.max).Success? {
      var p := v.pager.value;
      var L := Loop(build, p.advance, start, end, server.pages);
      var st := p.seek(p.seek(p.state, start), start);
      WalkAppends(L, 0, st, p.max, [], 0, []);
      assert server.pages[0..|server.pages|] == server.pages;
    }
  }

  /** The integer index of `__getitem__` as written: on an unpaginated queryset, whose
      evaluation ignores the range, `qs[i]` yields the first record of the collection for
      every `i`. */
  lemma UnpaginatedIndexYieldsFirst<Item, Record, S>(build: Item -> Record, v: View<Record, S>, i: int, server: Server<Item>)
    requires v.pager.None? && v.stale && server.listing.Some? && |server.listing.value| > 0
    ensures var k := KeyRange(Index(i));
      Selected(Index(i), Evaluated(build, v, k.0, k.1, server).outcome) == Success(One(build(server.listing.value[0])))
  {
  }

  /** The corrected integer index: on an unpaginated queryset `qs[i]` yields record `i` of
      the whole collection (fetched now when stale, cached otherwise) and raises `IndexError`
      outside it; on a paginated one it agrees with the index as written. */
  lemma IntendedIndexSelectsItem<Item, Record, S>(build: Item -> Record, v: View<Record, S>, i: int, server: Server<Item>)
    ensures var k := KeyRange(Index(i));
      var outcome := Evaluated(build, v, k.0, k.1, server).outcome;
      && (v.pager.None? && v.stale && server.listing.Some? ==>
            var items := server.listing.value;
            SelectedIntended(Index(i), false, outcome) ==
              if 0 <= i < |items| then Success(One(build(items[i]))) else Failure(IndexError))
      && (v.pager.None? && !v.stale ==>
            SelectedIntended(Index(i), false, outcome) ==
              if 0 <= i < |v.data| then Success(One(v.data[i])) else Failure(IndexError))
      && (v.pager.Some? ==> SelectedIntended(Index(i), true, outcome) == Selected(Index(i), outcome))
  {
  }
}
