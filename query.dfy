/** `RestQueryset`: a lazily evaluated, cached view of a REST collection. Its methods update
    `data`, `count` and `stale` (and the paginator's cursor and `max`) in place; each one is
    proved to leave the state that the matching function of module Evaluation computes from
    the state before the call. */
module Query {
  import opened Wrappers
  import opened Pages
  import opened Pagination
  import opened Evaluation

  /** Whether the model supplies a paginator class. */
  datatype Collection<S> = Unpaginated | Paginated(paginator: Paginator<S>)

  class RestQueryset<Item, Record, S> {
    /** `_data`: the local cache of records. */
    var data: seq<Record>
    /** `_count`: how many records are cached. */
    var count: int
    /** `_stale`: whether the next evaluation must go to the server. */
    var stale: bool
    /** The model's constructor `model(data=item)`. */
    const build: Item -> Record
    const kind: Collection<S>

    /** The objects an evaluation may change. */
    function Frame(): set<object>
    {
      if kind.Paginated? then {this, kind.paginator} else {this}
    }

    ghost predicate Valid()
      reads this
    {
      count == |data|
    }

    /** The queryset's state as a value. */
    ghost function Snapshot(): View<Record, S>
      reads this, Frame()
    {
      View(data, count, stale,
           if kind.Paginated? then
             var p := kind.paginator;
             Some(PagerView(p.state, p.max, p.seek, p.advance))
           else None)
    }

    /** `__init__`: an empty, stale cache. */
    constructor (build: Item -> Record, kind: Collection<S>)
      ensures Valid()
      ensures data == [] && count == 0 && stale
      ensures this.build == build && this.kind == kind
    {
      data := [];
      count := 0;
      stale := true;
      this.build := build;
      this.kind := kind;
    }

    /** `_fetch`. A failed GET raises `TransportError` and leaves the queryset as it was. */
    method Fetch(listing: Option<seq<Item>>) returns (r: Result<seq<Record>, Error>, requests: nat)
      requires Valid() && kind.Unpaginated?
      modifies this
      ensures Valid()
      ensures var e := Fetched(build, old(Snapshot()), listing);
        Snapshot() == e.after && r == e.outcome && requests == e.requests
    {
      requests := 0;
      if stale {
        requests := 1;
        if listing.None? {
          r := Failure(TransportError);
          return;
        }
        data := Records(build, listing.value);
        count := |data|;
        stale := false;
      }
      r := Success(data);
    }

    /** `_fetch_pages`. A GET that finds the server without an answer raises `TransportError`
        out of the loop, leaving the queryset stale. */
    method FetchPages(start: int, end: Option<int>, pages: seq<Page<Item>>) returns (r: Result<seq<Record>, Error>, requests: nat)
      requires Valid() && kind.Paginated?
      modifies this, kind.paginator
      ensures Valid()
      ensures var e := PagesFetched(build, old(Snapshot()), start, end, pages);
        Snapshot() == e.after && r == e.outcome && requests == e.requests
    {
      kind.paginator.Cursor(start);
      if stale {
        r, requests := Crawl(start, end, pages);
      } else {
        r, requests := Success(data), 0;
      }
    }

    /** The stale branch of `_fetch_pages`: empty the cache, move the cursor to `start`
        and run the `while fetch` loop, which `Walk` describes. */
    method Crawl(start: int, end: Option<int>, pages: seq<Page<Item>>) returns (r: Result<seq<Record>, Error>, requests: nat)
      requires Valid() && kind.Paginated? && stale
      modifies this, kind.paginator
      ensures Valid()
      ensures var p := kind.paginator;
        var c := Walk(Loop(build, p.advance, start, end, pages), 0, p.seek(old(p.state), start), old(p.max), [], 0, []);
        data == c.records && count == c.count && stale == !c.complete
        && p.state == c.state && p.max == c.max && requests == (if c.complete then c.requests else c.requests + 1)
        && r == (if c.complete then Success(c.records) else Failure(TransportError))
    {
      var p := kind.paginator;
      requests := 0;
      data := [];
      count := 0;
      p.Cursor(start);
      ghost var L := Loop(build, p.advance, start, end, pages);
      ghost var st, mx, acc, cnt, asked := p.state, p.max, [], 0, [];
      ghost var goal := Walk(L, 0, st, mx, acc, cnt, asked);
      var fetch, failed := true, false;
      while fetch
        invariant stale && requests <= |pages|
        invariant count == |data|
        invariant p.state == st && p.max == mx && data == acc && count == cnt && |asked| == requests
        invariant Resume(L, fetch, requests, st, mx, acc, cnt, asked) == goal
        decreases |pages| - requests
      {
        if requests == |pages| {
          requests := requests + 1;
          failed := true;
          break;
        }
        var page := pages[requests];
        WalkStep(L, requests, st, mx, acc, cnt, asked);
        requests := requests + 1;
        fetch := Round(page, start, end);
        st, mx, acc, cnt, asked := p.state, p.max, data, count, asked + [st];
      }
      if failed {
        r := Failure(TransportError);
      } else {
        stale := false;
        r := Success(data);
      }
    }

    /** One round of the `while fetch` loop, given the page the server answered with: record
        the reported total as the new maximum, append the page's records, count them, then
        decide whether to go on (the paginator decides when there is no end). */
    method Round(page: Page<Item>, start: int, end: Option<int>) returns (fetch: bool)
      requires kind.Paginated?
      modifies this, kind.paginator
      ensures var p := kind.paginator;
        var n := |page.results|;
        p.max == page.count && stale == old(stale)
        && data == old(data) + Records(build, page.results) && count == old(count) + n
        && (p.state, fetch) == Decide(Loop(build, p.advance, start, end, []), old(p.state), page.count, count, n)
    {
      var p := kind.paginator;
      p.max := page.count;
      var n := |page.results|;
      data := data + Records(build, page.results);
      count := count + n;
      if end.None? {
        fetch := p.Next(n);
      } else {
        fetch := count < end.value - start;
      }
    }

    /** `_evaluate`. */
    method Evaluate(start: int, end: Option<int>, server: Server<Item>) returns (r: Result<seq<Record>, Error>, requests: nat)
      requires Valid()
      modifies Frame()
      ensures Valid()
      ensures var e := Evaluated(build, old(Snapshot()), start, end, server);
        Snapshot() == e.after && r == e.outcome && requests == e.requests
    {
      match kind
      case Unpaginated =>
        r, requests := Fetch(server.listing);
      case Paginated(p) =>
        var bound := CheckRange(start, end, p.max);
        if bound.Failure? {
          r, requests := Failure(bound.error), 0;
        } else {
          r, requests := FetchPages(start, bound.value, server.pages);
        }
    }

    /** `__iter__`: iterates over the cache of an unbounded evaluation. */
    method Iterate(server: Server<Item>) returns (r: Result<seq<Record>, Error>, requests: nat)
      requires Valid()
      modifies Frame()
      ensures Valid()
      ensures var e := Evaluated(build, old(Snapshot()), 0, None, server);
        Snapshot() == e.after && r == e.outcome && requests == e.requests
    {
      r, requests := Evaluate(0, None, server);
    }

    /** `__len__`: the size of the cache after an unbounded evaluation. */
    method Length(server: Server<Item>) returns (r: Result<nat, Error>, requests: nat)
      requires Valid()
      modifies Frame()
      ensures Valid()
      ensures var e := Evaluated(build, old(Snapshot()), 0, None, server);
        Snapshot() == e.after && requests == e.requests &&
        r == if e.outcome.Success? then Success(|e.outcome.value|) else Failure(e.outcome.error)
    {
      var cache;
      cache, requests := Evaluate(0, None, server);
      r := if cache.Success? then Success(|cache.value|) else Failure(cache.error);
    }

    /** `__getitem__`: a slice evaluates `[start, stop)`, an integer `i` evaluates
        `[i, i + 1)` and yields element 0 of the result, anything else evaluates unbounded. */
    method GetItem(key: Key, server: Server<Item>) returns (r: Result<Selection<Record>, Error>, requests: nat)
      requires Valid()
      modifies Frame()
      ensures Valid()
      ensures var k := KeyRange(key);
        var e := Evaluated(build, old(Snapshot()), k.0, k.1, server);
        Snapshot() == e.after && requests == e.requests && r == Selected(key, e.outcome)
    {
      var cache;
      match key {
        case Slice(start, stop) =>
          cache, requests := Evaluate(start, stop, server);
        case Index(i) =>
          cache, requests := Evaluate(i, Some(i + 1), server);
        case Whole =>
          cache, requests := Evaluate(0, None, server);
      }
      if cache.Failure? {
        r := Failure(cache.error);
      } else if key.Index? {
        r := if |cache.value| == 0 then Failure(IndexError) else Success(One(cache.value[0]));
      } else {
        r := Success(Many(data));
      }
    }
  }
}
