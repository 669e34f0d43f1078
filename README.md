# RestQueryset: lazy, paginated evaluation of a REST collection

This project models the core of py-rest-orm's `RestQueryset` (`pyrestorm/query.py`) in Dafny.
A queryset is a list-like view of a remote collection. It goes to the server only when it is
iterated, indexed or sliced, or asked for its length. Whatever it fetched stays in a local
cache until it is built again.

It holds three pieces of state that change in place:
- `_data`, the cache of records;
- `_count`, the number of cached records;
- `_stale`, whether the next evaluation must go to the server.

A model that supplies a paginator gives the queryset a cursor and `max`, the record total the
server last reported. `_evaluate(start, end)` dispatches on that paginator:
- Unpaginated: `_fetch` makes one GET of the whole collection and ignores the range.
- Paginated: the range is checked first. Then, when the queryset is stale, `_fetch_pages`
  empties the cache and requests page after page. It appends each page's records and adds their number to the counter. It
  stops when the requested range is covered, or, with no `end`, when the paginator says so.

Layout:
- `wrappers.dfy`: `Option` and `Result`.
- `pagination.dfy`: the paginator as a class. Its cursor state has an abstract type. `cursor`
  and `next` are given operations, and `max` is a field.
- `pages.dfy`: the `while fetch` loop as a reference function `Walk` over the server's pages,
  with the properties of its stopping rule.
- `evaluation.dfy`: the state of a queryset as a value (`View`), and `_fetch`, `_fetch_pages`,
  `_evaluate` and the range check as functions from the state before an evaluation to the
  outcome, the number of requests and the state after it. It also holds the lemmas about
  them.
- `query.dfy`: the class `RestQueryset`. Its fields are `data`, `count` and `stale`, and its
  methods update them in place. `Crawl` runs the loop with invariants, one `Round` per page. Each method
  ensures that its new state (`Snapshot()`) is what the matching function of `evaluation.dfy`
  computes from `old(Snapshot())`.
- `scenarios.dfy`: concrete evaluations. One is an unpaginated collection of three records.
  The other is a paginated one of five records, which the server answers two per page from
  the offset in the request's URL.

Collaborators are parameters:
- Transport: `Server(listing, pages)`. `listing` is the body of the unpaginated GET, or
  `None` when that GET fails. `pages` are the bodies of the successive paginated GETs, in
  request order; each body has `results` and an optional `count`. When the loop asks for more
  pages than the server has, that GET fails. A failed GET raises `TransportError`.
- Request counts: `Evaluation.requests` counts every GET made, the one that failed
  included. `Crawl.requests` counts the answered requests of the loop; a loop that did not
  complete made one more, the GET that failed.
- Request URLs: each paginated request's URL is `as_url()` of the paginator (line 73). The
  model assumes `as_url()` renders the cursor state alone (see "## Left out"). The loop records
  the cursor state of each request it makes, the failed one included (`Crawl.asked`,
  `Evaluation.asked`). Under that assumption, a server that answers by URL is the condition
  `AnswersByCursor(url, asked, pages)`: the answer to each answered request is `url` applied
  to that request's cursor state. The scenarios use such a server.
- Record constructor: `model(data=item)` is a function `build: Item -> Record`.
- Paginator: the class is not part of this model. Its cursor state `S`, `cursor(pos)` and
  `next(retrieved)` stay uninterpreted. `next` also sees `max`.

## Model

| member | source | states |
|---|---|---|
| `Pagination.Paginator.constructor` | pyrestorm/query.py:22-23 | a new paginator holds the given cursor state, `max` and operations |
| `Pagination.Paginator.Cursor` | pyrestorm/query.py:60 | moving the cursor changes only the cursor state, as `cursor(pos)` does; by assumption (see "## Left out") `max` is kept |
| `Pagination.Paginator.Next` | pyrestorm/query.py:88 | `next(retrieved)` answers from the cursor state, `max` and the page size; by assumption (see "## Left out") it leaves `max` alone |
| `Pages.Records` | pyrestorm/query.py:82 | one record per raw item: as many records as the page has items |
| `Pages.Decide` | pyrestorm/query.py:88 | reference definition of the stop test, used by `Walk` and by `Query.RestQueryset.Round`: with an explicit `end` the cursor does not move and the loop goes on iff fewer than `end - start` records are counted; with no `end` it is `next(retrieved)` |
| `Pages.Walk` | pyrestorm/query.py:68-88 | reference definition of the loop, which `Query.RestQueryset.Crawl` is proved equal to: it has at least one answered request when it completes and never more than the server's answers; it fails (with one further GET) only after every answer was used; with an explicit `end` a completed loop has counted at least `end - start` records; `max` is the last page's `count` (overwritten, possibly with None, on every page); one cursor state is recorded per request |
| `Pages.WalkAppends` | pyrestorm/query.py:81-85 | the cache after the loop is the cache before it followed by every requested page's records in request order; the counter grew by exactly the number appended |
| `Pages.WalkStopsAtFirstCover` | pyrestorm/query.py:88 | with an explicit `end`, every request after the first, the GET that failed included, was made while the counter was still below `end - start`: the loop stops at the first page that covers the range |
| `Pages.WalkCompletes` | pyrestorm/query.py:71-88 | with an explicit `end`, if the remaining answers hold enough records to reach `end - start`, the loop finishes through its stop test |
| `Pages.WalkKeepsCursor` | pyrestorm/query.py:69-88 | with an explicit `end`, every request is made with the cursor state the loop started with, and the loop ends with the cursor there: `next` is never called and nothing else in the loop moves the cursor |
| `Pages.WalkNeverCompletesOnEmptyPages` | pyrestorm/query.py:71-88 | with an explicit `end` and the counter short of `end - start`, answers that are all empty pages never let the loop leave through its stop test, however many there are; the counter stays where it was |
| `Pages.DecideIntended` | pyrestorm/query.py:88 | corrected stop test: the cursor always moves as `next` says; with an explicit `end` the loop goes on iff the last page was not empty and fewer than `end - start` records are counted |
| `Pages.WalkIntended` | pyrestorm/query.py:68-88 | the loop with the corrected stop test: at most one request per answer, one cursor state recorded per request, failure only after every answer was used |
| `Pages.IntendedCursorAdvances` | pyrestorm/query.py:73-88 | corrected loop: the first request carries the starting cursor state and every later one the state `next` produced from the previous request and its page, with or without an `end` |
| `Pages.IntendedStopsOnEmptyPage` | pyrestorm/query.py:71-88 | corrected loop, explicit `end`: the loop completes through its stop test at the first empty page at the latest |
| `Evaluation.Fetched` | pyrestorm/query.py:49-56 | reference definition of `_fetch`, which `Query.RestQueryset.Fetch` is proved equal to: a request iff stale; a success leaves the queryset fresh and returns its cache; a failure is a failed GET of a stale queryset and changes nothing |
| `Evaluation.PagesFetched` | pyrestorm/query.py:58-92 | reference definition of `_fetch_pages`, which `Query.RestQueryset.FetchPages` is proved equal to: a fresh queryset makes no request and returns its cache; a success leaves it fresh and returns the cache; a stale one makes at least one GET; a failure is the GET after every answer was used, counted as a request, and leaves the queryset stale; one cursor state per GET |
| `Evaluation.Evaluated` | pyrestorm/query.py:95-108 | reference definition of `_evaluate`, which `Query.RestQueryset.Evaluate` is proved equal to: a success leaves the queryset fresh and returns its cache; a range error makes no request and changes nothing; a stale queryset whose range is accepted (or that has no paginator) makes at least one GET |
| `Evaluation.KeyRange` | pyrestorm/query.py:34-41 | reference definition of the range `__getitem__` evaluates, used by `Query.RestQueryset.GetItem`: a slice its own bounds, an integer `i` the one-record range `[i, i+1)`, anything else `[0, None)` |
| `Evaluation.SelectedIntended` | pyrestorm/query.py:37-38 | corrected definition of what `__getitem__` hands back: unpaginated, an integer index `i` yields element `i` of the evaluated cache, or `IndexError` outside it; paginated, and for slices, whole keys and errors, it is `Selected` |
| `Evaluation.Selected` | pyrestorm/query.py:37-43 | reference definition of what `__getitem__` hands back, used by `Query.RestQueryset.GetItem`: it raises iff the evaluation raised (same error) or an integer index met an empty result (`IndexError`); otherwise element 0 for an integer index, the whole cache otherwise |
| `Evaluation.CheckRange` | pyrestorm/query.py:98-103 | with no `end`: accepted iff `max` is unknown; with `end`: accepted iff `start < end` and `end < max` when `max` is known; an accepted range keeps the caller's `end`; which of the two `ValueError`s is raised |
| `Evaluation.UnpaginatedFetchesOnce` | pyrestorm/query.py:49-56 | unpaginated: a request is made iff stale; a failed GET raises and leaves the state unchanged and stale; otherwise the cache holds one record per response item in order and `_count` equals its length, the queryset ends fresh and returns its cache, and a second evaluation makes no request and changes nothing |
| `Evaluation.UnpaginatedIgnoresRange` | pyrestorm/query.py:95-108 | unpaginated evaluation gives the same result for every `start` and `end` |
| `Evaluation.RefusedRangeChangesNothing` | pyrestorm/query.py:97-105 | paginated: a range error is raised iff the resolved `end` is not after `start`, or reaches a known `max`; then no request is made and the state is unchanged |
| `Evaluation.UnboundedRefusedOnceMaxKnown` | pyrestorm/query.py:76-103 | after an evaluation whose last received page reported `count`, any unbounded evaluation (`len`, iteration) raises |
| `Evaluation.BoundedEvaluationCovers` | pyrestorm/query.py:63-92 | stale, bounded and completed: the cache is the requested pages' records in order (reset, then appended), holds at least `end - start` records and is not trimmed; counter equals length; fresh; `max` from the last page |
| `Evaluation.BoundedEvaluationIsMinimal` | pyrestorm/query.py:88 | a bounded evaluation makes no request, a failing one included, beyond the first page that brings the cache to `end - start` records |
| `Evaluation.BoundedEvaluationCompletes` | pyrestorm/query.py:71-91 | an accepted bounded evaluation succeeds whenever the server's pages hold at least `end - start` records |
| `Evaluation.BoundedRequestsRepeatCursor` | pyrestorm/query.py:60-88 | with an explicit `end`, a stale paginated evaluation makes every request with the cursor state `seek(seek(state, start), start)` and leaves the cursor there; a server that answers by cursor state (`AnswersByCursor`) returns the same page to every answered request |
| `Evaluation.BoundedEmptyPagesNeverComplete` | pyrestorm/query.py:71-103 | an accepted bounded range on a stale paginated queryset, answered only by empty pages, requests every answer and never completes: it ends only when a further GET fails (`|pages| + 1` GETs), stale, with nothing cached |
| `Evaluation.FreshEvaluationReusesCache` | pyrestorm/query.py:58-63 | paginated and fresh, any accepted range: no request, the cache is returned unchanged whichever accepted range was asked, only the cursor moves to `start` |
| `Evaluation.EvaluationKeepsCountInStep` | pyrestorm/query.py:49-92 | every evaluation keeps `_count == len(_data)`; a successful one leaves the queryset fresh and returns the cache; a failed GET leaves it stale: unpaginated unchanged after its one GET, paginated with every record received after `|pages| + 1` GETs |
| `Evaluation.UnpaginatedIndexYieldsFirst` | pyrestorm/query.py:37-38 | as written, `qs[i]` on a stale unpaginated queryset whose listing is non-empty yields the first record for every `i` |
| `Evaluation.IntendedIndexSelectsItem` | pyrestorm/query.py:37-38 | corrected index: unpaginated `qs[i]` yields record `i` of the whole collection (fetched when stale, cached when fresh), or `IndexError` outside it; paginated it agrees with the code |
| `Query.RestQueryset.constructor` | pyrestorm/query.py:12-25 | a new queryset has an empty cache, count 0 and is stale |
| `Query.RestQueryset.Fetch` | pyrestorm/query.py:49-56 | the new state, result and request count are those of `Fetched`, including a failed GET that changes nothing; `_count == len(_data)` is kept |
| `Query.RestQueryset.FetchPages` | pyrestorm/query.py:58-92 | the new state, result and request count are those of `PagesFetched`: the cursor moves to `start`, a fresh cache is returned untouched, a stale one is rebuilt by the loop |
| `Query.RestQueryset.Crawl` | pyrestorm/query.py:63-90 | the loop leaves exactly the state `Walk` describes (reset, append per page, count in step, `max` overwritten, fresh on completion, stale on a failed GET, which is counted); `_count == len(_data)` is a loop invariant |
| `Query.RestQueryset.Round` | pyrestorm/query.py:75-87 | one round sets `max` to the page's reported total, appends the page's records, adds their number to the count and decides whether to go on as `Decide` does |
| `Query.RestQueryset.Evaluate` | pyrestorm/query.py:95-108 | the new state, result and request count are those of `Evaluated` |
| `Query.RestQueryset.Iterate` | pyrestorm/query.py:28-29 | iteration is an unbounded evaluation from 0 |
| `Query.RestQueryset.Length` | pyrestorm/query.py:46-47 | `len` is the size of an unbounded evaluation's result, or its exception |
| `Query.RestQueryset.GetItem` | pyrestorm/query.py:32-43 | a slice evaluates `[start, stop)`, an integer `i` evaluates `[i, i+1)` and yields element 0 or `IndexError`, anything else evaluates unbounded |
| `Scenarios.UnpaginatedIndexScenario` | pyrestorm/query.py:32-56 | unpaginated `[1, 2, 3]`: iteration yields `[1, 2, 3]` after one request; `qs[1]` yields 1 as written, 2 corrected |
| `Scenarios.PaginatedSliceScenario` | pyrestorm/query.py:58-105 | five records served two per page from the offset in the URL: `qs[0:4]` makes both requests at offset 0 and yields `[1, 2, 1, 2]`; then `qs[0:5]` and `len` raise because `max` is 5 |
| `Scenarios.IntendedSliceScenario` | pyrestorm/query.py:68-88 | the same slice with the corrected loop: requests at offsets 0 and 2, `[1, 2, 3, 4]` |
| `Scenarios.FreshPaginatedIndexScenario` | pyrestorm/query.py:58-63 | after `qs[0:4]`, `qs[2]` makes no request, gets the cached `[1, 2, 1, 2]` and yields record 1, as written and corrected alike |
| `Scenarios.PaginatedWholeScenario` | pyrestorm/query.py:28-29 | iterating the same server while `max` is unknown: with no `end`, `next` moves the cursor, the requests carry offsets 0, 2 and 4, and all five records come back in order |
| `Scenarios.PastTheEndScenario` | pyrestorm/query.py:37-38 | `qs[7]` on five records while `max` is unknown: every request carries offset 7 and gets an empty page, and the loop requests every answer the server gives, for any number `n` of them, then one more |

## Behaviour of the code that the model keeps

- A GET that fails mid-loop leaves the partial cache in `_data` with `_stale` still true.
  Nothing discards it.
- A GET that fails in the unpaginated `_fetch` leaves `_data`, `_count` and `_stale` as they
  were.
- `max` is overwritten by every page's `count`, including with None.
- With an explicit `end` the loop never calls `next`, so every request carries the same
  cursor state. When `as_url()` renders that state alone, every request carries the same URL.
- With an explicit `end`, empty pages never end the loop.
- Because an omitted `end` resolves to `max`, `len()` and iteration raise once `max` is
  known.
- A fresh paginated queryset returns its cache for any accepted range, without refetching.
  A refused range still raises first, and then the cursor does not move.

## Left out

- HTTP transport and `RestClient`: the server is a finite list of response bodies in request
  order. The URL text (`model.url`, the `'%s?%s'` formatting) is not modelled. Each request's
  cursor state is recorded, and a server that answers by cursor state is stated as a condition on the
  list (`AnswersByCursor`), not built into it. A server that keeps answering forever cannot be
  expressed: when the answers run out, that GET fails.
- `Pages.Walk`: where the code loops forever, the model ends with a failed GET. With an explicit
  `end`, a server that keeps answering with empty pages (any range past the last record while
  `max` is unknown) makes the code request forever. The model instead raises `TransportError`
  once the finite list of answers is used up.
- `Evaluation.EvaluationKeepsCountInStep`: its failure case also stands for that endless loop,
  an exception the code never raises in that case (`Evaluation.BoundedEmptyPagesNeverComplete`
  shows when).
- `Pagination.Paginator.Next`: the model assumes that `cursor` and `next` leave `max` alone:
  `Cursor` and `Next` promise `max == old(max)`, and `advance` returns no `max`. It also
  assumes that `as_url()` renders the cursor state alone, and not `max`. The paginator class is
  not part of this model, so neither assumption is checked against it. `Walk`'s `max` clause
  with no `end`, `UnboundedRefusedOnceMaxKnown`, and every statement about URLs rest on them.
- Paginator internals (`cursor`, `as_url`, `next`, the initial `max`): the paginator class is
  not part of this model. Its state is abstract and its operations are parameters. So where
  `cursor` and `next` put the cursor, and when `next` answers false, are not stated.
- `model(data=item)`: a total function from item to record. Exceptions it might raise are
  not modelled.
- `Query.RestQueryset.GetItem`: for an integer index the source assigns the record itself
  to `_data` (line 38). That changes the cache's type. The model returns the record and
  leaves `data` as the evaluation left it.
- `Evaluation.IntendedIndexSelectsItem`: the corrected index is corrected for unpaginated
  querysets only. On a fresh paginated queryset it still takes element 0 of whatever range
  is cached, as the code does (`Scenarios.FreshPaginatedIndexScenario`: after `qs[0:4]`,
  `qs[2]` yields record 1). Correcting that would need the cache to remember which range it
  holds, and the code keeps no such record.
- Slices whose `start` is `None`, and negative indices: `start` is an integer, and the
  corrected index accepts `0 <= i` only.
- Response shape errors: a paginated body without `results`, or an unpaginated body that is
  not a list. Each path reads its own response shape.
- `hasattr` checks: modelled as the `Collection` tag `Unpaginated` / `Paginated(paginator)`.
- Concurrency: the model is single-threaded, as the source is.

## Findings

The classes and the reference functions model the code as written. The corrected
definitions (`SelectedIntended`, `DecideIntended`, `WalkIntended`) sit beside them, with
their properties proved.

| source | as written | input that shows it | evidently intended | confidence | as-written member | corrected member |
|---|---|---|---|---|---|---|
| pyrestorm/query.py:37-38 | `qs[i]` evaluates `[i, i+1)` and takes element 0; an unpaginated evaluation ignores the range and caches the whole collection | unpaginated collection `[1, 2, 3]`, `qs[1]` yields 1 | `qs[i]` yields item `i` of the collection (2 here), as it does for a stale paginated queryset | not executed; high | `Evaluation.UnpaginatedIndexYieldsFirst` | `Evaluation.IntendedIndexSelectsItem` |
| pyrestorm/query.py:88 | with an explicit `end` the loop never calls `next`, so every request is made with the cursor at `start` | five records served two per page from the URL's offset, `qs[0:4]`: both requests ask for offset 0 and the slice is `[1, 2, 1, 2]` | the cursor moves past each page received, so `qs[0:4]` is `[1, 2, 3, 4]` | not executed; medium: it holds whenever `as_url()` renders the cursor state, and the paginator class is not part of this model | `Evaluation.BoundedRequestsRepeatCursor` | `Pages.IntendedCursorAdvances` |
| pyrestorm/query.py:71-88 | with an explicit `end` the loop goes on while fewer than `end - start` records are counted, and an empty page adds none | `qs[7]` on five records while `max` is unknown: every page is empty and the loop never ends | an empty page ends the loop | not executed; high | `Evaluation.BoundedEmptyPagesNeverComplete` | `Pages.IntendedStopsOnEmptyPage` |
