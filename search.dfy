/**
 * The search side: the bounded retry of one GET (`retry_search_sem`), the
 * page-index batching of `pager`, the probe-until-empty paging of
 * `search_xdd`, and the seed-then-fan-out paging of `search_xdd_es`.
 *
 * The HTTP session is an oracle: for each page index, the outcome of its
 * first, second, ... attempt. The semaphore, the event loop and the URL
 * templates are not modelled; a page is named by its index.
 */
module Search {
  import opened Wrappers
  import opened JsonData
  import Sequences

  /** The outcome of one GET: the decoded body, an aiohttp ClientResponseError, or another exception. */
  datatype Attempt = Response(body: Json) | ClientError(status: int) | OtherFailure(name: string)

  /** The outcome of attempt 0, 1, 2, ... on one URL. */
  type Attempts = nat -> Attempt

  /** The attempts on the URL of each page index. */
  type Server = nat -> Attempts

  /** The page processor given to the search; Some(e) when it raises e. */
  type Callback = Json -> Option<Exc>

  /** What a retried GET gives: a body, nothing (no attempt was made), or a raised exception. */
  datatype Fetched = Returned(body: Json) | NoResult | Raised(error: Exc)

  /** A retried GET's result and how many attempts it made. */
  datatype Retried = Retried(result: Fetched, attempts: nat)

  /** The attempt loop from attempt i on, with `retries` attempts in all. */
  function RetryFrom(get: Attempts, retries: int, i: nat): (r: Retried)
    ensures r.attempts >= i
    decreases retries - i
  {
    if i >= retries then Retried(NoResult, i)
    else match get(i)
      case Response(b) => Retried(Returned(b), i + 1)
      case OtherFailure(name) => Retried(Raised(OtherError(name)), i + 1)
      case ClientError(status) =>
        if i == retries - 1 then Retried(Raised(ClientResponseError(status)), i + 1)
        else RetryFrom(get, retries, i + 1)
  }

  /** `retry_search_sem(semi, session, url, retries)`. */
  method RetrySearch(get: Attempts, retries: int) returns (result: Fetched, attempts: nat)
    ensures Retried(result, attempts) == RetryFrom(get, retries, 0)
  {
    var i: nat := 0;
    while i < retries
      invariant RetryFrom(get, retries, i) == RetryFrom(get, retries, 0)
      decreases retries - i
    {
      match get(i)
      case Response(b) =>
        return Returned(b), i + 1;
      case OtherFailure(name) =>
        return Raised(OtherError(name)), i + 1;
      case ClientError(status) =>
        if i == retries - 1 {
          return Raised(ClientResponseError(status)), i + 1;
        }
      i := i + 1;
    }
    return NoResult, i;
  }

  /** ClientResponseErrors before attempt k only move the loop on. */
  lemma {:induction false} RetryPastFailures(get: Attempts, retries: int, i: nat, k: nat)
    requires i <= k < retries
    requires forall j :: i <= j < k ==> get(j).ClientError?
    ensures RetryFrom(get, retries, i) == RetryFrom(get, retries, k)
    decreases k - i
  {
    if i < k {
      RetryPastFailures(get, retries, i + 1, k);
    }
  }

  /** k ClientResponseErrors and then a response: that response, after exactly k + 1 attempts. */
  lemma RetrySucceeds(get: Attempts, retries: int, k: nat)
    requires k < retries
    requires forall j :: 0 <= j < k ==> get(j).ClientError?
    requires get(k).Response?
    ensures RetryFrom(get, retries, 0) == Retried(Returned(get(k).body), k + 1)
  {
    RetryPastFailures(get, retries, 0, k);
  }

  /** Every attempt a ClientResponseError: the last one is re-raised, after exactly `retries` attempts. */
  lemma RetryGivesUp(get: Attempts, retries: int)
    requires retries >= 1
    requires forall j :: 0 <= j < retries ==> get(j).ClientError?
    ensures RetryFrom(get, retries, 0) == Retried(Raised(ClientResponseError(get(retries - 1).status)), retries)
  {
    RetryPastFailures(get, retries, 0, retries - 1);
  }

  /** Another exception propagates from the attempt that raises it, with no further attempt. */
  lemma RetryOtherFailure(get: Attempts, retries: int, k: nat)
    requires k < retries
    requires forall j :: 0 <= j < k ==> get(j).ClientError?
    requires get(k).OtherFailure?
    ensures RetryFrom(get, retries, 0) == Retried(Raised(OtherError(get(k).name)), k + 1)
  {
    RetryPastFailures(get, retries, 0, k);
  }

  /** The loop makes at most `retries` attempts, and gives nothing exactly when it makes none. */
  lemma {:induction false} RetryBounds(get: Attempts, retries: int, i: nat)
    requires i < retries || i == 0
    ensures RetryFrom(get, retries, i).result == NoResult <==> retries <= 0
    ensures retries > 0 ==> RetryFrom(get, retries, i).attempts <= retries
    ensures retries <= 0 ==> RetryFrom(get, retries, i).attempts == 0
    decreases retries - i
  {
    if i < retries && get(i).ClientError? && i != retries - 1 {
      RetryBounds(get, retries, i + 1);
    }
  }

  /** The number of attempts each page gets. */
  const Retries := 5

  /** A page's body as the search sees it: `None` (no attempt) is JNull; a raised exception is an error. */
  function PageResult(server: Server, p: nat): (r: Result<Json, Exc>)
    ensures server(p)(0).Response? ==> r == Ok(server(p)(0).body)
  {
    match RetryFrom(server(p), Retries, 0).result
    case Returned(b) => Ok(b)
    case NoResult => Ok(JNull)
    case Raised(e) => Err(e)
  }

  method FetchPage(server: Server, p: nat) returns (r: Result<Json, Exc>)
    ensures r == PageResult(server, p)
  {
    var result, attempts := RetrySearch(server(p), Retries);
    match result
    case Returned(b) => r := Ok(b);
    case NoResult => r := Ok(JNull);
    case Raised(e) => r := Err(e);
  }

  /** `len` consecutive page indices from `lo`. */
  function Range(lo: nat, len: nat): (r: seq<nat>)
    ensures |r| == len
    ensures forall j :: 0 <= j < len ==> r[j] == lo + j
  {
    seq(len, j requires 0 <= j < len => lo + j)
  }

  lemma MulSucc(a: nat, b: nat)
    ensures a * b + b == (a + 1) * b
  {
  }

  /** `pager`: a page counter shared by every batch it yields. */
  class Pager {
    const size: nat
    var next: nat

    constructor (size: nat)
      ensures this.size == size && next == 0
    {
      this.size := size;
      next := 0;
    }

    /** The next batch: `next(c)` once per page. */
    method NextBatch() returns (pages: seq<nat>)
      modifies this
      ensures pages == Range(old(next), size)
      ensures next == old(next) + size
    {
      pages := [];
      for j := 0 to size
        invariant next == old(next) + j
        invariant |pages| == j
        invariant forall t :: 0 <= t < j ==> pages[t] == old(next) + t
      {
        pages := pages + [next];
        next := next + 1;
      }
    }
  }

  /** `asyncio.gather` of pages i.. of a batch after `acc` was gathered: the first failure in request order stops it. */
  function GatherFrom(server: Server, pages: seq<nat>, i: nat, acc: seq<Json>): (r: Result<seq<Json>, Exc>)
    requires i <= |pages|
    ensures r.Ok? ==> |r.value| == |acc| + |pages| - i
    decreases |pages| - i
  {
    if i == |pages| then Ok(acc)
    else match PageResult(server, pages[i])
      case Err(e) => Err(e)
      case Ok(b) => GatherFrom(server, pages, i + 1, acc + [b])
  }

  /** `asyncio.gather` of a batch: every body in request order. */
  function Gather(server: Server, pages: seq<nat>): (r: Result<seq<Json>, Exc>)
    ensures r.Ok? ==> |r.value| == |pages|
  {
    GatherFrom(server, pages, 0, [])
  }

  /** When every page from i on is answered, gathering gives their bodies, in order. */
  lemma {:induction false} GatherFromOk(server: Server, pages: seq<nat>, i: nat, acc: seq<Json>)
    requires i <= |pages|
    requires forall j :: i <= j < |pages| ==> PageResult(server, pages[j]).Ok?
    ensures GatherFrom(server, pages, i, acc).Ok?
    ensures forall j :: 0 <= j < |acc| ==> GatherFrom(server, pages, i, acc).value[j] == acc[j]
    ensures forall j :: i <= j < |pages| ==>
              GatherFrom(server, pages, i, acc).value[|acc| + j - i] == PageResult(server, pages[j]).value
    decreases |pages| - i
  {
    if i < |pages| {
      GatherFromOk(server, pages, i + 1, acc + [PageResult(server, pages[i]).value]);
    }
  }

  /** Gathering gives a batch's bodies exactly when every page is answered. */
  lemma GatherOk(server: Server, pages: seq<nat>)
    ensures Gather(server, pages).Ok? <==> forall j :: 0 <= j < |pages| ==> PageResult(server, pages[j]).Ok?
    ensures Gather(server, pages).Ok? ==>
            forall j :: 0 <= j < |pages| ==> Gather(server, pages).value[j] == PageResult(server, pages[j]).value
  {
    if forall j :: 0 <= j < |pages| ==> PageResult(server, pages[j]).Ok? {
      GatherAnswered(server, pages);
    } else {
      GatherFails(server, pages, 0, []);
    }
  }

  lemma GatherAnswered(server: Server, pages: seq<nat>)
    requires forall j :: 0 <= j < |pages| ==> PageResult(server, pages[j]).Ok?
    ensures Gather(server, pages).Ok?
    ensures forall j :: 0 <= j < |pages| ==> Gather(server, pages).value[j] == PageResult(server, pages[j]).value
  {
    var none: seq<Json> := [];
    GatherFromOk(server, pages, 0, none);
    var r := GatherFrom(server, pages, 0, none);
    forall j | 0 <= j < |pages|
      ensures r.value[j] == PageResult(server, pages[j]).value
    {
      assert r.value[|none| + j - 0] == PageResult(server, pages[j]).value;
    }
  }

  /** A page that is not answered makes the gathering fail. */
  lemma {:induction false} GatherFails(server: Server, pages: seq<nat>, i: nat, acc: seq<Json>)
    requires i <= |pages|
    requires exists j :: i <= j < |pages| && PageResult(server, pages[j]).Err?
    ensures GatherFrom(server, pages, i, acc).Err?
    decreases |pages| - i
  {
    if PageResult(server, pages[i]).Ok? {
      GatherFails(server, pages, i + 1, acc + [PageResult(server, pages[i]).value]);
    }
  }

  /** Gathering fails with the failure of the first page, in request order, that is not answered. */
  lemma {:induction false} GatherFirstFailure(server: Server, pages: seq<nat>, i: nat, acc: seq<Json>, j: nat)
    requires i <= j < |pages|
    requires forall t :: i <= t < j ==> PageResult(server, pages[t]).Ok?
    requires PageResult(server, pages[j]).Err?
    ensures GatherFrom(server, pages, i, acc) == Err(PageResult(server, pages[j]).error)
    decreases |pages| - i
  {
    if i < j {
      GatherFirstFailure(server, pages, i + 1, acc + [PageResult(server, pages[i]).value], j);
    }
  }

  method GatherBatch(server: Server, pages: seq<nat>) returns (r: Result<seq<Json>, Exc>)
    ensures r == Gather(server, pages)
  {
    var bodies: seq<Json> := [];
    for j := 0 to |pages|
      invariant GatherFrom(server, pages, j, bodies) == Gather(server, pages)
    {
      var body := FetchPage(server, pages[j]);
      if body.Err? {
        return Err(body.error);
      }
      bodies := bodies + [body.value];
    }
    return Ok(bodies);
  }

  /** `len(result.get("objects", [])) == 0`. */
  function IsEmptyPage(result: Json): (r: Result<bool, Exc>)
    ensures !result.JObj? ==> r == Err(AttributeError)
    ensures result.JObj? && "objects" !in result.fields ==> r == Ok(true)
    ensures result.JObj? && "objects" in result.fields && result.fields["objects"].JList? ==>
            r == Ok(|result.fields["objects"].items| == 0)
  {
    if !result.JObj? then Err(AttributeError)
    else
      var n :- Len(GetOr(result.fields, "objects", JList([])));
      Ok(n == 0)
  }

  /** What one batch's `for result in xs` loop did: pages passed on, whether `_break` was set, any exception. */
  datatype Delivery = Delivery(delivered: seq<nat>, stop: bool, error: Option<Exc>)

  /** The loop over a batch's results from result i on. */
  function Deliver(pages: seq<nat>, bodies: seq<Json>, i: nat, callback: Callback): (d: Delivery)
    requires |bodies| == |pages|
    ensures i <= |pages| ==> |d.delivered| <= |pages| - i
    ensures i <= |pages| && d.error.None? && !d.stop ==> |d.delivered| == |pages| - i
    decreases |pages| - i
  {
    if i >= |pages| then Delivery([], false, None)
    else match IsEmptyPage(bodies[i])
      case Err(e) => Delivery([], false, Some(e))
      case Ok(empty) =>
        if empty then
          var rest := Deliver(pages, bodies, i + 1, callback);
          Delivery(rest.delivered, true, rest.error)
        else if callback(bodies[i]).Some? then Delivery([pages[i]], false, callback(bodies[i]))
        else
          var rest := Deliver(pages, bodies, i + 1, callback);
          Delivery([pages[i]] + rest.delivered, rest.stop, rest.error)
  }

  /** The non-empty pages among results i.., in order. */
  function NonEmptyPages(pages: seq<nat>, bodies: seq<Json>, i: nat): seq<nat>
    requires |bodies| == |pages|
    decreases |pages| - i
  {
    if i >= |pages| then []
    else if IsEmptyPage(bodies[i]) == Ok(true) then NonEmptyPages(pages, bodies, i + 1)
    else [pages[i]] + NonEmptyPages(pages, bodies, i + 1)
  }

  /**
   * Without an exception, a batch passes on exactly its non-empty pages, in
   * order, and sets `_break` exactly when one of its pages is empty.
   */
  lemma {:induction false} DeliverFilters(pages: seq<nat>, bodies: seq<Json>, i: nat, callback: Callback)
    requires |bodies| == |pages|
    requires Deliver(pages, bodies, i, callback).error.None?
    ensures Deliver(pages, bodies, i, callback).delivered == NonEmptyPages(pages, bodies, i)
    ensures Deliver(pages, bodies, i, callback).stop <==> exists j :: i <= j < |pages| && IsEmptyPage(bodies[j]) == Ok(true)
    decreases |pages| - i
  {
    if i < |pages| {
      DeliverFilters(pages, bodies, i + 1, callback);
      if IsEmptyPage(bodies[i]) == Ok(true) {
        assert i <= i < |pages| && IsEmptyPage(bodies[i]) == Ok(true);
      } else {
        assert forall j :: i <= j < |pages| && IsEmptyPage(bodies[j]) == Ok(true) ==> i + 1 <= j;
      }
    }
  }

  /** Every page passed on is a non-empty one from results i... */
  lemma {:induction false} DeliverNonEmpty(pages: seq<nat>, bodies: seq<Json>, i: nat, callback: Callback)
    requires |bodies| == |pages|
    ensures forall q :: q in Deliver(pages, bodies, i, callback).delivered ==>
              exists j :: i <= j < |pages| && pages[j] == q && IsEmptyPage(bodies[j]) == Ok(false)
    decreases |pages| - i
  {
    if i < |pages| {
      DeliverNonEmpty(pages, bodies, i + 1, callback);
    }
  }

  /** Fetching the batch of pages first .. first + size - 1 and looping over its results. */
  function RunBatch(server: Server, size: nat, callback: Callback, first: nat): (d: Delivery)
    ensures d.error.None? ==> Gather(server, Range(first, size)).Ok?
    ensures Gather(server, Range(first, size)).Err? ==>
              d.error == Some(Gather(server, Range(first, size)).error) && d.delivered == [] && !d.stop
  {
    match Gather(server, Range(first, size))
    case Err(e) => Delivery([], false, Some(e))
    case Ok(bodies) => Deliver(Range(first, size), bodies, 0, callback)
  }

  /** How a search ended. */
  datatype Status = Finished | Failed(error: Exc) | OutOfFuel

  /** A search: how it ended, the pages it requested in order, and the pages it passed to the callback in order. */
  datatype Crawl = Crawl(status: Status, fetched: seq<nat>, delivered: seq<nat>)

  /** What running the batch that starts at each page index gives. */
  type BatchRunner = nat -> Delivery

  /** The step of the `async for` loop: the batch starting at each page index, fetched and passed on. */
  function Batches(server: Server, size: nat, callback: Callback): (run: BatchRunner)
    ensures forall first: nat :: run(first) == RunBatch(server, size, callback, first)
  {
    (first: nat) => RunBatch(server, size, callback, first)
  }

  /**
   * The `async for row in pbar` loop from the batch starting at page `first`,
   * for at most `fuel` more batches: run a batch, and stop after the first one
   * that raises or sets `_break`.
   */
  function XddFrom(run: BatchRunner, size: nat, first: nat, fuel: nat): (c: Crawl)
    ensures fuel > 0 ==> |c.fetched| >= size && c.fetched[..size] == Range(first, size)
    decreases fuel
  {
    if fuel == 0 then Crawl(OutOfFuel, [], [])
    else
      var d := run(first);
      if d.error.Some? then Crawl(Failed(d.error.value), Range(first, size), d.delivered)
      else if d.stop then Crawl(Finished, Range(first, size), d.delivered)
      else
        var rest := XddFrom(run, size, first + size, fuel - 1);
        Crawl(rest.status, Range(first, size) + rest.fetched, d.delivered + rest.delivered)
  }

  /** A search that continues one in which `fetched` were requested and `delivered` passed on. */
  function After(fetched: seq<nat>, delivered: seq<nat>, c: Crawl): Crawl
  {
    Crawl(c.status, fetched + c.fetched, delivered + c.delivered)
  }

  /** A search with no batches left ends where it is. */
  lemma XddOutOfFuel(run: BatchRunner, size: nat, first: nat, fetched: seq<nat>, delivered: seq<nat>)
    ensures After(fetched, delivered, XddFrom(run, size, first, 0)) == Crawl(OutOfFuel, fetched, delivered)
  {
    assert fetched + [] == fetched && delivered + [] == delivered;
  }

  /**
   * One step of XddFrom, seen from a search already under way: `next` is the
   * first page of the following batch and `rest` the number of batches left after this one.
   */
  lemma XddAfter(run: BatchRunner, size: nat, first: nat, next: nat, fuel: nat, rest: nat, fetched: seq<nat>, delivered: seq<nat>)
    requires next == first + size && fuel == rest + 1
    ensures run(first).error.Some? ==>
            After(fetched, delivered, XddFrom(run, size, first, fuel)) ==
            Crawl(Failed(run(first).error.value), fetched + Range(first, size), delivered + run(first).delivered)
    ensures run(first).error.None? && run(first).stop ==>
            After(fetched, delivered, XddFrom(run, size, first, fuel)) ==
            Crawl(Finished, fetched + Range(first, size), delivered + run(first).delivered)
    ensures run(first).error.None? && !run(first).stop ==>
            After(fetched, delivered, XddFrom(run, size, first, fuel)) ==
            After(fetched + Range(first, size), delivered + run(first).delivered, XddFrom(run, size, next, rest))
  {
    if run(first).error.None? && !run(first).stop {
      var later := XddFrom(run, size, next, rest);
      Sequences.AppendAssoc(fetched, Range(first, size), later.fetched);
      Sequences.AppendAssoc(delivered, run(first).delivered, later.delivered);
    }
  }

  /**
   * XddAfter for one batch of a search_xdd call: `pages` is the batch from `first`
   * and `d` what running it gives.
   */
  lemma XddAfterBatch(server: Server, size: nat, callback: Callback, first: nat, next: nat, fuel: nat, rest: nat,
                      fetched: seq<nat>, delivered: seq<nat>, pages: seq<nat>, d: Delivery)
    requires next == first + size && fuel == rest + 1 && pages == Range(first, size)
    requires d == RunBatch(server, size, callback, first)
    ensures d.error.Some? ==>
            After(fetched, delivered, XddFrom(Batches(server, size, callback), size, first, fuel)) ==
            Crawl(Failed(d.error.value), fetched + pages, delivered + d.delivered)
    ensures d.error.None? && d.stop ==>
            After(fetched, delivered, XddFrom(Batches(server, size, callback), size, first, fuel)) ==
            Crawl(Finished, fetched + pages, delivered + d.delivered)
    ensures d.error.None? && !d.stop ==>
            After(fetched, delivered, XddFrom(Batches(server, size, callback), size, first, fuel)) ==
            After(fetched + pages, delivered + d.delivered, XddFrom(Batches(server, size, callback), size, next, rest))
  {
    var run := Batches(server, size, callback);
    assert run(first) == d;
    XddAfter(run, size, first, next, fuel, rest, fetched, delivered);
  }

  /** `search_xdd` with at most `fuel` batches. */
  function Xdd(server: Server, size: nat, callback: Callback, fuel: nat): (c: Crawl)
    ensures fuel > 0 ==> |c.fetched| >= size && c.fetched[..size] == Range(0, size)
  {
    XddFrom(Batches(server, size, callback), size, 0, fuel)
  }

  /** A run of consecutive pages followed by the run that continues it is one run. */
  lemma ConsecutiveAppend(a: seq<nat>, b: seq<nat>, lo: nat, size: nat)
    requires |a| == size
    requires forall j :: 0 <= j < |a| ==> a[j] == lo + j
    requires forall j :: 0 <= j < |b| ==> b[j] == lo + size + j
    ensures forall j :: 0 <= j < |a + b| ==> (a + b)[j] == lo + j
  {
  }

  /** Requested pages are consecutive from `first`, at most `size` per batch. */
  lemma {:induction false} XddFetchedConsecutive(run: BatchRunner, size: nat, first: nat, fuel: nat)
    ensures var c := XddFrom(run, size, first, fuel);
            && (forall j :: 0 <= j < |c.fetched| ==> c.fetched[j] == first + j)
            && |c.fetched| <= fuel * size
    decreases fuel
  {
    if fuel > 0 {
      MulSucc(fuel - 1, size);
      var d := run(first);
      if d.error.None? && !d.stop {
        var rest := XddFrom(run, size, first + size, fuel - 1);
        XddFetchedConsecutive(run, size, first + size, fuel - 1);
        ConsecutiveAppend(Range(first, size), rest.fetched, first, size);
      }
    }
  }

  /** search_xdd requests pages 0, 1, 2, ... in order, and no more than `size` per batch run. */
  lemma XddRequestsFromZero(server: Server, size: nat, callback: Callback, fuel: nat)
    ensures var c := Xdd(server, size, callback, fuel);
            (forall j :: 0 <= j < |c.fetched| ==> c.fetched[j] == j) && |c.fetched| <= fuel * size
  {
    XddFetchedConsecutive(Batches(server, size, callback), size, 0, fuel);
  }

  /** A batch with an empty page and no exception ends the search: nothing later is requested. */
  lemma XddStopsAtEmptyBatch(server: Server, size: nat, callback: Callback, first: nat, fuel: nat, j: nat)
    requires fuel > 0 && j < size
    requires Gather(server, Range(first, size)).Ok?
    requires RunBatch(server, size, callback, first).error.None?
    requires IsEmptyPage(Gather(server, Range(first, size)).value[j]) == Ok(true)
    ensures XddFrom(Batches(server, size, callback), size, first, fuel) ==
            Crawl(Finished, Range(first, size), NonEmptyPages(Range(first, size), Gather(server, Range(first, size)).value, 0))
  {
    DeliverFilters(Range(first, size), Gather(server, Range(first, size)).value, 0, callback);
  }

  /** A batch of non-empty pages with no exception passes all of them on and the search goes on. */
  lemma XddContinuesAfterFullBatch(server: Server, size: nat, callback: Callback, first: nat, fuel: nat)
    requires fuel > 0
    requires Gather(server, Range(first, size)).Ok?
    requires RunBatch(server, size, callback, first).error.None?
    requires forall j :: 0 <= j < size ==> IsEmptyPage(Gather(server, Range(first, size)).value[j]) != Ok(true)
    ensures var rest := XddFrom(Batches(server, size, callback), size, first + size, fuel - 1);
            XddFrom(Batches(server, size, callback), size, first, fuel) ==
            Crawl(rest.status, Range(first, size) + rest.fetched,
                  NonEmptyPages(Range(first, size), Gather(server, Range(first, size)).value, 0) + rest.delivered)
  {
    DeliverFilters(Range(first, size), Gather(server, Range(first, size)).value, 0, callback);
  }

  /** Page q is answered with a page that has objects. */
  predicate NonEmptyPage(server: Server, q: nat)
  {
    PageResult(server, q).Ok? && IsEmptyPage(PageResult(server, q).value) == Ok(false)
  }

  /** Every page passed on is among the pages requested, and non-empty. */
  predicate OnlyNonEmpty(server: Server, delivered: seq<nat>, fetched: seq<nat>)
  {
    forall q :: q in delivered ==> q in fetched && NonEmptyPage(server, q)
  }

  lemma MembersAppend(server: Server, d1: seq<nat>, f1: seq<nat>, d2: seq<nat>, f2: seq<nat>)
    requires OnlyNonEmpty(server, d1, f1) && OnlyNonEmpty(server, d2, f2)
    ensures OnlyNonEmpty(server, d1 + d2, f1 + f2)
  {
  }

  /** Every page a batch passes on is one of its pages and non-empty. */
  lemma RunBatchNonEmpty(server: Server, size: nat, callback: Callback, first: nat)
    ensures OnlyNonEmpty(server, RunBatch(server, size, callback, first).delivered, Range(first, size))
  {
    var pages := Range(first, size);
    GatherOk(server, pages);
    if Gather(server, pages).Ok? {
      var bodies := Gather(server, pages).value;
      DeliverNonEmpty(pages, bodies, 0, callback);
      forall q | q in Deliver(pages, bodies, 0, callback).delivered
        ensures q in pages && NonEmptyPage(server, q)
      {
        var j :| 0 <= j < |pages| && pages[j] == q && IsEmptyPage(bodies[j]) == Ok(false);
        assert bodies[j] == PageResult(server, pages[j]).value;
      }
    }
  }

  /** When every batch passes on only its own non-empty pages, so does the whole search. */
  lemma {:induction false} XddDeliversOnly(server: Server, run: BatchRunner, size: nat, first: nat, fuel: nat)
    requires forall b: nat :: OnlyNonEmpty(server, run(b).delivered, Range(b, size))
    ensures OnlyNonEmpty(server, XddFrom(run, size, first, fuel).delivered, XddFrom(run, size, first, fuel).fetched)
    decreases fuel
  {
    if fuel > 0 && run(first).error.None? && !run(first).stop {
      var rest := XddFrom(run, size, first + size, fuel - 1);
      XddDeliversOnly(server, run, size, first + size, fuel - 1);
      assert OnlyNonEmpty(server, run(first).delivered, Range(first, size));
      MembersAppend(server, run(first).delivered, Range(first, size), rest.delivered, rest.fetched);
    }
  }

  /** Every page search_xdd passes on was requested and is non-empty. */
  lemma XddDeliversNonEmpty(server: Server, size: nat, callback: Callback, fuel: nat)
    ensures var c := Xdd(server, size, callback, fuel);
            forall q :: q in c.delivered ==> q in c.fetched && NonEmptyPage(server, q)
  {
    var run := Batches(server, size, callback);
    forall b: nat
      ensures OnlyNonEmpty(server, run(b).delivered, Range(b, size))
    {
      RunBatchNonEmpty(server, size, callback, b);
    }
    XddDeliversOnly(server, run, size, 0, fuel);
    assert Xdd(server, size, callback, fuel) == XddFrom(run, size, 0, fuel);
  }

  /** Batches that pass nothing on and never stop leave the search running until the bound. */
  lemma {:induction false} XddNeverStops(run: BatchRunner, first: nat, fuel: nat)
    requires forall b :: run(b) == Delivery([], false, None)
    ensures XddFrom(run, 0, first, fuel) == Crawl(OutOfFuel, [], [])
    decreases fuel
  {
    if fuel > 0 {
      XddNeverStops(run, first, fuel - 1);
    }
  }

  /** With a batch size of 0 the pager yields empty batches forever: the search never ends by itself. */
  lemma XddEmptyBatches(server: Server, callback: Callback, fuel: nat)
    ensures Xdd(server, 0, callback, fuel) == Crawl(OutOfFuel, [], [])
  {
    var run := Batches(server, 0, callback);
    forall b
      ensures run(b) == Delivery([], false, None)
    {
      assert Range(b, 0) == [];
    }
    XddNeverStops(run, 0, fuel);
  }

  /**
   * Pages 0..4 non-empty, every later page empty, batches of 3, every first
   * attempt answered and a callback that never raises: pages 0..5 are
   * requested and pages 0..4 passed on.
   */
  lemma XddFiveFullPages(server: Server, callback: Callback, fuel: nat)
    requires fuel >= 2
    requires forall p :: server(p)(0).Response? && IsEmptyPage(server(p)(0).body) == Ok(p >= 5)
    requires forall b :: callback(b).None?
    ensures Xdd(server, 3, callback, fuel) == Crawl(Finished, [0, 1, 2, 3, 4, 5], [0, 1, 2, 3, 4])
  {
    FiveFirstBatch(server, callback);
    FiveSecondBatch(server, callback);
    XddFiveFromRuns(Batches(server, 3, callback), fuel);
  }

  /** The same search, given only what its two batches do. */
  lemma XddFiveFromRuns(run: BatchRunner, fuel: nat)
    requires fuel >= 2
    requires Range(0, 3) == [0, 1, 2] && run(0) == Delivery([0, 1, 2], false, None)
    requires Range(3, 3) == [3, 4, 5] && run(3) == Delivery([3, 4], true, None)
    ensures XddFrom(run, 3, 0, fuel) == Crawl(Finished, [0, 1, 2, 3, 4, 5], [0, 1, 2, 3, 4])
  {
    assert XddFrom(run, 3, 3, fuel - 1) == Crawl(Finished, [3, 4, 5], [3, 4]);
    assert [0, 1, 2] + [3, 4, 5] == [0, 1, 2, 3, 4, 5];
    assert [0, 1, 2] + [3, 4] == [0, 1, 2, 3, 4];
  }

  /** In that setting the first batch is pages 0..2, all passed on. */
  lemma FiveFirstBatch(server: Server, callback: Callback)
    requires forall p :: server(p)(0).Response? && IsEmptyPage(server(p)(0).body) == Ok(p >= 5)
    requires forall b :: callback(b).None?
    ensures Range(0, 3) == [0, 1, 2]
    ensures RunBatch(server, 3, callback, 0) == Delivery([0, 1, 2], false, None)
  {
    var pages := Range(0, 3);
    assert pages == [0, 1, 2];
    GatherAnswered(server, pages);
    var bodies := Gather(server, pages).value;
    assert Deliver(pages, bodies, 2, callback) == Delivery([2], false, None);
    assert Deliver(pages, bodies, 1, callback) == Delivery([1, 2], false, None);
  }

  /** In that setting the second batch is pages 3..5: 3 and 4 are passed on and page 5 ends the search. */
  lemma FiveSecondBatch(server: Server, callback: Callback)
    requires forall p :: server(p)(0).Response? && IsEmptyPage(server(p)(0).body) == Ok(p >= 5)
    requires forall b :: callback(b).None?
    ensures Range(3, 3) == [3, 4, 5]
    ensures RunBatch(server, 3, callback, 3) == Delivery([3, 4], true, None)
  {
    var pages := Range(3, 3);
    assert pages == [3, 4, 5];
    GatherAnswered(server, pages);
    var bodies := Gather(server, pages).value;
    assert Deliver(pages, bodies, 2, callback) == Delivery([], true, None);
    assert Deliver(pages, bodies, 1, callback) == Delivery([4], true, None);
  }

  /** `search_xdd`, with the pager and the `_break` flag; `maxBatches` bounds the otherwise unbounded loop. */
  method SearchXdd(server: Server, size: nat, callback: Callback, maxBatches: nat) returns (c: Crawl)
    ensures c == Xdd(server, size, callback, maxBatches)
  {
    var pager := new Pager(size);
    var fetched: seq<nat> := [];
    var delivered: seq<nat> := [];
    var fuel := maxBatches;
    ghost var whole := Xdd(server, size, callback, maxBatches);
    assert whole == After([], [], whole);
    while fuel > 0
      invariant pager.size == size
      invariant whole == After(fetched, delivered, XddFrom(Batches(server, size, callback), size, pager.next, fuel))
    {
      var rest := fuel - 1;
      var pages, d := NextRow(server, size, callback, pager, fuel, rest, fetched, delivered);
      if d.error.Some? {
        return Crawl(Failed(d.error.value), fetched + pages, delivered + d.delivered);
      }
      if d.stop {
        return Crawl(Finished, fetched + pages, delivered + d.delivered);
      }
      fetched := fetched + pages;
      delivered := delivered + d.delivered;
      fuel := rest;
    }
    XddOutOfFuel(Batches(server, size, callback), size, pager.next, fetched, delivered);
    return Crawl(OutOfFuel, fetched, delivered);
  }

  /**
   * One turn of the `async for row in pbar` loop: take the pager's next batch,
   * fetch it and loop over its results. Its ensures say how the search goes on
   * from there, with `fuel` batches allowed before this one and `rest` after it.
   */
  method NextRow(server: Server, size: nat, callback: Callback, pager: Pager, ghost fuel: nat, ghost rest: nat,
                 ghost fetched: seq<nat>, ghost delivered: seq<nat>) returns (pages: seq<nat>, d: Delivery)
    requires pager.size == size && fuel == rest + 1
    modifies pager
    ensures pages == Range(old(pager.next), size) && pager.next == old(pager.next) + size
    ensures d == RunBatch(server, size, callback, old(pager.next))
    ensures var before := After(fetched, delivered, XddFrom(Batches(server, size, callback), size, old(pager.next), fuel));
            && (d.error.Some? ==> before == Crawl(Failed(d.error.value), fetched + pages, delivered + d.delivered))
            && (d.error.None? && d.stop ==> before == Crawl(Finished, fetched + pages, delivered + d.delivered))
            && (d.error.None? && !d.stop ==>
                  before == After(fetched + pages, delivered + d.delivered,
                                  XddFrom(Batches(server, size, callback), size, pager.next, rest)))
  {
    var first := pager.next;
    pages := pager.NextBatch();
    d := FetchAndDeliver(server, size, callback, first, pages);
    XddAfterBatch(server, size, callback, first, pager.next, fuel, rest, fetched, delivered, pages, d);
  }

  /** One batch: `await row`, then the loop over its results. */
  method FetchAndDeliver(server: Server, size: nat, callback: Callback, first: nat, pages: seq<nat>) returns (d: Delivery)
    requires pages == Range(first, size)
    ensures d == RunBatch(server, size, callback, first)
  {
    var xs := GatherBatch(server, pages);
    if xs.Err? {
      return Delivery([], false, Some(xs.error));
    }
    d := DeliverBatch(pages, xs.value, callback);
  }

  /** One batch's `for result in xs` loop. */
  method DeliverBatch(pages: seq<nat>, bodies: seq<Json>, callback: Callback) returns (d: Delivery)
    requires |bodies| == |pages|
    ensures d == Deliver(pages, bodies, 0, callback)
  {
    var delivered: seq<nat> := [];
    var stop := false;
    for i := 0 to |pages|
      invariant var rest := Deliver(pages, bodies, i, callback);
                Deliver(pages, bodies, 0, callback) == Delivery(delivered + rest.delivered, stop || rest.stop, rest.error)
    {
      var empty := IsEmptyPage(bodies[i]);
      if empty.Err? {
        assert Deliver(pages, bodies, i, callback) == Delivery([], false, Some(empty.error));
        return Delivery(delivered, stop, Some(empty.error));
      }
      ghost var rest := Deliver(pages, bodies, i + 1, callback);
      if empty.value {
        assert Deliver(pages, bodies, i, callback) == Delivery(rest.delivered, true, rest.error);
        stop := true;
      } else {
        var raised := callback(bodies[i]);
        if raised.Some? {
          assert Deliver(pages, bodies, i, callback) == Delivery([pages[i]], false, raised);
          return Delivery(delivered + [pages[i]], stop, raised);
        }
        assert Deliver(pages, bodies, i, callback) == Delivery([pages[i]] + rest.delivered, rest.stop, rest.error);
        Sequences.AppendAssoc(delivered, [pages[i]], rest.delivered);
        delivered := delivered + [pages[i]];
      }
    }
    return Delivery(delivered, stop, None);
  }

  /** `search_xdd_es`'s number of further pages: `result["total_results"] // 10`. */
  function EsPageCount(seed: Json): (r: Result<int, Exc>)
    ensures seed.JObj? && "total_results" in seed.fields && seed.fields["total_results"].JNum? ==>
            r.Ok? && 10 * r.value <= seed.fields["total_results"].n < 10 * r.value + 10
    ensures seed.JObj? && "total_results" !in seed.fields ==> r == Err(KeyError("total_results"))
  {
    var total :- Field(seed, "total_results");
    FloorDiv10(total)
  }

  /** 25 results: pages 1 and 2 are requested after the seed. */
  lemma EsPageCountExample(seed: Json)
    requires seed.JObj? && "total_results" in seed.fields && seed.fields["total_results"] == JNum(25)
    ensures EsPageCount(seed) == Ok(2)
    ensures [0] + EsTasks(EsPageCount(seed).value) == [0, 1, 2]
  {
  }

  /** A search_xdd_es run: how it ended, the pages requested, the pages passed to the callback in order. */
  datatype EsCrawl = EsCrawl(status: Status, requested: seq<nat>, delivered: seq<nat>)

  /** The pages requested after the seed reports `pages` further pages. */
  function EsTasks(pages: int): (tasks: seq<nat>)
    ensures |tasks| == if pages > 0 then pages else 0
    ensures forall j :: 0 <= j < |tasks| ==> tasks[j] == j + 1
  {
    Range(1, if pages > 0 then pages else 0)
  }

  /** Page q is answered and the callback accepts its body. */
  predicate Accepted(server: Server, callback: Callback, q: nat)
  {
    PageResult(server, q).Ok? && callback(PageResult(server, q).value).None?
  }

  /**
   * The `for f in as_completed(tasks)` loop: the pages complete in an
   * arbitrary order (the choice below); each is passed on as it completes,
   * until one raises.
   */
  method DeliverCompleted(server: Server, callback: Callback, tasks: seq<nat>) returns (delivered: seq<nat>, error: Option<Exc>)
    ensures multiset(delivered) <= multiset(tasks)
    ensures error.None? <==> forall q :: q in tasks ==> Accepted(server, callback, q)
    ensures error.None? ==> multiset(delivered) == multiset(tasks)
  {
    delivered := [];
    var pending := tasks;
    while pending != []
      invariant multiset(delivered) + multiset(pending) == multiset(tasks)
      invariant forall q :: q in delivered ==> Accepted(server, callback, q)
      decreases |pending|
    {
      var k :| 0 <= k < |pending|;
      var q := pending[k];
      assert pending == pending[..k] + [q] + pending[k + 1..];
      pending := pending[..k] + pending[k + 1..];
      assert q in multiset(tasks);
      assert q in tasks;
      var r := FetchPage(server, q);
      if r.Err? {
        assert !Accepted(server, callback, q);
        return delivered, Some(r.error);
      }
      delivered := delivered + [q];
      var raised := callback(r.value);
      if raised.Some? {
        assert !Accepted(server, callback, q);
        return delivered, raised;
      }
    }
    forall q | q in tasks
      ensures Accepted(server, callback, q)
    {
      assert q in multiset(tasks);
      assert q in multiset(delivered);
    }
    return delivered, None;
  }

  /**
   * `search_xdd_es`: the seed page 0, then pages 1 .. total_results // 10,
   * all requested at once and passed on in whatever order they complete.
   * The seed is passed on first and every other page exactly once.
   */
  method SearchXddEs(server: Server, callback: Callback) returns (c: EsCrawl)
    ensures PageResult(server, 0).Err? ==> c == EsCrawl(Failed(PageResult(server, 0).error), [0], [])
    ensures PageResult(server, 0).Ok? && EsPageCount(PageResult(server, 0).value).Err? ==>
            c == EsCrawl(Failed(EsPageCount(PageResult(server, 0).value).error), [0], [])
    ensures PageResult(server, 0).Ok? && EsPageCount(PageResult(server, 0).value).Ok? ==>
            var seed := PageResult(server, 0).value;
            && (callback(seed).None? ==> c.requested == [0] + EsTasks(EsPageCount(seed).value))
            && (callback(seed).Some? ==> c == EsCrawl(Failed(callback(seed).value), [0], [0]))
            && c.delivered != [] && c.delivered[0] == 0
    ensures multiset(c.delivered) <= multiset(c.requested)
    ensures c.status == Finished ==> multiset(c.delivered) == multiset(c.requested)
    ensures c.status == Finished <==>
            && PageResult(server, 0).Ok?
            && EsPageCount(PageResult(server, 0).value).Ok?
            && forall q :: q in [0] + EsTasks(EsPageCount(PageResult(server, 0).value).value) ==>
                 Accepted(server, callback, q)
    ensures c.status != OutOfFuel
  {
    var first := FetchPage(server, 0);
    if first.Err? {
      return EsCrawl(Failed(first.error), [0], []);
    }
    var seed := first.value;
    var count := EsPageCount(seed);
    if count.Err? {
      return EsCrawl(Failed(count.error), [0], []);
    }
    var tasks := EsTasks(count.value);
    var requested := [0] + tasks;
    var raised := callback(seed);
    if raised.Some? {
      assert 0 in requested && !Accepted(server, callback, 0);
      return EsCrawl(Failed(raised.value), [0], [0]);
    }
    assert Accepted(server, callback, 0);
    var later, error := DeliverCompleted(server, callback, tasks);
    var delivered := [0] + later;
    if error.Some? {
      var q :| q in tasks && !Accepted(server, callback, q);
      assert q in requested;
      return EsCrawl(Failed(error.value), requested, delivered);
    }
    return EsCrawl(Finished, requested, delivered);
  }
}
