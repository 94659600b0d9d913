/**
 * The per-organization scrape task shared by the paginated scrapers
 * (workspaces, registry modules, policy sets, projects): one list call to
 * learn the page count, then pages 1..TotalPages in ascending order, each
 * page's items sent one record at a time, stopping at the first failure.
 * The four source files repeat this loop verbatim with a different item type
 * and record builder; here it is written once, generic in both.
 */
module Paging {
  import opened Collector

  /** What a run of (part of) a task did: calls made, records delivered, next send attempt, error. */
  datatype Run = Run(requests: seq<Request>, emitted: seq<Record>, nextAttempt: nat, err: Option<ScrapeError>)

  /** One page: request it, then send one record per item until a send is refused. */
  function PageRun<T>(org: string, page: nat, result: ListResult<T>, build: T -> Record,
                      accepts: nat -> bool, a: nat): Run
  {
    var req := Request(org, PageOptions(page));
    match result
    case ListFailed(c) => Run([req], [], a, Some(PageFailure(org, page, c)))
    case Listed(items, _) =>
      var recs := Build(build, items);
      var k := Delivered(accepts, a, |recs|);
      if k < |recs| then Run([req], recs[..k], a + k + 1, Some(ContextDone))
      else Run([req], recs, a + k, None)
  }

  /**
   * One page makes exactly one call. If it fails, nothing is sent and the
   * error names the organization and page; otherwise the page's records are
   * sent in listing order, all of them on success, and a strict prefix when a
   * send is refused, which ends the page with the context error.
   */
  lemma PageRunOutcome<T>(org: string, page: nat, result: ListResult<T>, build: T -> Record,
                          accepts: nat -> bool, a: nat)
    ensures var p := PageRun(org, page, result, build, accepts, a);
      && p.requests == [Request(org, PageOptions(page))]
      && (result.ListFailed? ==>
            p.err == Some(PageFailure(org, page, result.cause)) && p.emitted == [] && p.nextAttempt == a)
      && (p.err.None? ==> p.emitted == PageRecords(result, build) && p.nextAttempt == a + |p.emitted|)
      && (p.err.None? <==> result.Listed? && AllAccepted(accepts, a, |PageRecords(result, build)|))
      && (p.err == Some(ContextDone) ==>
            && p.emitted < PageRecords(result, build)
            && p.nextAttempt == a + |p.emitted| + 1
            && !accepts(a + |p.emitted|))
      && (p.err.Some? ==> p.err.value.ContextDone? || p.err.value.PageFailure?)
      && (p.err.Some? && p.err.value.PageFailure? ==> result.ListFailed?)
  {
    if result.Listed? {
      var recs := Build(build, result.items);
      var k := Delivered(accepts, a, |recs|);
      if k < |recs| {
        assert !AllAccepted(accepts, a, |recs|) by { assert !accepts(a + k); }
      } else {
        DeliveredAllAccepted(accepts, a, |recs|);
      }
    }
  }

  /** Pages `page`..`total` in ascending order, stopping at the first page that fails. */
  function PagesFrom<T>(org: string, respond: (string, ListOptions) -> ListResult<T>, build: T -> Record,
                        accepts: nat -> bool, page: nat, total: int, a: nat): (r: Run)
    ensures r.err.Some? ==> r.err.value.ContextDone? || r.err.value.PageFailure?
    decreases total - page
  {
    if page > total then Run([], [], a, None)
    else
      var p := PageRun(org, page, respond(org, PageOptions(page)), build, accepts, a);
      if p.err.Some? then p
      else
        var rest := PagesFrom(org, respond, build, accepts, page + 1, total, p.nextAttempt);
        Run(p.requests + rest.requests, p.emitted + rest.emitted, rest.nextAttempt, rest.err)
  }

  /** The page loop as the task runs it, one page at a time from `page`, carrying the progress so far. */
  function PagesLoop<T>(org: string, respond: (string, ListOptions) -> ListResult<T>, build: T -> Record,
                        accepts: nat -> bool, page: nat, total: int, s: Progress): (Progress, Option<ScrapeError>)
    decreases total - page
  {
    if page > total then (s, None)
    else
      var p := PageRun(org, page, respond(org, PageOptions(page)), build, accepts, s.attempts);
      var s' := Progress(s.requests + p.requests, s.sent + p.emitted, p.nextAttempt);
      if p.err.Some? then (s', p.err) else PagesLoop(org, respond, build, accepts, page + 1, total, s')
  }

  /** Running the loop from some progress adds exactly what PagesFrom describes. */
  lemma {:induction false} PagesLoopComposes<T>(org: string, respond: (string, ListOptions) -> ListResult<T>,
                                                build: T -> Record, accepts: nat -> bool, page: nat, total: int,
                                                s: Progress)
    ensures var r := PagesFrom(org, respond, build, accepts, page, total, s.attempts);
      PagesLoop(org, respond, build, accepts, page, total, s)
        == (Progress(s.requests + r.requests, s.sent + r.emitted, r.nextAttempt), r.err)
    decreases total - page
  {
    if page <= total {
      var p := PageRun(org, page, respond(org, PageOptions(page)), build, accepts, s.attempts);
      if p.err.None? {
        var s' := Progress(s.requests + p.requests, s.sent + p.emitted, p.nextAttempt);
        PagesLoopComposes(org, respond, build, accepts, page + 1, total, s');
        var rest := PagesFrom(org, respond, build, accepts, page + 1, total, p.nextAttempt);
        assert s.requests + p.requests + rest.requests == s.requests + (p.requests + rest.requests);
        assert s.sent + p.emitted + rest.emitted == s.sent + (p.emitted + rest.emitted);
      }
    } else {
      assert s.requests + [] == s.requests && s.sent + [] == s.sent;
    }
  }

  /** The task as the loop runs it adds exactly what Task describes. */
  lemma TaskComposes<T>(org: string, respond: (string, ListOptions) -> ListResult<T>, build: T -> Record,
                        accepts: nat -> bool, s: Progress)
    requires respond(org, InitialOptions).Listed?
    ensures var r := Task(org, respond, build, accepts, s.attempts);
      PagesLoop(org, respond, build, accepts, 1, respond(org, InitialOptions).totalPages,
                Progress(s.requests + [Request(org, InitialOptions)], s.sent, s.attempts))
        == (Progress(s.requests + r.requests, s.sent + r.emitted, r.nextAttempt), r.err)
  {
    var first := Request(org, InitialOptions);
    var total := respond(org, InitialOptions).totalPages;
    PagesLoopComposes(org, respond, build, accepts, 1, total, Progress(s.requests + [first], s.sent, s.attempts));
    var full := PagesFrom(org, respond, build, accepts, 1, total, s.attempts);
    assert s.requests + [first] + full.requests == s.requests + ([first] + full.requests);
  }

  /** One organization's task: the unnumbered first call, then pages 1..TotalPages. */
  function Task<T>(org: string, respond: (string, ListOptions) -> ListResult<T>, build: T -> Record,
                   accepts: nat -> bool, a: nat): Run
  {
    var first := Request(org, InitialOptions);
    match respond(org, InitialOptions)
    case ListFailed(c) => Run([first], [], a, Some(OrgFailure(org, c)))
    case Listed(_, total) =>
      var r := PagesFrom(org, respond, build, accepts, 1, total, a);
      r.(requests := [first] + r.requests)
  }

  // ---------------------------------------------------------------------------
  // Reference definitions the properties are stated against

  /** The calls ask for pages `from`, `from + 1`, ... in turn, each with the fixed page size. */
  ghost predicate PagesRequested(rs: seq<Request>, org: string, from: nat)
  {
    forall i :: 0 <= i < |rs| ==> rs[i] == Request(org, PageOptions(from + i))
  }

  /** Call 0 is the unnumbered first call; call i, from 1 on, asks for page i with the fixed page size. */
  ghost predicate TaskRequests(rs: seq<Request>, org: string)
  {
    && |rs| >= 1
    && rs[0] == Request(org, InitialOptions)
    && forall i :: 1 <= i < |rs| ==> rs[i] == Request(org, PageOptions(i))
  }

  /** Every record of a page's listing, or none if the call failed. */
  function PageRecords<T>(result: ListResult<T>, build: T -> Record): seq<Record>
  {
    match result
    case Listed(items, _) => Build(build, items)
    case ListFailed(_) => []
  }

  /** The records of pages `from`..`to`, page after page, as the complete listing would give them. */
  function PagesRecords<T>(org: string, respond: (string, ListOptions) -> ListResult<T>, build: T -> Record,
                           from: nat, to: int): seq<Record>
    decreases to - from
  {
    if from > to then []
    else PageRecords(respond(org, PageOptions(from)), build) + PagesRecords(org, respond, build, from + 1, to)
  }

  /** Every page from `from` to `to` was listed without error. */
  ghost predicate AllListed<T>(org: string, respond: (string, ListOptions) -> ListResult<T>, from: nat, to: int)
  {
    forall j: nat :: from <= j <= to ==> respond(org, PageOptions(j)).Listed?
  }

  /** The `n` send attempts from attempt `a` on are all delivered. */
  ghost predicate AllAccepted(accepts: nat -> bool, a: nat, n: nat)
  {
    forall j :: a <= j < a + n ==> accepts(j)
  }

  function Max0(n: int): nat
  {
    if n < 0 then 0 else n
  }

  // ---------------------------------------------------------------------------
  // Properties of the page loop

  lemma {:induction false} PagesRequestsAscending<T>(org: string, respond: (string, ListOptions) -> ListResult<T>,
                                                     build: T -> Record, accepts: nat -> bool, page: nat, total: int, a: nat)
    ensures PagesRequested(PagesFrom(org, respond, build, accepts, page, total, a).requests, org, page)
    decreases total - page
  {
    if page <= total {
      var p := PageRun(org, page, respond(org, PageOptions(page)), build, accepts, a);
      var r := PagesFrom(org, respond, build, accepts, page, total, a);
      if p.err.None? {
        PagesRequestsAscending(org, respond, build, accepts, page + 1, total, p.nextAttempt);
        var rest := PagesFrom(org, respond, build, accepts, page + 1, total, p.nextAttempt);
        assert p.requests == [Request(org, PageOptions(page))];
        assert r.requests == [Request(org, PageOptions(page))] + rest.requests;
        forall i | 0 <= i < |r.requests| ensures r.requests[i] == Request(org, PageOptions(page + i)) {
          if i > 0 {
            assert r.requests[i] == rest.requests[i - 1];
          }
        }
      }
    }
  }

  /** One call per page: all of them on success, at least one and at most all when a page fails. */
  lemma {:induction false} PagesRequestCount<T>(org: string, respond: (string, ListOptions) -> ListResult<T>,
                                                build: T -> Record, accepts: nat -> bool, page: nat, total: int, a: nat)
    ensures var r := PagesFrom(org, respond, build, accepts, page, total, a);
      && |r.requests| <= Max0(total - page + 1)
      && (r.err.None? ==> |r.requests| == Max0(total - page + 1))
      && (r.err.Some? ==> |r.requests| >= 1)
    decreases total - page
  {
    if page <= total {
      var p := PageRun(org, page, respond(org, PageOptions(page)), build, accepts, a);
      assert |p.requests| == 1;
      if p.err.None? {
        PagesRequestCount(org, respond, build, accepts, page + 1, total, p.nextAttempt);
      }
    }
  }

  lemma {:induction false} PagesSuccess<T>(org: string, respond: (string, ListOptions) -> ListResult<T>,
                                           build: T -> Record, accepts: nat -> bool, page: nat, total: int, a: nat)
    ensures var r := PagesFrom(org, respond, build, accepts, page, total, a);
      var all := PagesRecords(org, respond, build, page, total);
      && (r.err.None? <==> AllListed(org, respond, page, total) && AllAccepted(accepts, a, |all|))
      && (r.err.None? ==> r.emitted == all && r.nextAttempt == a + |all|)
    decreases total - page
  {
    if page <= total {
      var res := respond(org, PageOptions(page));
      var p := PageRun(org, page, res, build, accepts, a);
      var all := PagesRecords(org, respond, build, page, total);
      if res.ListFailed? {
        assert !AllListed(org, respond, page, total);
      } else {
        var recs := Build(build, res.items);
        var k := Delivered(accepts, a, |recs|);
        var tail := PagesRecords(org, respond, build, page + 1, total);
        assert all == recs + tail;
        if k < |recs| {
          assert !accepts(a + k);
          assert !AllAccepted(accepts, a, |all|);
        } else {
          DeliveredAllAccepted(accepts, a, |recs|);
          PagesSuccess(org, respond, build, accepts, page + 1, total, a + k);
          assert AllListed(org, respond, page, total) <==> AllListed(org, respond, page + 1, total);
          assert AllAccepted(accepts, a, |all|) <==> AllAccepted(accepts, a + k, |tail|);
        }
      }
    }
  }

  lemma {:induction false} PagesFailure<T>(org: string, respond: (string, ListOptions) -> ListResult<T>,
                                           build: T -> Record, accepts: nat -> bool, page: nat, total: int, a: nat)
    ensures var r := PagesFrom(org, respond, build, accepts, page, total, a);
      r.err.Some? && r.err.value.PageFailure? ==>
        var k := r.err.value.page;
        && r.err.value.organization == org
        && page <= k <= total
        && |r.requests| == k - page + 1
        && respond(org, PageOptions(k)) == ListFailed(r.err.value.cause)
        && AllListed(org, respond, page, k - 1)
        && r.emitted == PagesRecords(org, respond, build, page, k - 1)
        && r.nextAttempt == a + |r.emitted|
    decreases total - page
  {
    if page <= total {
      var res := respond(org, PageOptions(page));
      var p := PageRun(org, page, res, build, accepts, a);
      PageRunOutcome(org, page, res, build, accepts, a);
      var r := PagesFrom(org, respond, build, accepts, page, total, a);
      if p.err.None? {
        var rest := PagesFrom(org, respond, build, accepts, page + 1, total, p.nextAttempt);
        assert r == Run(p.requests + rest.requests, p.emitted + rest.emitted, rest.nextAttempt, rest.err);
        if rest.err.Some? && rest.err.value.PageFailure? {
          PagesFailure(org, respond, build, accepts, page + 1, total, p.nextAttempt);
          var k := rest.err.value.page;
          assert PagesRecords(org, respond, build, page, k - 1)
              == p.emitted + PagesRecords(org, respond, build, page + 1, k - 1);
          assert AllListed(org, respond, page, k - 1) by {
            forall j: nat | page <= j <= k - 1 ensures respond(org, PageOptions(j)).Listed? {
              if j > page {
                assert page + 1 <= j <= k - 1;
              }
            }
          }
        }
      } else if p.err.value.PageFailure? {
        assert r == p;
        assert PagesRecords(org, respond, build, page, page - 1) == [];
      }
    }
  }

  lemma {:induction false} PagesCancelled<T>(org: string, respond: (string, ListOptions) -> ListResult<T>,
                                             build: T -> Record, accepts: nat -> bool, page: nat, total: int, a: nat)
    ensures var r := PagesFrom(org, respond, build, accepts, page, total, a);
      r.err == Some(ContextDone) ==>
        var k := page + |r.requests| - 1;
        && page <= k <= total
        && AllListed(org, respond, page, k)
        && r.nextAttempt == a + |r.emitted| + 1
        && !accepts(a + |r.emitted|)
    decreases total - page
  {
    if page <= total {
      var res := respond(org, PageOptions(page));
      var p := PageRun(org, page, res, build, accepts, a);
      PageRunOutcome(org, page, res, build, accepts, a);
      var r := PagesFrom(org, respond, build, accepts, page, total, a);
      if p.err.None? {
        var rest := PagesFrom(org, respond, build, accepts, page + 1, total, p.nextAttempt);
        assert r == Run(p.requests + rest.requests, p.emitted + rest.emitted, rest.nextAttempt, rest.err);
        if rest.err == Some(ContextDone) {
          PagesCancelled(org, respond, build, accepts, page + 1, total, p.nextAttempt);
          var k := page + |rest.requests|;
          assert AllListed(org, respond, page, k) by {
            forall j: nat | page <= j <= k ensures respond(org, PageOptions(j)).Listed? {
              if j > page {
                assert page + 1 <= j <= k;
              }
            }
          }
        }
      }
    }
  }

  /**
   * When a send is refused on page k, what was sent is every record of the
   * pages before k and a strict prefix of the records up to and including k.
   */
  lemma {:induction false} PagesCancelledSent<T>(org: string, respond: (string, ListOptions) -> ListResult<T>,
                                                 build: T -> Record, accepts: nat -> bool, page: nat, total: int, a: nat)
    ensures var r := PagesFrom(org, respond, build, accepts, page, total, a);
      r.err == Some(ContextDone) ==>
        var k := page + |r.requests| - 1;
        && PagesRecords(org, respond, build, page, k - 1) <= r.emitted
        && r.emitted < PagesRecords(org, respond, build, page, k)
    decreases total - page
  {
    if page <= total {
      var res := respond(org, PageOptions(page));
      var p := PageRun(org, page, res, build, accepts, a);
      PageRunOutcome(org, page, res, build, accepts, a);
      var r := PagesFrom(org, respond, build, accepts, page, total, a);
      if p.err.None? {
        var rest := PagesFrom(org, respond, build, accepts, page + 1, total, p.nextAttempt);
        assert r == Run(p.requests + rest.requests, p.emitted + rest.emitted, rest.nextAttempt, rest.err);
        if rest.err == Some(ContextDone) {
          PagesCancelledSent(org, respond, build, accepts, page + 1, total, p.nextAttempt);
          PagesRequestCount(org, respond, build, accepts, page + 1, total, p.nextAttempt);
          var k := page + |rest.requests|;
          assert PagesRecords(org, respond, build, page, k - 1)
              == p.emitted + PagesRecords(org, respond, build, page + 1, k - 1);
          assert PagesRecords(org, respond, build, page, k)
              == p.emitted + PagesRecords(org, respond, build, page + 1, k);
          PrefixAppend(p.emitted, PagesRecords(org, respond, build, page + 1, k - 1), rest.emitted);
          PrefixAppend(p.emitted, rest.emitted, PagesRecords(org, respond, build, page + 1, k));
        }
      } else if p.err == Some(ContextDone) {
        assert r == p;
        assert PagesRecords(org, respond, build, page, page - 1) == [];
        assert PagesRecords(org, respond, build, page, page)
            == PageRecords(res, build) + PagesRecords(org, respond, build, page + 1, page);
        assert PagesRecords(org, respond, build, page + 1, page) == [];
      }
    }
  }

  lemma PrefixAppend(p: seq<Record>, x: seq<Record>, y: seq<Record>)
    ensures x <= y ==> p + x <= p + y
    ensures x < y ==> p + x < p + y
  {
    if x <= y {
      assert (p + y)[..|p + x|] == p + x;
    }
  }

  lemma {:induction false} PagesEmittedPrefix<T>(org: string, respond: (string, ListOptions) -> ListResult<T>,
                                                 build: T -> Record, accepts: nat -> bool, page: nat, total: int, a: nat)
    ensures PagesFrom(org, respond, build, accepts, page, total, a).emitted <= PagesRecords(org, respond, build, page, total)
    decreases total - page
  {
    if page <= total {
      var res := respond(org, PageOptions(page));
      var p := PageRun(org, page, res, build, accepts, a);
      if p.err.None? {
        PagesEmittedPrefix(org, respond, build, accepts, page + 1, total, p.nextAttempt);
      }
    }
  }

  // ---------------------------------------------------------------------------
  // Properties of one organization's task

  /** A failed first call reports the organization alone, sends nothing and requests no page. */
  lemma TaskInitialFailure<T>(org: string, respond: (string, ListOptions) -> ListResult<T>,
                              build: T -> Record, accepts: nat -> bool, a: nat)
    requires respond(org, InitialOptions).ListFailed?
    ensures var r := Task(org, respond, build, accepts, a);
      && r.err == Some(OrgFailure(org, respond(org, InitialOptions).cause))
      && r.requests == [Request(org, InitialOptions)]
      && r.emitted == [] && r.nextAttempt == a
  {
  }

  /**
   * After the unnumbered first call, pages 1, 2, ... are requested in
   * ascending order with the fixed page size, never beyond TotalPages, and all
   * TotalPages of them when the task succeeds (so page 1 is fetched twice); a
   * task that fails after its first call has requested at least one page.
   */
  lemma TaskRequestOrder<T>(org: string, respond: (string, ListOptions) -> ListResult<T>,
                            build: T -> Record, accepts: nat -> bool, a: nat)
    requires respond(org, InitialOptions).Listed?
    ensures var r := Task(org, respond, build, accepts, a);
      var total := respond(org, InitialOptions).totalPages;
      && TaskRequests(r.requests, org)
      && |r.requests| - 1 <= Max0(total)
      && (r.err.None? ==> |r.requests| == Max0(total) + 1)
      && (r.err.Some? ==> |r.requests| >= 2)
      && forall i :: 0 <= i < |r.requests| ==> r.requests[i].options.pageSize == Some(PageSize)
  {
    var total := respond(org, InitialOptions).totalPages;
    PagesRequestsAscending(org, respond, build, accepts, 1, total, a);
    PagesRequestCount(org, respond, build, accepts, 1, total, a);
    var pages := PagesFrom(org, respond, build, accepts, 1, total, a);
    var r := Task(org, respond, build, accepts, a);
    assert r.requests == [Request(org, InitialOptions)] + pages.requests;
    forall i | 1 <= i < |r.requests| ensures r.requests[i] == Request(org, PageOptions(i)) {
      assert r.requests[i] == pages.requests[i - 1];
    }
  }

  /** A declared page count of zero or less: no page is requested, nothing is sent, success. */
  lemma TaskEmptyListing<T>(org: string, respond: (string, ListOptions) -> ListResult<T>,
                            build: T -> Record, accepts: nat -> bool, a: nat)
    requires respond(org, InitialOptions).Listed? && respond(org, InitialOptions).totalPages <= 0
    ensures Task(org, respond, build, accepts, a) == Run([Request(org, InitialOptions)], [], a, None)
  {
  }

  /**
   * The task succeeds exactly when every page 1..TotalPages is listed and
   * every send is delivered; then it has sent every item of every page, in
   * page order and listing order within a page.
   */
  lemma TaskSuccess<T>(org: string, respond: (string, ListOptions) -> ListResult<T>,
                       build: T -> Record, accepts: nat -> bool, a: nat)
    requires respond(org, InitialOptions).Listed?
    ensures var r := Task(org, respond, build, accepts, a);
      var total := respond(org, InitialOptions).totalPages;
      var all := PagesRecords(org, respond, build, 1, total);
      && (r.err.None? <==> AllListed(org, respond, 1, total) && AllAccepted(accepts, a, |all|))
      && (r.err.None? ==> r.emitted == all)
  {
    PagesSuccess(org, respond, build, accepts, 1, respond(org, InitialOptions).totalPages, a);
  }

  /**
   * A failed page k is reported with the organization and k; it is the last
   * call, and the records of pages 1..k-1, all listed, have all been sent.
   */
  lemma TaskPageFailure<T>(org: string, respond: (string, ListOptions) -> ListResult<T>,
                           build: T -> Record, accepts: nat -> bool, a: nat)
    ensures var r := Task(org, respond, build, accepts, a);
      r.err.Some? && r.err.value.PageFailure? ==>
        var k := r.err.value.page;
        && respond(org, InitialOptions).Listed?
        && r.err.value.organization == org
        && 1 <= k <= respond(org, InitialOptions).totalPages
        && TaskRequests(r.requests, org) && |r.requests| == k + 1
        && respond(org, PageOptions(k)) == ListFailed(r.err.value.cause)
        && AllListed(org, respond, 1, k - 1)
        && r.emitted == PagesRecords(org, respond, build, 1, k - 1)
  {
    if respond(org, InitialOptions).Listed? {
      var total := respond(org, InitialOptions).totalPages;
      PagesFailure(org, respond, build, accepts, 1, total, a);
      TaskRequestOrder(org, respond, build, accepts, a);
    }
  }

  /**
   * A refused send ends the task with the context error during page k, the
   * last page requested: pages before k were sent whole, page k only in part,
   * and the refused attempt is the last one made.
   */
  lemma TaskCancelled<T>(org: string, respond: (string, ListOptions) -> ListResult<T>,
                         build: T -> Record, accepts: nat -> bool, a: nat)
    ensures var r := Task(org, respond, build, accepts, a);
      r.err == Some(ContextDone) ==>
        var k := |r.requests| - 1;
        && respond(org, InitialOptions).Listed?
        && 1 <= k <= respond(org, InitialOptions).totalPages
        && TaskRequests(r.requests, org)
        && PagesRecords(org, respond, build, 1, k - 1) <= r.emitted
        && r.emitted < PagesRecords(org, respond, build, 1, k)
        && r.nextAttempt == a + |r.emitted| + 1
        && !accepts(a + |r.emitted|)
  {
    if respond(org, InitialOptions).Listed? {
      var total := respond(org, InitialOptions).totalPages;
      PagesCancelled(org, respond, build, accepts, 1, total, a);
      PagesCancelledSent(org, respond, build, accepts, 1, total, a);
      TaskRequestOrder(org, respond, build, accepts, a);
    }
  }

  /** Whatever happens, what was sent is a prefix of the complete listing's records. */
  lemma TaskEmittedPrefix<T>(org: string, respond: (string, ListOptions) -> ListResult<T>,
                             build: T -> Record, accepts: nat -> bool, a: nat)
    ensures var r := Task(org, respond, build, accepts, a);
      respond(org, InitialOptions).Listed? ==>
        r.emitted <= PagesRecords(org, respond, build, 1, respond(org, InitialOptions).totalPages)
  {
    if respond(org, InitialOptions).Listed? {
      PagesEmittedPrefix(org, respond, build, accepts, 1, respond(org, InitialOptions).totalPages, a);
    }
  }

  // ---------------------------------------------------------------------------
  // The imperative task

  /** Requests one page and sends one record per item, stopping at a refused send. */
  method ListPage<T>(org: string, page: nat, client: Client<ListResult<T>>, build: T -> Record, ch: Conduit)
    returns (err: Option<ScrapeError>)
    modifies client, ch
    ensures var r := PageRun(org, page, client.respond(org, PageOptions(page)), build, ch.accepts, old(ch.attempts));
      && client.requests == old(client.requests) + r.requests
      && ch.sent == old(ch.sent) + r.emitted
      && ch.attempts == r.nextAttempt
      && err == r.err
  {
    var list := client.List(org, PageOptions(page));
    if list.ListFailed? {
      return Some(PageFailure(org, page, list.cause));
    }
    ghost var recs := Build(build, list.items);
    var i := 0;
    while i < |list.items|
      invariant 0 <= i <= |list.items|
      invariant client.requests == old(client.requests) + [Request(org, PageOptions(page))]
      invariant ch.attempts == old(ch.attempts) + i
      invariant AllAccepted(ch.accepts, old(ch.attempts), i)
      invariant ch.sent == old(ch.sent) + recs[..i]
    {
      var delivered := ch.Send(build(list.items[i]));
      if !delivered {
        DeliveredExactly(ch.accepts, old(ch.attempts), |recs|, i);
        return Some(ContextDone);
      }
      assert recs[..i + 1] == recs[..i] + [recs[i]];
      i := i + 1;
    }
    assert recs[..i] == recs;
    DeliveredExactly(ch.accepts, old(ch.attempts), |recs|, i);
    return None;
  }

  /** One organization's task: the first call, then pages 1..TotalPages, stopping at the first error. */
  method ScrapeOrganization<T>(org: string, client: Client<ListResult<T>>, build: T -> Record, ch: Conduit)
    returns (err: Option<ScrapeError>)
    modifies client, ch
    ensures var r := Task(org, client.respond, build, ch.accepts, old(ch.attempts));
      && client.requests == old(client.requests) + r.requests
      && ch.sent == old(ch.sent) + r.emitted
      && ch.attempts == r.nextAttempt
      && err == r.err
  {
    ghost var respond, accepts := client.respond, ch.accepts;
    ghost var start := Progress(client.requests, ch.sent, ch.attempts);
    var first := client.List(org, InitialOptions);
    if first.ListFailed? {
      return Some(OrgFailure(org, first.cause));
    }
    TaskComposes(org, respond, build, accepts, start);
    ghost var goal := PagesLoop(org, respond, build, accepts, 1, first.totalPages,
                                Progress(client.requests, ch.sent, ch.attempts));
    var i := 1;
    while i <= first.totalPages
      invariant i >= 1
      invariant PagesLoop(org, respond, build, accepts, i, first.totalPages,
                          Progress(client.requests, ch.sent, ch.attempts)) == goal
      decreases first.totalPages - i
    {
      err := ListPage(org, i, client, build, ch);
      if err.Some? {
        return;
      }
      i := i + 1;
    }
    return None;
  }

  // ---------------------------------------------------------------------------
  // The organizations of one scraper, run one after the other

  /** What running every organization's task did, and each task's result in organization order. */
  datatype GroupRun = GroupRun(requests: seq<Request>, emitted: seq<Record>, nextAttempt: nat,
                               results: seq<Option<ScrapeError>>)

  function Group<T>(orgs: seq<string>, respond: (string, ListOptions) -> ListResult<T>, build: T -> Record,
                    accepts: nat -> bool, a: nat): GroupRun
    decreases |orgs|
  {
    if orgs == [] then GroupRun([], [], a, [])
    else
      var t := Task(orgs[0], respond, build, accepts, a);
      var rest := Group(orgs[1..], respond, build, accepts, t.nextAttempt);
      GroupRun(t.requests + rest.requests, t.emitted + rest.emitted, rest.nextAttempt, [t.err] + rest.results)
  }

  /** The organizations' tasks as the loop runs them, carrying the progress and the results so far. */
  function GroupLoop<T>(orgs: seq<string>, respond: (string, ListOptions) -> ListResult<T>, build: T -> Record,
                        accepts: nat -> bool, s: Progress, results: seq<Option<ScrapeError>>)
    : (Progress, seq<Option<ScrapeError>>)
    decreases |orgs|
  {
    if orgs == [] then (s, results)
    else
      var t := Task(orgs[0], respond, build, accepts, s.attempts);
      GroupLoop(orgs[1..], respond, build, accepts,
                Progress(s.requests + t.requests, s.sent + t.emitted, t.nextAttempt), results + [t.err])
  }

  lemma {:induction false} GroupLoopComposes<T>(orgs: seq<string>, respond: (string, ListOptions) -> ListResult<T>,
                                                build: T -> Record, accepts: nat -> bool, s: Progress,
                                                results: seq<Option<ScrapeError>>)
    ensures var g := Group(orgs, respond, build, accepts, s.attempts);
      GroupLoop(orgs, respond, build, accepts, s, results)
        == (Progress(s.requests + g.requests, s.sent + g.emitted, g.nextAttempt), results + g.results)
    decreases |orgs|
  {
    if orgs == [] {
      assert s.requests + [] == s.requests && s.sent + [] == s.sent && results + [] == results;
    } else {
      var t := Task(orgs[0], respond, build, accepts, s.attempts);
      var s' := Progress(s.requests + t.requests, s.sent + t.emitted, t.nextAttempt);
      GroupLoopComposes(orgs[1..], respond, build, accepts, s', results + [t.err]);
      var rest := Group(orgs[1..], respond, build, accepts, t.nextAttempt);
      assert s.requests + t.requests + rest.requests == s.requests + (t.requests + rest.requests);
      assert s.sent + t.emitted + rest.emitted == s.sent + (t.emitted + rest.emitted);
      assert results + [t.err] + rest.results == results + ([t.err] + rest.results);
    }
  }

  /** Every organization gets one task, and every error a task reports names that task's organization. */
  lemma {:induction false} GroupAttribution<T>(orgs: seq<string>, respond: (string, ListOptions) -> ListResult<T>,
                                               build: T -> Record, accepts: nat -> bool, a: nat)
    ensures var g := Group(orgs, respond, build, accepts, a);
      && |g.results| == |orgs|
      && forall i :: 0 <= i < |orgs| && g.results[i].Some? && !g.results[i].value.ContextDone? ==>
           g.results[i].value.organization == orgs[i]
    decreases |orgs|
  {
    if orgs != [] {
      var t := Task(orgs[0], respond, build, accepts, a);
      var rest := Group(orgs[1..], respond, build, accepts, t.nextAttempt);
      GroupAttribution(orgs[1..], respond, build, accepts, t.nextAttempt);
      TaskPageFailure(orgs[0], respond, build, accepts, a);
      var g := Group(orgs, respond, build, accepts, a);
      forall i | 0 <= i < |orgs| && g.results[i].Some? && !g.results[i].value.ContextDone?
        ensures g.results[i].value.organization == orgs[i]
      {
        if i > 0 {
          assert g.results[i] == rest.results[i - 1] && orgs[1..][i - 1] == orgs[i];
        }
      }
    }
  }

  /**
   * Runs every organization's task; the result is no error exactly when no
   * task reported one, and otherwise one of the reported errors.
   */
  method ScrapeAll<T>(orgs: seq<string>, client: Client<ListResult<T>>, build: T -> Record, ch: Conduit)
    returns (err: Option<ScrapeError>)
    modifies client, ch
    ensures var g := Group(orgs, client.respond, build, ch.accepts, old(ch.attempts));
      && client.requests == old(client.requests) + g.requests
      && ch.sent == old(ch.sent) + g.emitted
      && ch.attempts == g.nextAttempt
      && (err.None? <==> forall i :: 0 <= i < |g.results| ==> g.results[i].None?)
      && (err.Some? ==> err in g.results)
  {
    ghost var respond, accepts := client.respond, ch.accepts;
    ghost var start := Progress(client.requests, ch.sent, ch.attempts);
    GroupLoopComposes(orgs, respond, build, accepts, start, []);
    ghost var goal := GroupLoop(orgs, respond, build, accepts, start, []);
    ghost var results: seq<Option<ScrapeError>> := [];
    err := None;
    var i := 0;
    while i < |orgs|
      invariant 0 <= i <= |orgs|
      invariant GroupLoop(orgs[i..], respond, build, accepts, Progress(client.requests, ch.sent, ch.attempts), results)
        == goal
      invariant err.None? <==> forall j :: 0 <= j < |results| ==> results[j].None?
      invariant err.Some? ==> err in results
    {
      assert orgs[i..][0] == orgs[i] && orgs[i..][1..] == orgs[i + 1..];
      var e := ScrapeOrganization(orgs[i], client, build, ch);
      assert forall j :: 0 <= j < |results| ==> (results + [e])[j] == results[j];
      assert (results + [e])[|results|] == e;
      results := results + [e];
      if err.None? && e.Some? {
        err := e;
      }
      i := i + 1;
    }
    assert orgs[i..] == [];
    ghost var g := Group(orgs, respond, build, accepts, start.attempts);
    assert [] + g.results == g.results;
    assert results == g.results;
  }
}
