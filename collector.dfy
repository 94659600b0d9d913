/**
 * Shared vocabulary of the collector package: list requests and responses of
 * the remote API client, scrape errors, metric descriptors and records, the
 * outbound channel, and the package-wide list of registered scrapers.
 */
module Collector {

  datatype Option<+T> = None | Some(value: T)

  /** Page size of every paginated listing request. */
  const PageSize: nat := 100

  /** The paging part of a list request; `None` is a field the request leaves unset. */
  datatype ListOptions = ListOptions(pageSize: Option<nat>, pageNumber: Option<nat>)

  /** The first request of a paginated task: page size only, no page number. */
  const InitialOptions: ListOptions := ListOptions(Some(PageSize), None)

  /** The request for one numbered page. */
  function PageOptions(page: nat): (o: ListOptions)
    ensures o.pageSize == Some(PageSize) && o.pageNumber == Some(page)
    ensures o != InitialOptions
  {
    ListOptions(Some(PageSize), Some(page))
  }

  /** One call made to the remote client. */
  datatype Request = Request(organization: string, options: ListOptions)

  /** The client's underlying error, kept opaque. */
  type Cause = string

  /** What a paginated list call returns: one page of items and the declared page count, or an error. */
  datatype ListResult<T> = Listed(items: seq<T>, totalPages: int) | ListFailed(cause: Cause)

  /** The errors a scrape task returns. */
  datatype ScrapeError =
    | OrgFailure(organization: string, cause: Cause)               // the first list call failed
    | PageFailure(organization: string, page: nat, cause: Cause)   // the call for one page failed
    | ContextDone                                                  // cancellation seen while sending

  /** A metric descriptor: its subsystem, help text and ordered label names. */
  datatype Descriptor = Descriptor(subsystem: string, help: string, labelNames: seq<string>)

  /** One constant gauge sample: its descriptor, label values in descriptor order, and value. */
  datatype Record = Record(desc: Descriptor, labels: seq<string>, value: int)

  /** A record fits its descriptor when it carries one value per label name. */
  predicate Conforms(r: Record)
  {
    |r.labels| == |r.desc.labelNames|
  }

  /** Strings that are pairwise distinct. */
  predicate Distinct(names: seq<string>)
  {
    forall i, j :: 0 <= i < j < |names| ==> names[i] != names[j]
  }

  /**
   * The value a record carries for the label called `name`: the value at a
   * position where the descriptor has that name, if there is one. With
   * distinct label names that position is unique.
   */
  ghost function LabelValue(r: Record, name: string): Option<string>
    requires Conforms(r)
  {
    if exists i :: 0 <= i < |r.labels| && r.desc.labelNames[i] == name then
      var i :| 0 <= i < |r.labels| && r.desc.labelNames[i] == name; Some(r.labels[i])
    else None
  }

  /** A record whose label names are distinct carries, for the name at each position, the value at that position. */
  lemma LabelsByName(r: Record)
    requires Conforms(r) && Distinct(r.desc.labelNames)
    ensures forall i :: 0 <= i < |r.labels| ==> LabelValue(r, r.desc.labelNames[i]) == Some(r.labels[i])
  {
  }

  /**
   * A gauge sample with value 1 ("this resource exists"). A label count that
   * differs from the descriptor's is a panic in the metrics library, hence the
   * precondition.
   */
  function InfoSample(d: Descriptor, labels: seq<string>): (r: Record)
    requires |labels| == |d.labelNames|
    ensures Conforms(r) && r.value == 1
    ensures r.desc == d && r.labels == labels
  {
    Record(d, labels, 1)
  }

  /**
   * The number of leading send attempts, starting at attempt `a`, that are
   * delivered before the first refused one, among `n` attempts.
   */
  function Delivered(accepts: nat -> bool, a: nat, n: nat): (k: nat)
    ensures k <= n
    ensures k < n ==> !accepts(a + k)
    decreases n
  {
    if n == 0 || !accepts(a) then 0 else 1 + Delivered(accepts, a + 1, n - 1)
  }

  /** Delivered counts exactly the attempts before the first refused one. */
  lemma {:induction false} DeliveredAllAccepted(accepts: nat -> bool, a: nat, n: nat)
    ensures forall j :: a <= j < a + Delivered(accepts, a, n) ==> accepts(j)
    decreases n
  {
    if n > 0 && accepts(a) {
      DeliveredAllAccepted(accepts, a + 1, n - 1);
    }
  }

  /** Conversely, `i` accepted attempts followed by a refused one (or by the end) is exactly `i` delivered. */
  lemma {:induction false} DeliveredExactly(accepts: nat -> bool, a: nat, n: nat, i: nat)
    requires i <= n
    requires forall j :: a <= j < a + i ==> accepts(j)
    requires i < n ==> !accepts(a + i)
    ensures Delivered(accepts, a, n) == i
    decreases i
  {
    if i > 0 {
      assert accepts(a);
      DeliveredExactly(accepts, a + 1, n - 1, i - 1);
    }
  }

  /** The records built from a sequence of items, one per item, in order. */
  function Build<T>(build: T -> Record, items: seq<T>): (rs: seq<Record>)
    ensures |rs| == |items|
  {
    seq(|items|, i requires 0 <= i < |items| => build(items[i]))
  }

  /** Building a sequence that starts with `x` starts with the record built from `x`. */
  lemma BuildCons<T>(build: T -> Record, x: T, xs: seq<T>)
    ensures Build(build, [x] + xs) == [build(x)] + Build(build, xs)
  {
    var l, r := Build(build, [x] + xs), [build(x)] + Build(build, xs);
    forall i | 0 <= i < |l| ensures l[i] == r[i] {
      if i > 0 {
        assert ([x] + xs)[i] == xs[i - 1];
      }
    }
  }

  /**
   * The outbound metric channel. Each send attempt either delivers the record
   * or observes that the context is done; `accepts` is the oracle that decides
   * which, by attempt number.
   */
  class Conduit {
    var sent: seq<Record>
    var attempts: nat
    const accepts: nat -> bool

    constructor (accepts: nat -> bool)
      ensures sent == [] && attempts == 0 && this.accepts == accepts
    {
      sent := [];
      attempts := 0;
      this.accepts := accepts;
    }

    /** One `select` between sending `r` and the context being done. */
    method Send(r: Record) returns (delivered: bool)
      modifies this
      ensures delivered == accepts(old(attempts))
      ensures attempts == old(attempts) + 1
      ensures sent == if delivered then old(sent) + [r] else old(sent)
    {
      delivered := accepts(attempts);
      attempts := attempts + 1;
      if delivered {
        sent := sent + [r];
      }
    }
  }

  /**
   * The remote API client for one endpoint: `respond` is the oracle that
   * answers each request, and `requests` logs every call in order.
   */
  class Client<R> {
    const respond: (string, ListOptions) -> R
    var requests: seq<Request>

    constructor (respond: (string, ListOptions) -> R)
      ensures this.respond == respond && requests == []
    {
      this.respond := respond;
      requests := [];
    }

    method List(organization: string, options: ListOptions) returns (r: R)
      modifies this
      ensures requests == old(requests) + [Request(organization, options)]
      ensures r == respond(organization, options)
    {
      requests := requests + [Request(organization, options)];
      r := respond(organization, options);
    }
  }

  /** What a scrape has done so far: calls made, records sent, send attempts made. */
  datatype Progress = Progress(requests: seq<Request>, sent: seq<Record>, attempts: nat)

  /** The five scraper types of the package. */
  datatype Scraper = ScrapeWorkspaces | ScrapeRegistryModules | ScrapePolicySets | ScrapeProjects | ScrapeTeams

  /** The package-level list of scrapers that each file's `init` appends to. */
  class ScraperList {
    var scrapers: seq<Scraper>

    constructor ()
      ensures scrapers == []
    {
      scrapers := [];
    }

    method Append(s: Scraper)
      modifies this
      ensures scrapers == old(scrapers) + [s]
    {
      scrapers := scrapers + [s];
    }
  }
}
