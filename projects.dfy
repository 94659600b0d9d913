/**
 * The projects scraper: one information record per project of every
 * configured organization, fetched page by page.
 */
module Projects {
  import opened Collector
  import Paging

  const Subsystem: string := "projects"

  const LabelNames: seq<string> := ["id", "name", "organization", "description"]

  const Info: Descriptor := Descriptor(Subsystem, "Information about existing projects", LabelNames)

  /** A project as listed, with its organization's name. */
  datatype Project = Project(id: string, name: string, organization: string, description: string)

  function Name(): string
  {
    Subsystem
  }

  /** The label values of a project's record, in descriptor order. */
  function Labels(p: Project): (ls: seq<string>)
    ensures |ls| == |LabelNames|
  {
    [p.id, p.name, p.organization, p.description]
  }

  /** The information record of one project. */
  function Metric(p: Project): (r: Record)
    ensures Conforms(r) && r.desc == Info && r.value == 1
  {
    InfoSample(Info, Labels(p))
  }

  /** Each label of a project's record carries the field its name says. */
  lemma MetricLabels(p: Project)
    ensures Distinct(Metric(p).desc.labelNames)
    ensures LabelValue(Metric(p), "id") == Some(p.id)
    ensures LabelValue(Metric(p), "name") == Some(p.name)
    ensures LabelValue(Metric(p), "organization") == Some(p.organization)
    ensures LabelValue(Metric(p), "description") == Some(p.description)
  {
    var r := Metric(p);
    LabelsByName(r);
    assert r.desc.labelNames[0] == "id";
    assert r.desc.labelNames[1] == "name";
    assert r.desc.labelNames[2] == "organization";
    assert r.desc.labelNames[3] == "description";
  }

  /** Registers the scraper with the package, as the file's `init` does. */
  method Init(list: ScraperList)
    modifies list
    ensures list.scrapers == old(list.scrapers) + [ScrapeProjects]
  {
    list.Append(ScrapeProjects);
  }

  /** Lists one page of an organization's projects and sends one record per project. */
  method ListPage(org: string, page: nat, client: Client<ListResult<Project>>, ch: Conduit)
    returns (err: Option<ScrapeError>)
    modifies client, ch
    ensures var r := Paging.PageRun(org, page, client.respond(org, PageOptions(page)), Metric, ch.accepts, old(ch.attempts));
      && client.requests == old(client.requests) + r.requests
      && ch.sent == old(ch.sent) + r.emitted
      && ch.attempts == r.nextAttempt
      && err == r.err
  {
    err := Paging.ListPage(org, page, client, Metric, ch);
  }

  /** Runs the projects task of every configured organization. */
  method Scrape(orgs: seq<string>, client: Client<ListResult<Project>>, ch: Conduit)
    returns (err: Option<ScrapeError>)
    modifies client, ch
    ensures var g := Paging.Group(orgs, client.respond, Metric, ch.accepts, old(ch.attempts));
      && client.requests == old(client.requests) + g.requests
      && ch.sent == old(ch.sent) + g.emitted
      && ch.attempts == g.nextAttempt
      && (err.None? <==> forall i :: 0 <= i < |g.results| ==> g.results[i].None?)
      && (err.Some? ==> err in g.results)
  {
    err := Paging.ScrapeAll(orgs, client, Metric, ch);
  }
}
