/**
 * The registry modules scraper: one information record per module of the
 * private registry of every configured organization, fetched page by page.
 */
module RegistryModules {
  import opened Collector
  import Strconv
  import Paging

  const Subsystem: string := "registrymodules"

  const LabelNames: seq<string> :=
    ["id", "name", "provider", "registry_name", "no_code", "status", "created_at", "updated_at", "organization"]

  const Info: Descriptor := Descriptor(Subsystem, "Information about existing registrymodules", LabelNames)

  /** A registry module as listed; its timestamps arrive as strings and are passed on unchanged. */
  datatype RegistryModule = RegistryModule(
    id: string, name: string, provider: string, registryName: string, noCode: bool, status: string,
    createdAt: string, updatedAt: string, organization: string)

  function Name(): string
  {
    Subsystem
  }

  /** The label values of a module's record, in descriptor order. */
  function Labels(m: RegistryModule): (ls: seq<string>)
    ensures |ls| == |LabelNames|
  {
    [m.id, m.name, m.provider, m.registryName, Strconv.FormatBool(m.noCode), m.status,
     m.createdAt, m.updatedAt, m.organization]
  }

  /** The information record of one registry module. */
  function Metric(m: RegistryModule): (r: Record)
    ensures Conforms(r) && r.desc == Info && r.value == 1
  {
    InfoSample(Info, Labels(m))
  }

  /** The descriptor's label names are distinct, so each one names exactly the value at its position. */
  lemma MetricByName(m: RegistryModule)
    ensures Distinct(LabelNames)
    ensures forall i :: 0 <= i < |LabelNames| ==> LabelValue(Metric(m), LabelNames[i]) == Some(Labels(m)[i])
  {
    LabelsByName(Metric(m));
  }

  /** The identifying labels carry the module's id, name, provider, registry and organization name. */
  lemma MetricIdentityLabels(m: RegistryModule)
    ensures LabelValue(Metric(m), "id") == Some(m.id)
    ensures LabelValue(Metric(m), "name") == Some(m.name)
    ensures LabelValue(Metric(m), "provider") == Some(m.provider)
    ensures LabelValue(Metric(m), "registry_name") == Some(m.registryName)
    ensures LabelValue(Metric(m), "organization") == Some(m.organization)
  {
    var r := Metric(m);
    MetricByName(m);
    assert r.desc.labelNames[0] == "id";
    assert r.desc.labelNames[1] == "name";
    assert r.desc.labelNames[2] == "provider";
    assert r.desc.labelNames[3] == "registry_name";
    assert r.desc.labelNames[8] == "organization";
  }

  /** The state labels carry the status and timestamps as listed, and the no-code flag so that it reads back. */
  lemma MetricStateLabels(m: RegistryModule)
    ensures var v := LabelValue(Metric(m), "no_code");
      v.Some? && Strconv.ParseBool(v.value) == Some(m.noCode)
    ensures LabelValue(Metric(m), "status") == Some(m.status)
    ensures LabelValue(Metric(m), "created_at") == Some(m.createdAt)
    ensures LabelValue(Metric(m), "updated_at") == Some(m.updatedAt)
  {
    var r := Metric(m);
    MetricByName(m);
    assert r.desc.labelNames[4] == "no_code";
    assert r.desc.labelNames[5] == "status";
    assert r.desc.labelNames[6] == "created_at";
    assert r.desc.labelNames[7] == "updated_at";
    Strconv.FormatBoolRoundTrip(m.noCode);
  }

  /** Registers the scraper with the package, as the file's `init` does. */
  method Init(list: ScraperList)
    modifies list
    ensures list.scrapers == old(list.scrapers) + [ScrapeRegistryModules]
  {
    list.Append(ScrapeRegistryModules);
  }

  /** Lists one page of an organization's registry modules and sends one record per module. */
  method ListPage(org: string, page: nat, client: Client<ListResult<RegistryModule>>, ch: Conduit)
    returns (err: Option<ScrapeError>)
    modifies client, ch
    ensures var r := Paging.PageRun(org, page, client.respond(org, PageOptions(page)), Metric, ch.accepts, old(ch.attempts));
      && client.requests == old(client.requests) + r.requests
      && ch.sent == old(ch.sent) + r.emitted
      && ch.attempts == r.nextAttempt
      && err == r.err
  {
    err := Paging.ListPage(org, page, client, Metric, ch);
  }

  /** Runs the registry modules task of every configured organization. */
  method Scrape(orgs: seq<string>, client: Client<ListResult<RegistryModule>>, ch: Conduit)
    returns (err: Option<ScrapeError>)
    modifies client, ch
    ensures var g := Paging.Group(orgs, client.respond, Metric, ch.accepts, old(ch.attempts));
      && client.requests == old(client.requests) + g.requests
      && ch.sent == old(ch.sent) + g.emitted
      && ch.attempts == g.nextAttempt
      && (err.None? <==> forall i :: 0 <= i < |g.results| ==> g.results[i].None?)
      && (err.Some? ==> err in g.results)
  {
    err := Paging.ScrapeAll(orgs, client, Metric, ch);
  }
}
