/**
 * The policy sets scraper: one information record per policy set of every
 * configured organization, fetched page by page.
 */
module PolicySets {
  import opened Collector
  import Strconv
  import Paging

  const Subsystem: string := "policysets"

  const LabelNames: seq<string> :=
    ["id", "name", "description", "kind", "global", "policy_count", "workspace_count", "project_count",
     "created_at", "updated_at", "organization"]

  const Info: Descriptor := Descriptor(Subsystem, "Information about existing policysets", LabelNames)

  /** A policy set as listed, with its organization's name; its timestamps are already rendered. */
  datatype PolicySet = PolicySet(
    id: string, name: string, description: string, kind: string, global: bool, policyCount: int,
    workspaceCount: int, projectCount: int, createdAt: string, updatedAt: string, organization: string)

  function Name(): string
  {
    Subsystem
  }

  /** The label values of a policy set's record, in descriptor order. */
  function Labels(p: PolicySet): (ls: seq<string>)
    ensures |ls| == |LabelNames|
  {
    [p.id, p.name, p.description, p.kind, Strconv.FormatBool(p.global), Strconv.Itoa(p.policyCount),
     Strconv.Itoa(p.workspaceCount), Strconv.Itoa(p.projectCount), p.createdAt, p.updatedAt, p.organization]
  }

  /** The information record of one policy set. */
  function Metric(p: PolicySet): (r: Record)
    ensures Conforms(r) && r.desc == Info && r.value == 1
  {
    InfoSample(Info, Labels(p))
  }

  /** The descriptor's label names are distinct, so each one names exactly the value at its position. */
  lemma MetricByName(p: PolicySet)
    ensures Distinct(LabelNames)
    ensures forall i :: 0 <= i < |LabelNames| ==> LabelValue(Metric(p), LabelNames[i]) == Some(Labels(p)[i])
  {
    LabelsByName(Metric(p));
  }

  /** The identifying and descriptive labels carry the policy set's own strings and its organization's name. */
  lemma MetricIdentityLabels(p: PolicySet)
    ensures LabelValue(Metric(p), "id") == Some(p.id)
    ensures LabelValue(Metric(p), "name") == Some(p.name)
    ensures LabelValue(Metric(p), "description") == Some(p.description)
    ensures LabelValue(Metric(p), "kind") == Some(p.kind)
    ensures LabelValue(Metric(p), "created_at") == Some(p.createdAt)
    ensures LabelValue(Metric(p), "updated_at") == Some(p.updatedAt)
    ensures LabelValue(Metric(p), "organization") == Some(p.organization)
  {
    var r := Metric(p);
    MetricByName(p);
    assert r.desc.labelNames[0] == "id";
    assert r.desc.labelNames[1] == "name";
    assert r.desc.labelNames[2] == "description";
    assert r.desc.labelNames[3] == "kind";
    assert r.desc.labelNames[8] == "created_at";
    assert r.desc.labelNames[9] == "updated_at";
    assert r.desc.labelNames[10] == "organization";
  }

  /** The global flag and the three counters are rendered so that they read back as the policy set's values. */
  lemma MetricCounterLabels(p: PolicySet)
    ensures var v := LabelValue(Metric(p), "global");
      v.Some? && Strconv.ParseBool(v.value) == Some(p.global)
    ensures var v := LabelValue(Metric(p), "policy_count");
      v.Some? && Strconv.ParseInt(v.value) == Some(p.policyCount)
    ensures var v := LabelValue(Metric(p), "workspace_count");
      v.Some? && Strconv.ParseInt(v.value) == Some(p.workspaceCount)
    ensures var v := LabelValue(Metric(p), "project_count");
      v.Some? && Strconv.ParseInt(v.value) == Some(p.projectCount)
  {
    var r := Metric(p);
    MetricByName(p);
    assert r.desc.labelNames[4] == "global";
    assert r.desc.labelNames[5] == "policy_count";
    assert r.desc.labelNames[6] == "workspace_count";
    assert r.desc.labelNames[7] == "project_count";
    Strconv.FormatBoolRoundTrip(p.global);
    Strconv.ItoaRoundTrip(p.policyCount);
    Strconv.ItoaRoundTrip(p.workspaceCount);
    Strconv.ItoaRoundTrip(p.projectCount);
  }

  /** Registers the scraper with the package, as the file's `init` does. */
  method Init(list: ScraperList)
    modifies list
    ensures list.scrapers == old(list.scrapers) + [ScrapePolicySets]
  {
    list.Append(ScrapePolicySets);
  }

  /** Lists one page of an organization's policy sets and sends one record per policy set. */
  method ListPage(org: string, page: nat, client: Client<ListResult<PolicySet>>, ch: Conduit)
    returns (err: Option<ScrapeError>)
    modifies client, ch
    ensures var r := Paging.PageRun(org, page, client.respond(org, PageOptions(page)), Metric, ch.accepts, old(ch.attempts));
      && client.requests == old(client.requests) + r.requests
      && ch.sent == old(ch.sent) + r.emitted
      && ch.attempts == r.nextAttempt
      && err == r.err
  {
    err := Paging.ListPage(org, page, client, Metric, ch);
  }

  /** Runs the policy sets task of every configured organization. */
  method Scrape(orgs: seq<string>, client: Client<ListResult<PolicySet>>, ch: Conduit)
    returns (err: Option<ScrapeError>)
    modifies client, ch
    ensures var g := Paging.Group(orgs, client.respond, Metric, ch.accepts, old(ch.attempts));
      && client.requests == old(client.requests) + g.requests
      && ch.sent == old(ch.sent) + g.emitted
      && ch.attempts == g.nextAttempt
      && (err.None? <==> forall i :: 0 <= i < |g.results| ==> g.results[i].None?)
      && (err.Some? ==> err in g.results)
  {
    err := Paging.ScrapeAll(orgs, client, Metric, ch);
  }
}
