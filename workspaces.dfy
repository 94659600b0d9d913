/**
 * The workspaces scraper: one information record per workspace of every
 * configured organization, fetched page by page.
 */
module Workspaces {
  import opened Collector
  import Strconv
  import Paging

  const Subsystem: string := "workspaces"

  const LabelNames: seq<string> :=
    ["id", "name", "organization", "terraform_version", "created_at", "environment", "current_run",
     "current_run_status", "current_run_created_at", "project", "assessments_enabled", "description",
     "resource_count", "policy_check_failures", "run_failures", "runs_count"]

  const Info: Descriptor := Descriptor(Subsystem, "Information about existing workspaces", LabelNames)

  /** The workspace's current run, as far as the record uses it; `createdAt` is already rendered. */
  datatype CurrentRun = CurrentRun(id: string, status: string, createdAt: string)

  /** A workspace as listed, with its organization's name and its project's id. */
  datatype Workspace = Workspace(
    id: string, name: string, organization: string, terraformVersion: string, createdAt: string,
    environment: string, currentRun: Option<CurrentRun>, project: string, assessmentsEnabled: bool,
    description: string, resourceCount: int, policyCheckFailures: int, runFailures: int, runsCount: int)

  function Name(): string
  {
    Subsystem
  }

  function CurrentRunID(r: Option<CurrentRun>): string
  {
    if r.None? then "na" else r.value.id
  }

  function CurrentRunStatus(r: Option<CurrentRun>): string
  {
    if r.None? then "na" else r.value.status
  }

  function CurrentRunCreatedAt(r: Option<CurrentRun>): string
  {
    if r.None? then "na" else r.value.createdAt
  }

  /** The label values of a workspace's record, in descriptor order. */
  function Labels(w: Workspace): (ls: seq<string>)
    ensures |ls| == |LabelNames|
  {
    [w.id, w.name, w.organization, w.terraformVersion, w.createdAt, w.environment,
     CurrentRunID(w.currentRun), CurrentRunStatus(w.currentRun), CurrentRunCreatedAt(w.currentRun),
     w.project, Strconv.FormatBool(w.assessmentsEnabled), w.description,
     Strconv.Itoa(w.resourceCount), Strconv.Itoa(w.policyCheckFailures),
     Strconv.Itoa(w.runFailures), Strconv.Itoa(w.runsCount)]
  }

  /** The information record of one workspace. */
  function Metric(w: Workspace): (r: Record)
    ensures Conforms(r) && r.desc == Info && r.value == 1
  {
    InfoSample(Info, Labels(w))
  }

  /** No label name occurs twice in the descriptor. */
  lemma LabelNamesDistinct()
    ensures Distinct(LabelNames)
  {
  }

  /** As the descriptor's label names are distinct, each one names exactly the value at its position. */
  lemma MetricByName(w: Workspace)
    ensures forall i :: 0 <= i < |LabelNames| ==> LabelValue(Metric(w), LabelNames[i]) == Some(Labels(w)[i])
  {
    LabelNamesDistinct();
    LabelsByName(Metric(w));
  }

  /** The identifying labels carry the workspace's id and name, its organization's name and its project's id. */
  lemma MetricIdentityLabels(w: Workspace)
    ensures LabelValue(Metric(w), "id") == Some(w.id)
    ensures LabelValue(Metric(w), "name") == Some(w.name)
    ensures LabelValue(Metric(w), "organization") == Some(w.organization)
    ensures LabelValue(Metric(w), "project") == Some(w.project)
  {
    var m := Metric(w);
    MetricByName(w);
    assert m.desc.labelNames[0] == "id";
    assert m.desc.labelNames[1] == "name";
    assert m.desc.labelNames[2] == "organization";
    assert m.desc.labelNames[9] == "project";
  }

  /** The descriptive labels carry the workspace's own strings. */
  lemma MetricDescriptionLabels(w: Workspace)
    ensures LabelValue(Metric(w), "terraform_version") == Some(w.terraformVersion)
    ensures LabelValue(Metric(w), "created_at") == Some(w.createdAt)
    ensures LabelValue(Metric(w), "environment") == Some(w.environment)
    ensures LabelValue(Metric(w), "description") == Some(w.description)
  {
    var m := Metric(w);
    MetricByName(w);
    assert m.desc.labelNames[3] == "terraform_version";
    assert m.desc.labelNames[4] == "created_at";
    assert m.desc.labelNames[5] == "environment";
    assert m.desc.labelNames[11] == "description";
  }

  /** The three current-run labels read "na" without a current run, and the run's fields otherwise. */
  lemma MetricRunLabels(w: Workspace)
    ensures w.currentRun.None? ==>
      && LabelValue(Metric(w), "current_run") == Some("na")
      && LabelValue(Metric(w), "current_run_status") == Some("na")
      && LabelValue(Metric(w), "current_run_created_at") == Some("na")
    ensures w.currentRun.Some? ==>
      && LabelValue(Metric(w), "current_run") == Some(w.currentRun.value.id)
      && LabelValue(Metric(w), "current_run_status") == Some(w.currentRun.value.status)
      && LabelValue(Metric(w), "current_run_created_at") == Some(w.currentRun.value.createdAt)
  {
    var m := Metric(w);
    MetricByName(w);
    assert m.desc.labelNames[6] == "current_run";
    assert m.desc.labelNames[7] == "current_run_status";
    assert m.desc.labelNames[8] == "current_run_created_at";
  }

  /** The flag and the counters are rendered so that they read back as the workspace's values. */
  lemma MetricCounterLabels(w: Workspace)
    ensures var v := LabelValue(Metric(w), "assessments_enabled");
      v.Some? && Strconv.ParseBool(v.value) == Some(w.assessmentsEnabled)
    ensures var v := LabelValue(Metric(w), "resource_count");
      v.Some? && Strconv.ParseInt(v.value) == Some(w.resourceCount)
    ensures var v := LabelValue(Metric(w), "policy_check_failures");
      v.Some? && Strconv.ParseInt(v.value) == Some(w.policyCheckFailures)
    ensures var v := LabelValue(Metric(w), "run_failures");
      v.Some? && Strconv.ParseInt(v.value) == Some(w.runFailures)
    ensures var v := LabelValue(Metric(w), "runs_count");
      v.Some? && Strconv.ParseInt(v.value) == Some(w.runsCount)
  {
    var m := Metric(w);
    MetricByName(w);
    assert m.desc.labelNames[10] == "assessments_enabled";
    assert m.desc.labelNames[12] == "resource_count";
    assert m.desc.labelNames[13] == "policy_check_failures";
    assert m.desc.labelNames[14] == "run_failures";
    assert m.desc.labelNames[15] == "runs_count";
    Strconv.FormatBoolRoundTrip(w.assessmentsEnabled);
    Strconv.ItoaRoundTrip(w.resourceCount);
    Strconv.ItoaRoundTrip(w.policyCheckFailures);
    Strconv.ItoaRoundTrip(w.runFailures);
    Strconv.ItoaRoundTrip(w.runsCount);
  }

  /** Registers the scraper with the package, as the file's `init` does. */
  method Init(list: ScraperList)
    modifies list
    ensures list.scrapers == old(list.scrapers) + [ScrapeWorkspaces]
  {
    list.Append(ScrapeWorkspaces);
  }

  /** Lists one page of an organization's workspaces and sends one record per workspace. */
  method ListPage(org: string, page: nat, client: Client<ListResult<Workspace>>, ch: Conduit)
    returns (err: Option<ScrapeError>)
    modifies client, ch
    ensures var r := Paging.PageRun(org, page, client.respond(org, PageOptions(page)), Metric, ch.accepts, old(ch.attempts));
      && client.requests == old(client.requests) + r.requests
      && ch.sent == old(ch.sent) + r.emitted
      && ch.attempts == r.nextAttempt
      && err == r.err
  {
    err := Paging.ListPage(org, page, client, Metric, ch);
  }

  /** Runs the workspaces task of every configured organization. */
  method Scrape(orgs: seq<string>, client: Client<ListResult<Workspace>>, ch: Conduit)
    returns (err: Option<ScrapeError>)
    modifies client, ch
    ensures var g := Paging.Group(orgs, client.respond, Metric, ch.accepts, old(ch.attempts));
      && client.requests == old(client.requests) + g.requests
      && ch.sent == old(ch.sent) + g.emitted
      && ch.attempts == g.nextAttempt
      && (err.None? <==> forall i :: 0 <= i < |g.results| ==> g.results[i].None?)
      && (err.Some? ==> err in g.results)
  {
    err := Paging.ScrapeAll(orgs, client, Metric, ch);
  }
}
