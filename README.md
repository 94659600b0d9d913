# TFBI collector, modelled in Dafny

TFBI is a Prometheus exporter for Terraform Cloud / Terraform Enterprise. This
project models its collector package: five scrapers (workspaces, registry
modules, policy sets, projects, teams). Each scraper lists one kind of
resource for every configured organization through the remote API client. It
turns each listed resource into one constant gauge sample of value 1 (an
"info" record) whose label values follow the scraper's descriptor. It sends
each sample on the metric channel; each send races the context being done, and
losing that race ends the page with the context error.

The model is organised as the package is:

- `Collector` (collector.dfy) holds the shared vocabulary:
  - list options (page size 100, optional page number) and requests;
  - the three errors a task can return: the first call failed (organization), a page failed (organization and page), or the context is done;
  - descriptors, records and label lookup by name;
  - the channel (`Conduit`), whose `accepts` oracle decides for each send attempt whether the send or `ctx.Done()` wins the `select`;
  - the API client (`Client`), whose `respond` oracle answers each request and whose request log records every call;
  - the package-wide scraper list.
- `Strconv` (strconv.dfy) holds `strconv.FormatBool` and `strconv.Itoa` as the records use them, each with a parser that inverts it.
- `Paging` (paging.dfy) holds the task that the four paginated scrapers share. The four Go files are identical here up to the item type, the record builder and the `Include` options of the workspaces request, so it is written once, generic in the item type and the record builder. The task makes:
  1. a first list call with the page size and no page number, to learn `TotalPages`;
  2. then calls for pages 1..TotalPages in ascending order, one record sent per item;
  3. and it stops at the first failed call or the first refused send.

  It is specified by functions (`PageRun`, `PagesFrom`, `Task`, `Group`) and implemented by methods whose loops are proved against them (`ListPage`, `ScrapeOrganization`, `ScrapeAll`).
- `Workspaces`, `RegistryModules`, `PolicySets` and `Projects` each hold their scraper's record builder and its label properties, plus the `init` registration and the `ListPage` / `Scrape` entry points, which instantiate `Paging`.
- `Teams` (teams.dfy) holds the teams scraper, which is different:
  - it makes one unpaginated list call;
  - it stops with success at the first nil entry;
  - it checks the call's error only after the loop;
  - a missing list is dereferenced, which is modelled as an explicit `NilDereference` outcome.
- `Registry` (registry.dfy) holds the package initialisation: every file's `init` runs in file-name order, and each scraper's `Name` is unique.

`errgroup` is modelled as a sequential loop that runs every organization's task. Its result is "no error" exactly when no task reported one, and otherwise one of the reported errors.

The first call of a paginated task sets no page number. The server answers it with page 1, and the loop then requests page 1 again explicitly. The model follows this code (`TaskRequestOrder` states the doubled page 1), not a reading in which the first call is itself page 1.

## Model

| member | source | states |
|---|---|---|
| Collector.PageOptions | internal/collector/workspaces.go:56-60 | a page request carries the page size 100 and the page number, so it never equals the unnumbered first request |
| Collector.InfoSample | internal/collector/workspaces.go:73-76 | a sample built with as many values as the descriptor has labels conforms to it and has value 1 |
| Collector.LabelsByName | internal/collector/workspaces.go:26-30 | with distinct label names, looking a label up by its name yields the value at that name's position |
| Collector.Delivered | internal/collector/workspaces.go:71-97 | the number of sends delivered before the first refused one is at most the number of items, and if some item is not delivered, the next attempt is refused |
| Collector.DeliveredAllAccepted | internal/collector/workspaces.go:71-97 | every attempt counted as delivered was accepted |
| Collector.DeliveredExactly | internal/collector/workspaces.go:71-97 | i accepted attempts followed by a refused one (or by the end of the items) means exactly i delivered |
| Collector.Build | internal/collector/workspaces.go:71-97 | one record per listed item |
| Collector.Conduit.Send | internal/collector/workspaces.go:72-96 | a send either delivers the record (appends it) or sees the context done (sends nothing); either way, one attempt is used |
| Collector.Client.List | internal/collector/workspaces.go:56-66 | each call is logged in order and answered by the oracle for that request |
| Collector.ScraperList.Append | internal/collector/workspaces.go:37 | appending adds exactly one scraper at the end |
| Strconv.FormatBool | internal/collector/workspaces.go:87 | "true" or "false"; FormatBoolRoundTrip proves ParseBool inverts it |
| Strconv.FormatBoolRoundTrip | internal/collector/workspaces.go:87 | FormatBool yields "true" or "false", and that string parses back to the boolean |
| Strconv.NatDigits | internal/collector/workspaces.go:89-92 | a decimal rendering is non-empty, all digits, and has no leading zero |
| Strconv.Itoa | internal/collector/workspaces.go:89-92 | the rendering is non-empty and starts with '-' exactly for negative numbers |
| Strconv.DigitsRoundTrip | internal/collector/workspaces.go:89-92 | the digits of n read back as n |
| Strconv.ItoaRoundTrip | internal/collector/workspaces.go:89-92 | Itoa is invertible: ParseInt(Itoa(n)) == n for every integer |
| Paging.PageRun | internal/collector/workspaces.go:55-100 | one page: the numbered list call, then one send per item until a send is refused; characterised by PageRunOutcome, and the ListPage method is proved equal to it |
| Paging.PageRunOutcome | internal/collector/workspaces.go:55-100 | one page makes one call. A failed call sends nothing and reports the organization and page. Otherwise the records are sent in order: all of them on success; a strict prefix when a send is refused, which ends the page with the context error. Success holds iff the call succeeds and every send is accepted |
| Paging.PagesFrom | internal/collector/workspaces.go:117-121 | a run of pages fails only with the context error or a page failure |
| Paging.PagesLoopComposes | internal/collector/workspaces.go:117-121 | the page loop, started from any progress, adds exactly the calls, records and attempts of PagesFrom |
| Paging.TaskComposes | internal/collector/workspaces.go:107-124 | after a successful first call, the loop over pages 1..TotalPages performs the task's remaining calls and sends |
| Paging.PagesRequestsAscending | internal/collector/workspaces.go:117-121 | pages are requested in ascending order from the first one, each with page size 100 |
| Paging.PagesRequestCount | internal/collector/workspaces.go:117-121 | there is one call per page: all of them on success, and on failure at least one and never past TotalPages |
| Paging.PagesSuccess | internal/collector/workspaces.go:117-121 | the pages succeed iff every page is listed and every send is accepted; then every record of every page is sent, in order |
| Paging.PagesFailure | internal/collector/workspaces.go:67-69 | a page failure names the organization and the failed page k. Page k is the last call. The pages before k were all listed and sent whole |
| Paging.PagesCancelled | internal/collector/workspaces.go:94-95 | a refused send ends the run on the last page requested. All pages up to it were listed, and the refused attempt is the last one |
| Paging.PagesCancelledSent | internal/collector/workspaces.go:94-95 | on a refused send during page k, the pages before k were sent whole and page k only as a strict prefix |
| Paging.PagesEmittedPrefix | internal/collector/workspaces.go:117-121 | whatever happens, what was sent is a prefix of the complete listing's records |
| Paging.Task | internal/collector/workspaces.go:107-124 | one organization's task: the unnumbered first call, then pages 1..TotalPages, stopping at the first error; characterised by TaskInitialFailure, TaskRequestOrder, TaskEmptyListing, TaskSuccess, TaskPageFailure, TaskCancelled and TaskEmittedPrefix, and the ScrapeOrganization method is proved equal to it |
| Paging.TaskInitialFailure | internal/collector/workspaces.go:113-115 | a failed first call reports the organization only, sends nothing and requests no page |
| Paging.TaskRequestOrder | internal/collector/workspaces.go:108-121 | the first call has no page number; then pages 1, 2, ... follow in order, never past TotalPages, and all of them on success; a task failing after its first call requested at least one page; every call has page size 100 |
| Paging.TaskEmptyListing | internal/collector/workspaces.go:117 | a TotalPages of zero or less means no page is requested and nothing is sent: success |
| Paging.TaskSuccess | internal/collector/workspaces.go:107-124 | the task succeeds iff pages 1..TotalPages are all listed and every send is accepted; then every item of every page is sent, in page order |
| Paging.TaskPageFailure | internal/collector/workspaces.go:117-121 | a failure of page k names the organization and k. The call for page k was the last one. Pages 1..k-1 were all listed and sent whole |
| Paging.TaskCancelled | internal/collector/workspaces.go:94-95 | a refused send during page k ends the task with the context error. Pages before k were sent whole, page k only in part, and no attempt follows the refused one |
| Paging.TaskEmittedPrefix | internal/collector/workspaces.go:107-124 | what a task sends is always a prefix of the full listing's records |
| Paging.ListPage | internal/collector/workspaces.go:55-100 | the method's calls, sends, attempts and error are exactly those of PageRun |
| Paging.ScrapeOrganization | internal/collector/workspaces.go:107-124 | the method's calls, sends, attempts and error are exactly those of Task |
| Paging.Group | internal/collector/workspaces.go:104-127 | every organization's task in order, collecting each task's result; characterised by GroupAttribution, and ScrapeAll is proved to match it |
| Paging.GroupLoopComposes | internal/collector/workspaces.go:105-125 | the loop over organizations adds exactly the calls, records and results of Group |
| Paging.GroupAttribution | internal/collector/workspaces.go:105-125 | every organization gets one task, and every non-context error names that task's own organization |
| Paging.ScrapeAll | internal/collector/workspaces.go:103-128 | the state matches Group; the result is no error iff no task failed; otherwise it is one of the tasks' errors |
| Workspaces.Labels | internal/collector/workspaces.go:77-92 | one label value per descriptor label |
| Workspaces.Metric | internal/collector/workspaces.go:73-93 | a workspace's record uses the workspaces descriptor, conforms to it, and has value 1 |
| Workspaces.LabelNamesDistinct | internal/collector/workspaces.go:29 | the sixteen label names are distinct |
| Workspaces.MetricByName | internal/collector/workspaces.go:29-92 | each label name carries the value at its position in the descriptor |
| Workspaces.MetricIdentityLabels | internal/collector/workspaces.go:77-86 | id, name, organization and project carry the workspace's fields |
| Workspaces.MetricDescriptionLabels | internal/collector/workspaces.go:80-88 | terraform_version, created_at, environment and description carry the workspace's fields |
| Workspaces.CurrentRunID | internal/collector/workspaces.go:130-136 | "na" without a current run, else its id; MetricRunLabels states it for the record |
| Workspaces.CurrentRunStatus | internal/collector/workspaces.go:138-144 | "na" without a current run, else its status; MetricRunLabels states it for the record |
| Workspaces.CurrentRunCreatedAt | internal/collector/workspaces.go:146-152 | "na" without a current run, else its creation time; MetricRunLabels states it for the record |
| Workspaces.MetricRunLabels | internal/collector/workspaces.go:130-152 | without a current run, the three current_run labels are "na"; with one, they are its id, status and creation time |
| Workspaces.MetricCounterLabels | internal/collector/workspaces.go:87-92 | assessments_enabled parses back to the flag; the four counters parse back to their integers |
| Workspaces.Name | internal/collector/workspaces.go:40-43 | the scraper's name is its subsystem, "workspaces"; Registry.NamesUnique proves the five names distinct |
| Workspaces.Init | internal/collector/workspaces.go:36-38 | init appends the workspaces scraper once |
| Workspaces.ListPage | internal/collector/workspaces.go:55-100 | fetching one workspaces page does what PageRun specifies with the workspace record builder |
| Workspaces.Scrape | internal/collector/workspaces.go:103-128 | the scrape does what Group specifies with the workspace builder; no error iff no organization's task failed |
| RegistryModules.Labels | internal/collector/registrymodules.go:71-79 | one label value per descriptor label |
| RegistryModules.Metric | internal/collector/registrymodules.go:67-80 | a module's record uses the registry modules descriptor, conforms to it, and has value 1 |
| RegistryModules.MetricByName | internal/collector/registrymodules.go:25-79 | the nine label names are distinct, and each carries the value at its position |
| RegistryModules.MetricIdentityLabels | internal/collector/registrymodules.go:71-79 | id, name, provider, registry_name and organization carry the module's fields |
| RegistryModules.MetricStateLabels | internal/collector/registrymodules.go:75-78 | no_code parses back to the flag; status, created_at and updated_at carry the module's fields |
| RegistryModules.Name | internal/collector/registrymodules.go:36-39 | the scraper's name is its subsystem, "registrymodules"; Registry.NamesUnique proves the five names distinct |
| RegistryModules.Init | internal/collector/registrymodules.go:32-34 | init appends the registry modules scraper once |
| RegistryModules.ListPage | internal/collector/registrymodules.go:53-87 | fetching one page does what PageRun specifies with the module record builder |
| RegistryModules.Scrape | internal/collector/registrymodules.go:89-114 | the scrape does what Group specifies; no error iff no organization's task failed |
| PolicySets.Labels | internal/collector/policysets.go:69-79 | one label value per descriptor label |
| PolicySets.Metric | internal/collector/policysets.go:65-80 | a policy set's record uses the policy sets descriptor, conforms to it, and has value 1 |
| PolicySets.MetricByName | internal/collector/policysets.go:25-79 | the eleven label names are distinct, and each carries the value at its position |
| PolicySets.MetricIdentityLabels | internal/collector/policysets.go:69-79 | id, name, description, kind, created_at, updated_at and organization carry the policy set's fields |
| PolicySets.MetricCounterLabels | internal/collector/policysets.go:73-76 | global parses back to the flag; policy_count, workspace_count and project_count parse back to their integers |
| PolicySets.Name | internal/collector/policysets.go:36-39 | the scraper's name is its subsystem, "policysets"; Registry.NamesUnique proves the five names distinct |
| PolicySets.Init | internal/collector/policysets.go:32-34 | init appends the policy sets scraper once |
| PolicySets.ListPage | internal/collector/policysets.go:51-87 | fetching one page does what PageRun specifies with the policy set record builder |
| PolicySets.Scrape | internal/collector/policysets.go:89-114 | the scrape does what Group specifies; no error iff no organization's task failed |
| Projects.Labels | internal/collector/projects.go:68-71 | one label value per descriptor label |
| Projects.Metric | internal/collector/projects.go:64-72 | a project's record uses the projects descriptor, conforms to it, and has value 1 |
| Projects.MetricLabels | internal/collector/projects.go:24-71 | the four label names are distinct; id, name, organization and description carry the project's fields |
| Projects.Name | internal/collector/projects.go:35-38 | the scraper's name is its subsystem, "projects"; Registry.NamesUnique proves the five names distinct |
| Projects.Init | internal/collector/projects.go:31-33 | init appends the projects scraper once |
| Projects.ListPage | internal/collector/projects.go:50-79 | fetching one page does what PageRun specifies with the project record builder |
| Projects.Scrape | internal/collector/projects.go:81-106 | the scrape does what Group specifies; no error iff no organization's task failed |
| Teams.Labels | internal/collector/teams.go:72-75 | one label value per descriptor label |
| Teams.Metric | internal/collector/teams.go:68-76 | a team's record uses the teams descriptor, conforms to it, and has value 1 |
| Teams.MetricLabels | internal/collector/teams.go:26-75 | the four label names are distinct; id, name and sso_team_id carry the team's fields; users_count parses back to the count |
| Teams.Name | internal/collector/teams.go:37-40 | the scraper's name is its subsystem, "teams"; Registry.NamesUnique proves the five names distinct |
| Teams.Init | internal/collector/teams.go:33-35 | init appends the teams scraper once |
| Teams.Items | internal/collector/teams.go:61-85 | the entry loop and the late error check; characterised by ItemsNeverDereference, ItemsSent, ItemsAttempts and ItemsOutcome |
| Teams.Task | internal/collector/teams.go:55-86 | one organization's teams task: a missing list is dereferenced, otherwise the entry loop runs; characterised by TaskNilList, and ScrapeOrganization is proved equal to it |
| Teams.TaskNilList | internal/collector/teams.go:56-61 | the task dereferences a missing list iff the response has no list, and then it sends nothing |
| Teams.ItemsNeverDereference | internal/collector/teams.go:61-85 | with a list present, the task always returns |
| Teams.ItemsSent | internal/collector/teams.go:61-80 | the task sends the records of the teams before the first nil entry, in order, up to the first refused send |
| Teams.ItemsAttempts | internal/collector/teams.go:67-79 | one attempt per team sent, plus one for a refused send |
| Teams.ItemsOutcome | internal/collector/teams.go:61-85 | a refused send returns the context error. A nil entry returns success even when the call failed. Only after the whole list is sent is the call's error returned, with the organization |
| Teams.ItemsLoopComposes | internal/collector/teams.go:61-80 | the entry loop, started from any records sent, adds exactly the sends of Items |
| Teams.ScrapeOrganization | internal/collector/teams.go:55-86 | the method makes one call without paging options; its sends, attempts and outcome are exactly those of Task |
| Teams.GroupRequests | internal/collector/teams.go:54-60 | organizations are served in order, with one call each and no paging options |
| Teams.GroupShape | internal/collector/teams.go:54-88 | every organization gets a task unless a missing list is dereferenced; that outcome can only be the last one |
| Teams.GroupAttribution | internal/collector/teams.go:77-83 | every error is the context error, or a failure of that organization's own call, naming it |
| Teams.Group | internal/collector/teams.go:53-89 | every organization's teams task in order, ending at a dereference; characterised by GroupRequests, GroupShape and GroupAttribution, and Teams.Scrape is proved to match it |
| Teams.GroupLoopComposes | internal/collector/teams.go:54-88 | the loop over organizations adds exactly the calls, records and outcomes of Group |
| Teams.Scrape | internal/collector/teams.go:52-90 | the state matches Group. The result is a dereference iff some task dereferenced. It is success iff every task succeeded, and otherwise one of the tasks' errors |
| Registry.NameOf | internal/collector/teams.go:37-40 | the name each scraper type reports through its `Name` method; NamesUnique proves it injective |
| Registry.NamesUnique | internal/collector/teams.go:37-40 | two scrapers have the same name iff they are the same scraper |
| Registry.RegisteredOnce | internal/collector/teams.go:33-35 | the registration list holds every scraper type exactly once, and the registered names are distinct |
| Registry.InitPackage | internal/collector/policysets.go:32-34 | the package's init functions append the five scrapers in file-name order |

## Left out

- Concurrency of `errgroup`: the organizations' tasks run one after the other here. The context that `errgroup.WithContext` cancels when one task fails is modelled only through the `accepts` oracle. Which error `g.Wait` returns when several tasks fail is left open (the contract says only that it is one of them).
- The remote API client is an oracle: the answer to a call depends only on the organization and the paging options. Network behaviour, retries and rate limits are not modelled, and neither are the `Include` options of the workspaces and teams requests.
- The Prometheus library: the fully-qualified metric name (namespace, subsystem, "info"), the float gauge value (always 1 here), and the channel's buffering are not modelled. A label count that differs from the descriptor's would make `MustNewConstMetric` panic; here it is ruled out by the precondition of `InfoSample`.
- Time values (`CreatedAt.String()`, `UpdatedAt.String()`, the current run's creation time) are taken as already-rendered strings.
- `Help` and `Version` of each scraper return constant strings that nothing else uses.
- The configuration (`setup.Config`) is reduced to the list of organizations and the client.
- Paging.PageRun, Paging.Task, Paging.ListPage, Paging.ScrapeOrganization: the nil-pointer panics of the paginated scrapers are outside the model. A listed page is a plain sequence of items with a page count, so a nil entry in `Items` (a panic at `w.ID`, workspaces.go:77, and at registrymodules.go:71, policysets.go:69, projects.go:68) and a nil list or nil `Pagination` returned without an error (a panic at `.Pagination.TotalPages`, workspaces.go:117, registrymodules.go:103, policysets.go:103, projects.go:95) cannot be expressed; the teams model expresses its own nil list and nil entries explicitly.
- Nil `Organization` and `Project` pointers are not modelled. Each resource carries its organization's name and its project's id as plain strings, so the nil-pointer panics these fields could cause are outside the model.
- The `name := name` copy in the paginated `Scrape` loops (workspaces.go:106 and its three siblings) is not modelled, because the tasks run sequentially. The teams loop (teams.go:54-55) has no such copy; under Go before 1.22 every teams task would then list the last organization. The model gives each teams task its own organization, as Go 1.22 and later do, and leaves the older behaviour out.
- Teams.Scrape: only the first page of teams is listed, as in the source (no page options are set). A panic from a missing list is modelled as the `NilDereference` outcome, which ends the run of the remaining organizations. The process crash itself is not modelled.
- Integer widths: `Itoa` takes Go's `int`, modelled as an unbounded integer. The rendering is the same for every value that fits.
