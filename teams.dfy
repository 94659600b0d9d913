/**
 * The teams scraper: a single, unpaginated list call per organization, and
 * one information record per team until the first missing entry. Unlike the
 * paginated scrapers, the call's error is only looked at after the items have
 * been sent, and a response without a list is dereferenced anyway.
 */
module Teams {
  import opened Collector
  import Strconv

  const Subsystem: string := "teams"

  const LabelNames: seq<string> := ["id", "name", "sso_team_id", "users_count"]

  const Info: Descriptor := Descriptor(Subsystem, "Information about existing teams", LabelNames)

  /** The one request a teams task makes: no page size and no page number. */
  const TeamsOptions: ListOptions := ListOptions(None, None)

  datatype Team = Team(id: string, name: string, ssoTeamId: string, userCount: int)

  /**
   * What the teams list call returns: the list, which may be missing, whose
   * entries may each be missing, and the call's error, if any.
   */
  datatype TeamList = TeamList(items: Option<seq<Option<Team>>>, err: Option<Cause>)

  /** How a teams task ends: it returns (with or without an error), or it dereferences a missing list. */
  datatype Outcome = Returned(err: Option<ScrapeError>) | NilDereference

  /** What a teams task did: records delivered, next send attempt, and how it ended. */
  datatype TeamsRun = TeamsRun(emitted: seq<Record>, nextAttempt: nat, outcome: Outcome)

  function Name(): string
  {
    Subsystem
  }

  /** The label values of a team's record, in descriptor order. */
  function Labels(t: Team): (ls: seq<string>)
    ensures |ls| == |LabelNames|
  {
    [t.id, t.name, t.ssoTeamId, Strconv.Itoa(t.userCount)]
  }

  /** The information record of one team. */
  function Metric(t: Team): (r: Record)
    ensures Conforms(r) && r.desc == Info && r.value == 1
  {
    InfoSample(Info, Labels(t))
  }

  /** Each label of a team's record carries the field its name says; the user count reads back. */
  lemma MetricLabels(t: Team)
    ensures Distinct(Metric(t).desc.labelNames)
    ensures LabelValue(Metric(t), "id") == Some(t.id)
    ensures LabelValue(Metric(t), "name") == Some(t.name)
    ensures LabelValue(Metric(t), "sso_team_id") == Some(t.ssoTeamId)
    ensures var v := LabelValue(Metric(t), "users_count");
      v.Some? && Strconv.ParseInt(v.value) == Some(t.userCount)
  {
    var r := Metric(t);
    LabelsByName(r);
    assert r.desc.labelNames[0] == "id";
    assert r.desc.labelNames[1] == "name";
    assert r.desc.labelNames[2] == "sso_team_id";
    assert r.desc.labelNames[3] == "users_count";
    Strconv.ItoaRoundTrip(t.userCount);
  }

  /** Registers the scraper with the package, as the file's `init` does. */
  method Init(list: ScraperList)
    modifies list
    ensures list.scrapers == old(list.scrapers) + [ScrapeTeams]
  {
    list.Append(ScrapeTeams);
  }

  // ---------------------------------------------------------------------------
  // One organization's task

  /** The loop over the listed entries: stop with success at a missing entry, else send; then check the error. */
  function Items(org: string, items: seq<Option<Team>>, err: Option<Cause>, accepts: nat -> bool, a: nat): TeamsRun
    decreases |items|
  {
    if items == [] then
      TeamsRun([], a, Returned(if err.Some? then Some(OrgFailure(org, err.value)) else None))
    else if items[0].None? then TeamsRun([], a, Returned(None))
    else if !accepts(a) then TeamsRun([], a + 1, Returned(Some(ContextDone)))
    else
      var rest := Items(org, items[1..], err, accepts, a + 1);
      TeamsRun([Metric(items[0].value)] + rest.emitted, rest.nextAttempt, rest.outcome)
  }

  /** One organization's task, given the response to its single list call. */
  function Task(org: string, response: TeamList, accepts: nat -> bool, a: nat): TeamsRun
  {
    match response.items
    case None => TeamsRun([], a, NilDereference)
    case Some(items) => Items(org, items, response.err, accepts, a)
  }

  /** The teams listed before the first missing entry. */
  function Present(items: seq<Option<Team>>): (ts: seq<Team>)
    ensures |ts| <= |items|
    decreases |items|
  {
    if items == [] || items[0].None? then [] else [items[0].value] + Present(items[1..])
  }

  /** A response without a list is dereferenced: the task sends nothing and does not return. */
  lemma TaskNilList(org: string, response: TeamList, accepts: nat -> bool, a: nat)
    ensures var r := Task(org, response, accepts, a);
      (r.outcome == NilDereference) <==> response.items.None?
    ensures response.items.None? ==> Task(org, response, accepts, a).emitted == []
  {
    if response.items.Some? {
      ItemsNeverDereference(org, response.items.value, response.err, accepts, a);
    }
  }

  lemma {:induction false} ItemsNeverDereference(org: string, items: seq<Option<Team>>, err: Option<Cause>,
                                                 accepts: nat -> bool, a: nat)
    ensures Items(org, items, err, accepts, a).outcome.Returned?
    decreases |items|
  {
    if items != [] && items[0].Some? && accepts(a) {
      ItemsNeverDereference(org, items[1..], err, accepts, a + 1);
    }
  }

  /**
   * What the teams task sends, in closed form: of the teams before the first
   * missing entry, those whose sends are accepted, in order.
   */
  lemma {:induction false} ItemsSent(org: string, items: seq<Option<Team>>, err: Option<Cause>,
                                     accepts: nat -> bool, a: nat)
    ensures var present := Present(items);
      Items(org, items, err, accepts, a).emitted == Build(Metric, present[..Delivered(accepts, a, |present|)])
    decreases |items|
  {
    if items != [] && items[0].Some? {
      var t := items[0].value;
      var rest := Present(items[1..]);
      assert Present(items) == [t] + rest;
      if accepts(a) {
        ItemsSent(org, items[1..], err, accepts, a + 1);
        var k' := Delivered(accepts, a + 1, |rest|);
        assert Delivered(accepts, a, |Present(items)|) == k' + 1;
        assert Items(org, items, err, accepts, a).emitted == [Metric(t)] + Items(org, items[1..], err, accepts, a + 1).emitted;
        assert Present(items)[..k' + 1] == [t] + rest[..k'];
        BuildCons(Metric, t, rest[..k']);
      } else {
        assert Present(items)[..0] == [];
      }
    }
  }

  /** A refused send uses up one more attempt than were delivered. */
  lemma {:induction false} ItemsAttempts(org: string, items: seq<Option<Team>>, err: Option<Cause>,
                                         accepts: nat -> bool, a: nat)
    ensures var n := |Present(items)|;
      var k := Delivered(accepts, a, n);
      Items(org, items, err, accepts, a).nextAttempt == if k < n then a + k + 1 else a + k
    decreases |items|
  {
    if items != [] && items[0].Some? {
      assert |Present(items)| == 1 + |Present(items[1..])|;
      if accepts(a) {
        ItemsAttempts(org, items[1..], err, accepts, a + 1);
      }
    }
  }

  /**
   * How the teams task ends: a refused send ends it with the context error; a
   * missing entry ends it with success even if the call failed; only after
   * the whole list is sent is the call's error reported, with the
   * organization.
   */
  lemma {:induction false} ItemsOutcome(org: string, items: seq<Option<Team>>, err: Option<Cause>,
                                        accepts: nat -> bool, a: nat)
    ensures var r := Items(org, items, err, accepts, a);
      var n := |Present(items)|;
      var k := Delivered(accepts, a, n);
      && (k < n ==> r.outcome == Returned(Some(ContextDone)))
      && (k == n < |items| ==> r.outcome == Returned(None))
      && (k == n == |items| ==> r.outcome == Returned(if err.Some? then Some(OrgFailure(org, err.value)) else None))
    decreases |items|
  {
    if items != [] && items[0].Some? {
      assert |Present(items)| == 1 + |Present(items[1..])|;
      if accepts(a) {
        ItemsOutcome(org, items[1..], err, accepts, a + 1);
      }
    }
  }

  /** The entry loop as the task runs it, carrying the records sent so far. */
  function ItemsLoop(org: string, items: seq<Option<Team>>, err: Option<Cause>, accepts: nat -> bool,
                     sent: seq<Record>, a: nat): TeamsRun
    decreases |items|
  {
    if items == [] then
      TeamsRun(sent, a, Returned(if err.Some? then Some(OrgFailure(org, err.value)) else None))
    else if items[0].None? then TeamsRun(sent, a, Returned(None))
    else if !accepts(a) then TeamsRun(sent, a + 1, Returned(Some(ContextDone)))
    else ItemsLoop(org, items[1..], err, accepts, sent + [Metric(items[0].value)], a + 1)
  }

  /** Running the loop after `sent` adds exactly what Items describes. */
  lemma {:induction false} ItemsLoopComposes(org: string, items: seq<Option<Team>>, err: Option<Cause>,
                                             accepts: nat -> bool, sent: seq<Record>, a: nat)
    ensures var r := Items(org, items, err, accepts, a);
      ItemsLoop(org, items, err, accepts, sent, a) == TeamsRun(sent + r.emitted, r.nextAttempt, r.outcome)
    decreases |items|
  {
    if items == [] || items[0].None? || !accepts(a) {
      assert sent + [] == sent;
    } else {
      var m := Metric(items[0].value);
      ItemsLoopComposes(org, items[1..], err, accepts, sent + [m], a + 1);
      var rest := Items(org, items[1..], err, accepts, a + 1);
      assert sent + [m] + rest.emitted == sent + ([m] + rest.emitted);
    }
  }

  /** One organization's task: the single list call, then one send per team up to the first missing entry. */
  method ScrapeOrganization(org: string, client: Client<TeamList>, ch: Conduit) returns (outcome: Outcome)
    modifies client, ch
    ensures var r := Task(org, client.respond(org, TeamsOptions), ch.accepts, old(ch.attempts));
      && client.requests == old(client.requests) + [Request(org, TeamsOptions)]
      && ch.sent == old(ch.sent) + r.emitted
      && ch.attempts == r.nextAttempt
      && outcome == r.outcome
  {
    var response := client.List(org, TeamsOptions);
    if response.items.None? {
      return NilDereference;
    }
    var items := response.items.value;
    ItemsLoopComposes(org, items, response.err, ch.accepts, ch.sent, ch.attempts);
    ghost var goal := ItemsLoop(org, items, response.err, ch.accepts, ch.sent, ch.attempts);
    var i := 0;
    while i < |items|
      invariant 0 <= i <= |items|
      invariant client.requests == old(client.requests) + [Request(org, TeamsOptions)]
      invariant ItemsLoop(org, items[i..], response.err, ch.accepts, ch.sent, ch.attempts) == goal
    {
      assert items[i..][0] == items[i] && items[i..][1..] == items[i + 1..];
      if items[i].None? {
        return Returned(None);
      }
      var delivered := ch.Send(Metric(items[i].value));
      if !delivered {
        return Returned(Some(ContextDone));
      }
      i := i + 1;
    }
    assert items[i..] == [];
    if response.err.Some? {
      return Returned(Some(OrgFailure(org, response.err.value)));
    }
    return Returned(None);
  }

  // ---------------------------------------------------------------------------
  // The organizations of the scraper, run one after the other

  /** What running the organizations' tasks did; a dereferenced missing list ends the process. */
  datatype TeamsGroup = TeamsGroup(requests: seq<Request>, emitted: seq<Record>, nextAttempt: nat, outcomes: seq<Outcome>)

  function Group(orgs: seq<string>, respond: (string, ListOptions) -> TeamList, accepts: nat -> bool, a: nat): TeamsGroup
    decreases |orgs|
  {
    if orgs == [] then TeamsGroup([], [], a, [])
    else
      var req := Request(orgs[0], TeamsOptions);
      var t := Task(orgs[0], respond(orgs[0], TeamsOptions), accepts, a);
      if t.outcome.NilDereference? then TeamsGroup([req], t.emitted, t.nextAttempt, [NilDereference])
      else
        var rest := Group(orgs[1..], respond, accepts, t.nextAttempt);
        TeamsGroup([req] + rest.requests, t.emitted + rest.emitted, rest.nextAttempt, [t.outcome] + rest.outcomes)
  }

  /** The organizations are served in order, one call each, and no task runs without its call. */
  lemma {:induction false} GroupRequests(orgs: seq<string>, respond: (string, ListOptions) -> TeamList,
                                         accepts: nat -> bool, a: nat)
    ensures var g := Group(orgs, respond, accepts, a);
      && |g.requests| == |g.outcomes| <= |orgs|
      && forall i :: 0 <= i < |g.requests| ==> g.requests[i] == Request(orgs[i], TeamsOptions)
    decreases |orgs|
  {
    if orgs != [] {
      var t := Task(orgs[0], respond(orgs[0], TeamsOptions), accepts, a);
      if t.outcome.Returned? {
        GroupRequests(orgs[1..], respond, accepts, t.nextAttempt);
        var rest := Group(orgs[1..], respond, accepts, t.nextAttempt);
        var g := Group(orgs, respond, accepts, a);
        assert g.requests == [Request(orgs[0], TeamsOptions)] + rest.requests;
        forall i | 1 <= i < |g.requests| ensures g.requests[i] == Request(orgs[i], TeamsOptions) {
          assert g.requests[i] == rest.requests[i - 1] && orgs[i] == orgs[1..][i - 1];
        }
      }
    }
  }

  /**
   * Every organization gets a task unless a missing list is dereferenced,
   * which ends the run: that outcome can only be the last one.
   */
  lemma {:induction false} GroupShape(orgs: seq<string>, respond: (string, ListOptions) -> TeamList,
                                      accepts: nat -> bool, a: nat)
    ensures var g := Group(orgs, respond, accepts, a);
      && |g.outcomes| <= |orgs|
      && (|g.outcomes| < |orgs| ==> |g.outcomes| >= 1 && g.outcomes[|g.outcomes| - 1] == NilDereference)
      && (forall i :: 0 <= i < |g.outcomes| - 1 ==> g.outcomes[i].Returned?)
    decreases |orgs|
  {
    if orgs != [] {
      var t := Task(orgs[0], respond(orgs[0], TeamsOptions), accepts, a);
      if t.outcome.Returned? {
        GroupShape(orgs[1..], respond, accepts, t.nextAttempt);
        var rest := Group(orgs[1..], respond, accepts, t.nextAttempt);
        var g := Group(orgs, respond, accepts, a);
        assert g.outcomes == [t.outcome] + rest.outcomes;
        forall i | 1 <= i < |g.outcomes| - 1 ensures g.outcomes[i].Returned? {
          assert g.outcomes[i] == rest.outcomes[i - 1];
        }
      }
    }
  }

  /** Every error reported by a task is the context error or the failure of that organization's own call. */
  lemma {:induction false} GroupAttribution(orgs: seq<string>, respond: (string, ListOptions) -> TeamList,
                                            accepts: nat -> bool, a: nat)
    ensures var g := Group(orgs, respond, accepts, a);
      && |g.outcomes| <= |orgs|
      && forall i :: 0 <= i < |g.outcomes| && g.outcomes[i].Returned? && g.outcomes[i].err.Some? ==>
           || g.outcomes[i].err.value.ContextDone?
           || (&& g.outcomes[i].err.value.OrgFailure?
               && g.outcomes[i].err.value.organization == orgs[i]
               && respond(orgs[i], TeamsOptions).err == Some(g.outcomes[i].err.value.cause))
    decreases |orgs|
  {
    if orgs != [] {
      var response := respond(orgs[0], TeamsOptions);
      var t := Task(orgs[0], response, accepts, a);
      if response.items.Some? {
        ItemsOutcome(orgs[0], response.items.value, response.err, accepts, a);
      }
      if t.outcome.Returned? {
        GroupAttribution(orgs[1..], respond, accepts, t.nextAttempt);
        var rest := Group(orgs[1..], respond, accepts, t.nextAttempt);
        var g := Group(orgs, respond, accepts, a);
        assert g.outcomes == [t.outcome] + rest.outcomes;
        forall i | 1 <= i < |g.outcomes| ensures g.outcomes[i] == rest.outcomes[i - 1] && orgs[i] == orgs[1..][i - 1] {
        }
      }
    }
  }

  /** The organizations' tasks as the loop runs them, carrying the progress and the outcomes so far. */
  function GroupLoop(orgs: seq<string>, respond: (string, ListOptions) -> TeamList, accepts: nat -> bool,
                     s: Progress, outcomes: seq<Outcome>): (Progress, seq<Outcome>)
    decreases |orgs|
  {
    if orgs == [] then (s, outcomes)
    else
      var t := Task(orgs[0], respond(orgs[0], TeamsOptions), accepts, s.attempts);
      var s' := Progress(s.requests + [Request(orgs[0], TeamsOptions)], s.sent + t.emitted, t.nextAttempt);
      if t.outcome.NilDereference? then (s', outcomes + [NilDereference])
      else GroupLoop(orgs[1..], respond, accepts, s', outcomes + [t.outcome])
  }

  lemma {:induction false} GroupLoopComposes(orgs: seq<string>, respond: (string, ListOptions) -> TeamList,
                                             accepts: nat -> bool, s: Progress, outcomes: seq<Outcome>)
    ensures var g := Group(orgs, respond, accepts, s.attempts);
      GroupLoop(orgs, respond, accepts, s, outcomes)
        == (Progress(s.requests + g.requests, s.sent + g.emitted, g.nextAttempt), outcomes + g.outcomes)
    decreases |orgs|
  {
    if orgs == [] {
      assert s.requests + [] == s.requests && s.sent + [] == s.sent && outcomes + [] == outcomes;
    } else {
      var req := Request(orgs[0], TeamsOptions);
      var t := Task(orgs[0], respond(orgs[0], TeamsOptions), accepts, s.attempts);
      if t.outcome.Returned? {
        var s' := Progress(s.requests + [req], s.sent + t.emitted, t.nextAttempt);
        GroupLoopComposes(orgs[1..], respond, accepts, s', outcomes + [t.outcome]);
        var rest := Group(orgs[1..], respond, accepts, t.nextAttempt);
        assert s.requests + [req] + rest.requests == s.requests + ([req] + rest.requests);
        assert s.sent + t.emitted + rest.emitted == s.sent + (t.emitted + rest.emitted);
        assert outcomes + [t.outcome] + rest.outcomes == outcomes + ([t.outcome] + rest.outcomes);
      }
    }
  }

  /**
   * Runs the teams task of every configured organization. The result is a
   * dereference if any task dereferenced a missing list; otherwise no error
   * exactly when no task reported one, and else one of the reported errors.
   */
  method Scrape(orgs: seq<string>, client: Client<TeamList>, ch: Conduit) returns (outcome: Outcome)
    modifies client, ch
    ensures var g := Group(orgs, client.respond, ch.accepts, old(ch.attempts));
      && client.requests == old(client.requests) + g.requests
      && ch.sent == old(ch.sent) + g.emitted
      && ch.attempts == g.nextAttempt
      && (outcome == NilDereference <==> NilDereference in g.outcomes)
      && (outcome == Returned(None) <==> forall i :: 0 <= i < |g.outcomes| ==> g.outcomes[i] == Returned(None))
      && (outcome.Returned? && outcome.err.Some? ==> outcome in g.outcomes)
  {
    ghost var respond, accepts := client.respond, ch.accepts;
    ghost var start := Progress(client.requests, ch.sent, ch.attempts);
    GroupLoopComposes(orgs, respond, accepts, start, []);
    ghost var goal := GroupLoop(orgs, respond, accepts, start, []);
    ghost var results: seq<Outcome> := [];
    var err: Option<ScrapeError> := None;
    var i := 0;
    while i < |orgs|
      invariant 0 <= i <= |orgs|
      invariant GroupLoop(orgs[i..], respond, accepts, Progress(client.requests, ch.sent, ch.attempts), results) == goal
      invariant forall j :: 0 <= j < |results| ==> results[j].Returned?
      invariant err.None? <==> forall j :: 0 <= j < |results| ==> results[j] == Returned(None)
      invariant err.Some? ==> Returned(err) in results
    {
      assert orgs[i..][0] == orgs[i] && orgs[i..][1..] == orgs[i + 1..];
      var o := ScrapeOrganization(orgs[i], client, ch);
      if o.NilDereference? {
        assert (results + [o])[|results|] == NilDereference;
        return NilDereference;
      }
      assert forall j :: 0 <= j < |results| ==> (results + [o])[j] == results[j];
      assert (results + [o])[|results|] == o;
      results := results + [o];
      if err.None? && o.err.Some? {
        err := o.err;
      }
      i := i + 1;
    }
    assert orgs[i..] == [];
    ghost var g := Group(orgs, respond, accepts, start.attempts);
    assert [] + g.outcomes == g.outcomes;
    assert results == g.outcomes;
    return Returned(err);
  }
}
