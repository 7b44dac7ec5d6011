/**
  * The sync loop of the minimal engine: every fetched worklog is skipped, created or
  * counted as failed.  The Tempo, Jira and Solidtime clients are oracles; the date range
  * the Tempo fetch uses is fixed by `days_back` and the current time, so the oracle is
  * indexed by `days_back` alone.
  *
  * The create call passes no `task_id`, which the Solidtime client requires: the
  * argument binding raises `TypeError` before any request is made, the handler counts
  * the worklog as failed, and `created` never grows.
  */
module MinimalSyncer {
  import opened Wrappers
  import opened Text
  import opened Records
  import opened ProjectMapper

  /** A Solidtime project as `get_projects` lists it; `""` for an absent field. */
  datatype SolidtimeProject = SolidtimeProject(id: string, name: string)

  /**
    * The clients: `Err` stands for an exception raised by the call.  `createTimeEntry`
    * answers a create call whose arguments bind to the client's signature.
    */
  datatype Clients = Clients(
    tempoWorklogs: int -> Result<seq<TempoWorklog>>,
    projects: Result<seq<SolidtimeProject>>,
    jiraIssueKey: string -> Result<string>,
    createTimeEntry: CreateArguments -> Result<string>)

  /** Why a worklog was skipped. */
  datatype Skip = JiraLookupFailed | NoIssueKey | NoProjectKey | NoProjectMapping | ProjectNotFound

  /**
    * The arguments of a `create_time_entry` call (the naive start datetime as its two
    * parts); `taskId` is `None` when the call leaves the parameter out.
    */
  datatype CreateArguments = CreateArguments(
    projectId: string,
    taskId: Option<string>,
    durationMinutes: int,
    startDate: string,
    startTime: string,
    description: string)

  /** What the loop body decides for one worklog before calling the client. */
  datatype Outcome = Skipped(why: Skip) | Attempted(args: CreateArguments)

  datatype Counters = Counters(created: nat, failed: nat, skipped: nat)

  /** The dictionary `sync` returns (the timestamp left out). */
  datatype Summary = Failure(error: string) | Summary(created: nat, failed: nat, skipped: nat, total: nat)

  /** `issue_key.split("-")[0]` */
  function ProjectKey(issueKey: string): (pk: string)
    ensures StartsWith(issueKey, pk) && !Contains(pk, "-")
    ensures |pk| == |issueKey| || issueKey[|pk|] == '-'
  {
    match Find(issueKey, "-")
    case None => issueKey
    case Some(i) =>
      BeforeFirstOccurrence(issueKey, "-", i);
      assert Split(issueKey, "-")[0] == issueKey[..i];
      Split(issueKey, "-")[0]
  }

  /** The id of the first project whose name is `name`, or `None` when no project has it. */
  function FirstProjectId(projects: seq<SolidtimeProject>, name: string): (r: Option<string>)
    ensures r.None? <==> forall i :: 0 <= i < |projects| ==> projects[i].name != name
    ensures r.Some? ==> exists i :: (0 <= i < |projects| && projects[i].name == name && projects[i].id == r.value
      && forall j :: 0 <= j < i ==> projects[j].name != name)
  {
    if projects == [] then None
    else if projects[0].name == name then Some(projects[0].id)
    else
      var r := FirstProjectId(projects[1..], name);
      assert forall i :: 1 <= i < |projects| ==> projects[i] == projects[1..][i - 1];
      assert r.Some? ==> exists i :: (0 <= i < |projects| && projects[i].name == name && projects[i].id == r.value
        && forall j :: 0 <= j < i ==> projects[j].name != name) by {
        if r.Some? {
          var i :| 0 <= i < |projects| - 1 && projects[1..][i].name == name && projects[1..][i].id == r.value
            && forall j :: 0 <= j < i ==> projects[1..][j].name != name;
          assert projects[i + 1] == projects[1..][i];
          forall j | 0 <= j < i + 1 ensures projects[j].name != name {
            if j > 0 { assert projects[j] == projects[1..][j - 1]; }
          }
        }
      }
      r
  }

  /** The decision once an issue key is known. */
  function ForKey(names: map<string, string>, projects: seq<SolidtimeProject>, w: TempoWorklog,
                  key: string): (o: Outcome)
    ensures key == "" <==> o == Skipped(NoIssueKey)
    ensures key != "" && ProjectKey(key) == "" <==> o == Skipped(NoProjectKey)
    ensures o.Attempted? ==> (ProjectKey(key) in names && names[ProjectKey(key)] != ""
      && FirstProjectId(projects, names[ProjectKey(key)]) == Some(o.args.projectId) && o.args.projectId != "")
    ensures o == Skipped(NoProjectMapping) <==> (key != "" && ProjectKey(key) != ""
      && (ProjectKey(key) !in names || names[ProjectKey(key)] == ""))
    ensures o.Attempted? ==> (o.args.taskId.None? && o.args.durationMinutes == w.timeSpentSeconds / 60
      && o.args.startDate == w.startDate && o.args.startTime == w.startTime.GetOr("08:00:00")
      && o.args.description == w.comment.GetOr(key))
  {
    if key == "" then Skipped(NoIssueKey)
    else
      var pk := ProjectKey(key);
      if pk == "" then Skipped(NoProjectKey)
      else if pk !in names || names[pk] == "" then Skipped(NoProjectMapping)
      else
        match FirstProjectId(projects, names[pk])
        case None => Skipped(ProjectNotFound)
        case Some(pid) =>
          if pid == "" then Skipped(ProjectNotFound)
          else Attempted(CreateArguments(pid, None, w.timeSpentSeconds / 60, w.startDate,
                                         w.startTime.GetOr("08:00:00"), w.comment.GetOr(key)))
  }

  /**
    * The loop body up to the create call: the worklog's own key, else, for a truthy
    * issue id, the key Jira returns for `str(id)`; a failing Jira lookup skips.
    */
  function Classify(c: Clients, names: map<string, string>, projects: seq<SolidtimeProject>,
                    w: TempoWorklog): (o: Outcome)
    ensures w.issue.key != "" ==> o == ForKey(names, projects, w, w.issue.key)
    ensures w.issue.key == "" && (w.issue.id.None? || w.issue.id == Some(0)) ==> o == Skipped(NoIssueKey)
    ensures o == Skipped(JiraLookupFailed) <==> (w.issue.key == "" && w.issue.id.Some? && w.issue.id.value != 0
      && c.jiraIssueKey(IntToString(w.issue.id.value)).Err?)
  {
    if w.issue.key == "" && w.issue.id.Some? && w.issue.id.value != 0 then
      match c.jiraIssueKey(IntToString(w.issue.id.value))
      case Err(_) => Skipped(JiraLookupFailed)
      case Ok(k) => ForKey(names, projects, w, k)
    else ForKey(names, projects, w, w.issue.key)
  }

  /**
    * Calling `create_time_entry`: `task_id` is a required parameter, so a call without
    * it raises `TypeError` before the client runs; otherwise the client answers.
    */
  function CreateTimeEntry(c: Clients, args: CreateArguments): (r: Result<string>)
    ensures args.taskId.None? ==> r.Err?
    ensures args.taskId.Some? ==> r == c.createTimeEntry(args)
  {
    if args.taskId.None? then Err("create_time_entry() missing 1 required positional argument: 'task_id'")
    else c.createTimeEntry(args)
  }

  /**
    * The counters after one more worklog: a skip, or the create call's outcome (an
    * exception, here the call's own, is a failure).
    */
  function Count(c: Clients, k: Counters, o: Outcome): (r: Counters)
    ensures r.created + r.failed + r.skipped == k.created + k.failed + k.skipped + 1
    ensures o.Skipped? ==> r == k.(skipped := k.skipped + 1)
    ensures o.Attempted? && CreateTimeEntry(c, o.args).Err? ==> r == k.(failed := k.failed + 1)
    ensures o.Attempted? && CreateTimeEntry(c, o.args).Ok? ==> r == k.(created := k.created + 1)
  {
    match o
    case Skipped(_) => k.(skipped := k.skipped + 1)
    case Attempted(args) =>
      if CreateTimeEntry(c, args).Ok? then k.(created := k.created + 1) else k.(failed := k.failed + 1)
  }

  /** The counters after the loop has seen `ws`. */
  function Tally(c: Clients, names: map<string, string>, projects: seq<SolidtimeProject>,
                 ws: seq<TempoWorklog>): Counters
    decreases |ws|
  {
    if ws == [] then Counters(0, 0, 0)
    else Count(c, Tally(c, names, projects, ws[..|ws| - 1]), Classify(c, names, projects, ws[|ws| - 1]))
  }

  /** What `sync(days_back)` returns: either fetch failing ends the run before the loop. */
  function SyncSummary(c: Clients, names: map<string, string>, daysBack: int): (r: Summary)
    ensures r.Failure? <==> c.tempoWorklogs(daysBack).Err? || c.projects.Err?
    ensures r.Summary? ==> r.created + r.failed + r.skipped == r.total == |c.tempoWorklogs(daysBack).value|
  {
    match c.tempoWorklogs(daysBack)
    case Err(e) => Failure(e)
    case Ok(ws) =>
      match c.projects
      case Err(e) => Failure(e)
      case Ok(ps) =>
        var k := Tally(c, names, ps, ws);
        TallyConserves(c, names, ps, ws);
        Summary(k.created, k.failed, k.skipped, |ws|)
  }

  /** Each worklog moves exactly one counter, so the counters add up to the number seen. */
  lemma {:induction false} TallyConserves(c: Clients, names: map<string, string>,
                                          projects: seq<SolidtimeProject>, ws: seq<TempoWorklog>)
    ensures var k := Tally(c, names, projects, ws); k.created + k.failed + k.skipped == |ws|
    decreases |ws|
  {
    if ws != [] {
      TallyConserves(c, names, projects, ws[..|ws| - 1]);
    }
  }

  /**
    * Nothing is ever counted as created: the skipped worklogs are exactly the skipped
    * decisions, and every other worklog is a failure.
    */
  lemma {:induction false} TallySplits(c: Clients, names: map<string, string>,
                                       projects: seq<SolidtimeProject>, ws: seq<TempoWorklog>)
    ensures Tally(c, names, projects, ws).created == 0
    ensures Tally(c, names, projects, ws).skipped == |SkippedOnes(c, names, projects, ws)|
    ensures Tally(c, names, projects, ws).failed == |ws| - |SkippedOnes(c, names, projects, ws)|
    decreases |ws|
  {
    if ws != [] {
      TallySplits(c, names, projects, ws[..|ws| - 1]);
    }
  }

  /** The worklogs the loop skips, in order. */
  function SkippedOnes(c: Clients, names: map<string, string>, projects: seq<SolidtimeProject>,
                       ws: seq<TempoWorklog>): (r: seq<TempoWorklog>)
    ensures |r| <= |ws|
    ensures forall w :: w in r ==> w in ws && Classify(c, names, projects, w).Skipped?
    ensures forall w :: w in ws && Classify(c, names, projects, w).Skipped? ==> w in r
    decreases |ws|
  {
    if ws == [] then []
    else
      var init := SkippedOnes(c, names, projects, ws[..|ws| - 1]);
      var w := ws[|ws| - 1];
      assert forall x :: x in ws <==> x in ws[..|ws| - 1] || x == w;
      if Classify(c, names, projects, w).Skipped? then init + [w] else init
  }

  /** A run whose fetches succeed reports every worklog, none of them created. */
  lemma SummaryAccounts(c: Clients, names: map<string, string>, daysBack: int)
    requires SyncSummary(c, names, daysBack).Summary?
    ensures var s := SyncSummary(c, names, daysBack);
      s.created == 0 && s.created + s.failed + s.skipped == s.total == |c.tempoWorklogs(daysBack).value|
  {
    var ws := c.tempoWorklogs(daysBack).value;
    TallyConserves(c, names, c.projects.value, ws);
    TallySplits(c, names, c.projects.value, ws);
  }

  /** A failing fetch of either kind reports the error and no counts. */
  lemma FetchFailureStops(c: Clients, names: map<string, string>, daysBack: int)
    ensures c.tempoWorklogs(daysBack).Err? ==> SyncSummary(c, names, daysBack) == Failure(c.tempoWorklogs(daysBack).error)
    ensures c.tempoWorklogs(daysBack).Ok? && c.projects.Err? ==> SyncSummary(c, names, daysBack) == Failure(c.projects.error)
    ensures (c.tempoWorklogs(daysBack).Err? || c.projects.Err?) <==> SyncSummary(c, names, daysBack).Failure?
  {
  }

  /** A worklog with everything in place is still a failure: the loop never creates. */
  lemma MappableWorklogFails(c: Clients)
    requires c.tempoWorklogs(30) == Ok([TempoWorklog(Some(9), Issue(None, "AS-12", None, "", "", []), "", 3600, 0,
                                                     "2025-09-16", None, None, None)])
    requires c.projects == Ok([SolidtimeProject("p1", "Alpha")])
    ensures SyncSummary(c, map["AS" := "Alpha"], 30) == Summary(0, 1, 0, 1)
  {
    var w := TempoWorklog(Some(9), Issue(None, "AS-12", None, "", "", []), "", 3600, 0, "2025-09-16", None, None, None);
    var names := map["AS" := "Alpha"];
    var ps := [SolidtimeProject("p1", "Alpha")];
    assert Find("AS-12", "-") == Some(2) by {
      var s := "AS-12";
      assert "-" <= s[2..];
      assert FindFrom(s, "-", 2) == Some(2);
      assert !("-" <= s[1..]) by { assert s[1..][0] == 'S'; }
      assert FindFrom(s, "-", 1) == Some(2);
      assert !("-" <= s[0..]) by { assert s[0..][0] == 'A'; }
    }
    assert ProjectKey("AS-12") == "AS";
    assert Classify(c, names, ps, w) == Attempted(CreateArguments("p1", None, 60, "2025-09-16", "08:00:00", "AS-12"));
    assert [w][..0] == [];
  }

  class Syncer {
    const clients: Clients
    const mapper: Mapper

    constructor (clients: Clients, mapper: Mapper)
      ensures this.clients == clients && this.mapper == mapper
    {
      this.clients := clients;
      this.mapper := mapper;
    }

    /** The linear search for the project id, leaving the loop at the first name match. */
    static method FindProjectId(projects: seq<SolidtimeProject>, name: string) returns (id: string)
      ensures id == FirstProjectId(projects, name).GetOr("")
    {
      id := "";
      var i := 0;
      while i < |projects|
        invariant 0 <= i <= |projects|
        invariant forall j :: 0 <= j < i ==> projects[j].name != name
        invariant FirstProjectId(projects, name) == FirstProjectId(projects[i..], name)
      {
        if projects[i].name == name {
          id := projects[i].id;
          return;
        }
        assert projects[i..][1..] == projects[i + 1..];
        i := i + 1;
      }
    }

    /** `sync(days_back)`: two fetches, then one pass over the worklogs keeping three counters. */
    method Sync(daysBack: int) returns (r: Summary)
      ensures r == SyncSummary(clients, mapper.mappings, daysBack)
    {
      var fetched := clients.tempoWorklogs(daysBack);
      if fetched.Err? {
        return Failure(fetched.error);
      }
      var listed := clients.projects;
      if listed.Err? {
        return Failure(listed.error);
      }
      var ws := fetched.value;
      var projects := listed.value;
      var created, failed, skipped := 0, 0, 0;
      var i := 0;
      while i < |ws|
        invariant 0 <= i <= |ws|
        invariant Counters(created, failed, skipped) == Tally(clients, mapper.mappings, projects, ws[..i])
      {
        assert ws[..i + 1][..i] == ws[..i];
        var o := Decide(ws[i], projects);
        match o {
          case Skipped(_) =>
            skipped := skipped + 1;
          case Attempted(args) =>
            var sent := CreateTimeEntry(clients, args);
            if sent.Ok? {
              created := created + 1;
            } else {
              failed := failed + 1;
            }
        }
        i := i + 1;
      }
      assert ws[..i] == ws;
      r := Summary(created, failed, skipped, |ws|);
    }

    /** The loop body up to the create call, with `continue` for each skip. */
    method Decide(w: TempoWorklog, projects: seq<SolidtimeProject>) returns (o: Outcome)
      ensures o == Classify(clients, mapper.mappings, projects, w)
    {
      var key := w.issue.key;
      if key == "" && w.issue.id.Some? && w.issue.id.value != 0 {
        var fetched := clients.jiraIssueKey(IntToString(w.issue.id.value));
        if fetched.Err? {
          return Skipped(JiraLookupFailed);
        }
        key := fetched.value;
      }
      if key == "" {
        return Skipped(NoIssueKey);
      }
      var pk := ProjectKey(key);
      if pk == "" {
        return Skipped(NoProjectKey);
      }
      var name := mapper.MapProject(pk);
      if name.None? || name.value == "" {
        return Skipped(NoProjectMapping);
      }
      var pid := FindProjectId(projects, name.value);
      if pid == "" {
        return Skipped(ProjectNotFound);
      }
      o := Attempted(CreateArguments(pid, None, w.timeSpentSeconds / 60, w.startDate,
                                     w.startTime.GetOr("08:00:00"), w.comment.GetOr(key)));
    }
  }
}
