/**
  * The rules that turn a Tempo worklog into the record the Solidtime side is built
  * from: the `"<key>: <text> [JiraSync:<id>]"` description, and the project, task and
  * billable routing configured in the mapping rules.
  */
module FieldMapper {
  import opened Wrappers
  import opened Text
  import opened Records
  import opened Markers

  /**
    * The parts of the mapping rules the mapper reads.  Each `Option` is `None` when the
    * key is absent from the rules; the maps are empty when their section is absent.
    */
  datatype Rules = Rules(
    projectMappings: map<string, string>,
    labelMappings: map<string, string>,
    issueTypeMappings: map<string, string>,
    defaultTask: Option<string>,
    billableDefault: Option<string>,
    billableOverrides: map<string, string>)

  /** The mapped worklog, without the floating-point `duration_hours`. */
  datatype MappedWorklog = MappedWorklog(
    date: string,
    startTime: string,
    project: string,
    task: string,
    description: string,
    billable: bool,
    jiraIssueKey: string,
    tempoWorklogId: Option<int>,
    projectKey: string,
    issueType: string)

  const WorkingOnIssue: string := "Working on issue"

  /** `issue_info.get("summary", "No description")` */
  function SummaryOr(i: Issue): (s: string)
    ensures i.summary.Some? ==> s == i.summary.value
    ensures i.summary.None? ==> s == "No description"
  {
    i.summary.GetOr("No description")
  }

  /**
    * The free text of the description: the issue summary for Tempo's default
    * "Working on issue <key>" text, else the stripped worklog description when it is
    * not empty, else the summary.
    */
  function ChosenText(stripped: string, issueKey: string, summary: string): (t: string)
    ensures StartsWith(stripped, WorkingOnIssue) && Contains(stripped, issueKey) ==> t == summary
    ensures !(StartsWith(stripped, WorkingOnIssue) && Contains(stripped, issueKey)) && stripped != [] ==> t == stripped
    ensures stripped == [] ==> t == summary
  {
    if StartsWith(stripped, WorkingOnIssue) && Contains(stripped, issueKey) then summary
    else if stripped != [] then stripped
    else summary
  }

  /** The description `map_tempo_worklog` writes for a worklog whose description is text `d`. */
  function DescriptionFor(w: TempoWorklog, d: string): string {
    Tagged(w.issue.key, ChosenText(Strip(d), w.issue.key, SummaryOr(w.issue)), IdText(w))
  }

  /** `map_project`: the configured name, or the key itself when it is unmapped. */
  function MapProject(rules: Rules, projectKey: string): (r: string)
    ensures projectKey in rules.projectMappings ==> r == rules.projectMappings[projectKey]
    ensures projectKey !in rules.projectMappings ==> r == projectKey
  {
    if projectKey in rules.projectMappings then rules.projectMappings[projectKey] else projectKey
  }

  /** The mapped task of the first label, in label order, whose lower-case form is mapped. */
  function FirstLabelTask(labels: seq<string>, labelMappings: map<string, string>): (r: Option<string>)
    ensures r.Some? ==> exists i :: (0 <= i < |labels| && Lower(labels[i]) in labelMappings
      && r.value == labelMappings[Lower(labels[i])]
      && forall j :: 0 <= j < i ==> Lower(labels[j]) !in labelMappings)
    ensures r.None? <==> forall j :: 0 <= j < |labels| ==> Lower(labels[j]) !in labelMappings
  {
    if labels == [] then None
    else if Lower(labels[0]) in labelMappings then Some(labelMappings[Lower(labels[0])])
    else
      var r := FirstLabelTask(labels[1..], labelMappings);
      assert r.Some? ==> exists i :: (0 <= i < |labels| && Lower(labels[i]) in labelMappings
        && r.value == labelMappings[Lower(labels[i])]
        && forall j :: 0 <= j < i ==> Lower(labels[j]) !in labelMappings) by {
        if r.Some? {
          var i :| 0 <= i < |labels| - 1 && Lower(labels[1..][i]) in labelMappings
            && r.value == labelMappings[Lower(labels[1..][i])]
            && forall j :: 0 <= j < i ==> Lower(labels[1..][j]) !in labelMappings;
          assert labels[i + 1] == labels[1..][i];
          forall j | 0 <= j < i + 1 ensures Lower(labels[j]) !in labelMappings {
            if j > 0 { assert labels[j] == labels[1..][j - 1]; }
          }
        }
      }
      assert r.None? ==> forall j :: 0 <= j < |labels| ==> Lower(labels[j]) !in labelMappings by {
        if r.None? {
          forall j | 0 <= j < |labels| ensures Lower(labels[j]) !in labelMappings {
            if j > 0 { assert labels[j] == labels[1..][j - 1]; }
          }
        }
      }
      r
  }

  /** `map_task`: a label mapping first, then the issue-type mapping, then the default. */
  function MapTask(rules: Rules, issue: Issue): (r: string)
    ensures FirstLabelTask(issue.labels, rules.labelMappings).Some? ==>
      r == FirstLabelTask(issue.labels, rules.labelMappings).value
    ensures FirstLabelTask(issue.labels, rules.labelMappings).None? && issue.issueTypeName in rules.issueTypeMappings ==>
      r == rules.issueTypeMappings[issue.issueTypeName]
    ensures FirstLabelTask(issue.labels, rules.labelMappings).None? && issue.issueTypeName !in rules.issueTypeMappings ==>
      r == rules.defaultTask.GetOr("General Work")
  {
    match FirstLabelTask(issue.labels, rules.labelMappings)
    case Some(t) => t
    case None =>
      if issue.issueTypeName in rules.issueTypeMappings then rules.issueTypeMappings[issue.issueTypeName]
      else rules.defaultTask.GetOr("General Work")
  }

  /** The outcome of a billable rule: `Some` for the two fixed rules, `None` for any other. */
  function FixedRule(rule: string): (r: Option<bool>)
    ensures r == Some(true) <==> rule == "always_billable"
    ensures r == Some(false) <==> rule == "never_billable"
  {
    if rule == "always_billable" then Some(true)
    else if rule == "never_billable" then Some(false)
    else None
  }

  /**
    * `map_billable_status`: a fixed project override wins; otherwise the default rule
    * (`"auto"` when absent), under which Tempo's billable seconds decide.
    */
  function MapBillable(rules: Rules, w: TempoWorklog, projectKey: string): (r: bool)
    ensures projectKey in rules.billableOverrides && FixedRule(rules.billableOverrides[projectKey]).Some? ==>
      r == FixedRule(rules.billableOverrides[projectKey]).value
    ensures ((projectKey !in rules.billableOverrides || FixedRule(rules.billableOverrides[projectKey]).None?)
             && FixedRule(rules.billableDefault.GetOr("auto")).Some?) ==>
      r == FixedRule(rules.billableDefault.GetOr("auto")).value
    ensures ((projectKey !in rules.billableOverrides || FixedRule(rules.billableOverrides[projectKey]).None?)
             && FixedRule(rules.billableDefault.GetOr("auto")).None?) ==>
      (r <==> w.billableSeconds > 0)
  {
    var over := if projectKey in rules.billableOverrides then FixedRule(rules.billableOverrides[projectKey]) else None;
    if over.Some? then over.value
    else
      match FixedRule(rules.billableDefault.GetOr("auto"))
      case Some(b) => b
      case None => w.billableSeconds > 0
  }

  /**
    * `map_tempo_worklog`.  `None` models the one way it raises on these records: a JSON
    * `null` description, on which `.strip()` fails.
    */
  function MapTempoWorklog(rules: Rules, w: TempoWorklog): (r: Option<MappedWorklog>)
    ensures r.None? <==> w.description.None?
    ensures r.Some? ==> r.value.description == DescriptionFor(w, w.description.value)
    ensures r.Some? ==> r.value.date == w.startDate && r.value.jiraIssueKey == w.issue.key
    ensures r.Some? ==> r.value.startTime == w.startTime.GetOr("09:00")
    ensures r.Some? ==> r.value.project == MapProject(rules, w.issue.projectKey)
    ensures r.Some? ==> r.value.task == MapTask(rules, w.issue)
    ensures r.Some? ==> r.value.billable == MapBillable(rules, w, w.issue.projectKey)
    ensures r.Some? ==> r.value.tempoWorklogId == w.tempoWorklogId
  {
    match w.description
    case None => None
    case Some(d) =>
      Some(MappedWorklog(
        w.startDate,
        w.startTime.GetOr("09:00"),
        MapProject(rules, w.issue.projectKey),
        MapTask(rules, w.issue),
        DescriptionFor(w, d),
        MapBillable(rules, w, w.issue.projectKey),
        w.issue.key,
        w.tempoWorklogId,
        w.issue.projectKey,
        w.issue.issueTypeName))
  }

  /** What `map_multiple_worklogs` returns: the worklogs that map, in their order. */
  function MapAll(rules: Rules, ws: seq<TempoWorklog>): (r: seq<MappedWorklog>)
    ensures |r| <= |ws|
    decreases |ws|
  {
    if ws == [] then []
    else
      var rest := MapAll(rules, ws[..|ws| - 1]);
      match MapTempoWorklog(rules, ws[|ws| - 1])
      case Some(m) => rest + [m]
      case None => rest
  }

  /** Mapping a concatenation maps each part: the order of the input is kept. */
  lemma {:induction false} MapAllAppend(rules: Rules, a: seq<TempoWorklog>, b: seq<TempoWorklog>)
    ensures MapAll(rules, a + b) == MapAll(rules, a) + MapAll(rules, b)
    decreases |b|
  {
    if b == [] {
      assert a + b == a;
    } else {
      var init := b[..|b| - 1];
      var last := b[|b| - 1];
      assert (a + b)[..|a + b| - 1] == a + init;
      assert (a + b)[|a + b| - 1] == last;
      MapAllAppend(rules, a, init);
      match MapTempoWorklog(rules, last)
      case Some(m) =>
        assert MapAll(rules, a + b) == MapAll(rules, a + init) + [m];
        assert MapAll(rules, b) == MapAll(rules, init) + [m];
      case None =>
    }
  }

  /** Only worklogs whose mapping fails are dropped: with none of those, nothing is. */
  lemma {:induction false} MapAllKeepsEverything(rules: Rules, ws: seq<TempoWorklog>)
    requires forall i :: 0 <= i < |ws| ==> ws[i].description.Some?
    ensures |MapAll(rules, ws)| == |ws|
    ensures forall i :: 0 <= i < |ws| ==> Some(MapAll(rules, ws)[i]) == MapTempoWorklog(rules, ws[i])
    decreases |ws|
  {
    if ws != [] {
      var init := ws[..|ws| - 1];
      var last := ws[|ws| - 1];
      MapAllKeepsEverything(rules, init);
      var m := MapTempoWorklog(rules, last);
      assert m.Some?;
      var r := MapAll(rules, ws);
      assert r == MapAll(rules, init) + [m.value];
      forall i | 0 <= i < |ws| ensures Some(r[i]) == MapTempoWorklog(rules, ws[i]) {
        if i < |init| {
          assert r[i] == MapAll(rules, init)[i] && ws[i] == init[i];
        }
      }
    }
  }

  /** `map_multiple_worklogs`: maps each worklog in turn and skips those that raise. */
  method MapMultipleWorklogs(rules: Rules, ws: seq<TempoWorklog>) returns (mapped: seq<MappedWorklog>)
    ensures mapped == MapAll(rules, ws)
  {
    mapped := [];
    var i := 0;
    while i < |ws|
      invariant 0 <= i <= |ws|
      invariant mapped == MapAll(rules, ws[..i])
    {
      assert ws[..i + 1][..i] == ws[..i];
      var m := MapTempoWorklog(rules, ws[i]);
      if m.Some? {
        mapped := mapped + [m.value];
      }
      i := i + 1;
    }
    assert ws[..i] == ws;
  }

  /** The counts of `get_mapping_stats`, without the floating-point hour sums. */
  datatype MappingStats = MappingStats(totalWorklogs: nat, projects: map<string, nat>, tasks: map<string, nat>)

  /** The project names of the mapped worklogs, in order. */
  function Projects(ms: seq<MappedWorklog>): (r: seq<string>)
    ensures |r| == |ms| && forall i :: 0 <= i < |ms| ==> r[i] == ms[i].project
  {
    seq(|ms|, i requires 0 <= i < |ms| => ms[i].project)
  }

  /** The task names of the mapped worklogs, in order. */
  function Tasks(ms: seq<MappedWorklog>): (r: seq<string>)
    ensures |r| == |ms| && forall i :: 0 <= i < |ms| ==> r[i] == ms[i].task
  {
    seq(|ms|, i requires 0 <= i < |ms| => ms[i].task)
  }

  /** One more occurrence of `x` in a counter dictionary. */
  function Counted(t: map<string, nat>, x: string): (r: map<string, nat>)
    ensures x in r && r[x] == (if x in t then t[x] else 0) + 1
    ensures forall k :: k != x ==> (k in r <==> k in t) && (k in t ==> r[k] == t[k])
  {
    t[x := (if x in t then t[x] else 0) + 1]
  }

  /**
    * The counter dictionary built by `counts[x] = counts.get(x, 0) + 1` over `xs`: its keys
    * are the names that occur, each with its number of occurrences.
    */
  function Tally(xs: seq<string>): (t: map<string, nat>)
    ensures forall k :: k in t <==> k in xs
    ensures forall k :: k in t ==> t[k] == multiset(xs)[k]
    decreases |xs|
  {
    if xs == [] then map[]
    else
      var init := xs[..|xs| - 1];
      var x := xs[|xs| - 1];
      assert xs == init + [x];
      Counted(Tally(init), x)
  }

  /** Tallying one more name. */
  lemma TallyAppend(xs: seq<string>, x: string)
    ensures Tally(xs + [x]) == Counted(Tally(xs), x)
  {
    assert (xs + [x])[..|xs|] == xs;
  }

  /** Counting one more mapped worklog. */
  lemma StatsStep(ms: seq<MappedWorklog>, i: nat)
    requires i < |ms|
    ensures Tally(Projects(ms[..i + 1])) == Counted(Tally(Projects(ms[..i])), ms[i].project)
    ensures Tally(Tasks(ms[..i + 1])) == Counted(Tally(Tasks(ms[..i])), ms[i].task)
  {
    assert Projects(ms[..i + 1]) == Projects(ms[..i]) + [ms[i].project];
    assert Tasks(ms[..i + 1]) == Tasks(ms[..i]) + [ms[i].task];
    TallyAppend(Projects(ms[..i]), ms[i].project);
    TallyAppend(Tasks(ms[..i]), ms[i].task);
  }

  /** `get_mapping_stats`: the number of worklogs and the counts per project and per task. */
  method GetMappingStats(ms: seq<MappedWorklog>) returns (stats: MappingStats)
    ensures stats.totalWorklogs == |ms|
    ensures stats.projects == Tally(Projects(ms)) && stats.tasks == Tally(Tasks(ms))
  {
    var projects: map<string, nat> := map[];
    var tasks: map<string, nat> := map[];
    var i := 0;
    while i < |ms|
      invariant 0 <= i <= |ms|
      invariant projects == Tally(Projects(ms[..i])) && tasks == Tally(Tasks(ms[..i]))
    {
      StatsStep(ms, i);
      projects := Counted(projects, ms[i].project);
      tasks := Counted(tasks, ms[i].task);
      i := i + 1;
    }
    assert ms[..i] == ms;
    stats := MappingStats(|ms|, projects, tasks);
  }

  /**
    * The description carries both identities back out: the sync marker gives the Tempo
    * id as `str(tempoWorklogId)` and the prefix gives the issue key, provided the key has
    * the `AB-12` shape, the id is not negative and the chosen text holds no marker.
    */
  lemma DescriptionCarriesIds(w: TempoWorklog, d: string)
    requires IsIssueKey(w.issue.key)
    requires w.tempoWorklogId.Some? && w.tempoWorklogId.value >= 0
    requires !Contains(ChosenText(Strip(d), w.issue.key, SummaryOr(w.issue)), Lit)
    ensures FindMarker(DescriptionFor(w, d)) == Some(IdText(w))
    ensures IssueKeyPrefix(DescriptionFor(w, d)) == Some(w.issue.key)
  {
    var text := ChosenText(Strip(d), w.issue.key, SummaryOr(w.issue));
    var id := IdText(w);
    assert id == NatToString(w.tempoWorklogId.value);
    assert Tagged(w.issue.key, text, id) == w.issue.key + ": " + text + " " + Lit + id + "]";
    MarkerOfDescription(w.issue.key, text, id);
    KeyOfDescription(w.issue.key, text, id);
  }
}
