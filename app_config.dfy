/**
  * The JSON configuration of the minimal engine: section lookups with their defaults,
  * the validation of the seven required fields, and the copy `to_dict` returns.  The
  * file itself is not read here; the configuration is the parsed JSON object.
  */
module AppConfig {
  import opened Wrappers

  /** A JSON value. */
  datatype Json = JNull | JBool(b: bool) | JInt(i: int) | JStr(s: string)
                | JList(items: seq<Json>) | JObject(fields: map<string, Json>)

  /** Python truthiness of a parsed JSON value. */
  predicate Truthy(j: Json) {
    match j
    case JNull => false
    case JBool(b) => b
    case JInt(i) => i != 0
    case JStr(s) => s != ""
    case JList(items) => items != []
    case JObject(fields) => fields != map[]
  }

  datatype Config = Config(data: map<string, Json>)

  /** `self.data.get(name, default)` */
  function GetOr(data: map<string, Json>, name: string, default: Json): (r: Json)
    ensures name in data ==> r == data[name]
    ensures name !in data ==> r == default
  {
    if name in data then data[name] else default
  }

  /** The `jira`, `tempo`, `solidtime`, `sync` and `mappings` properties: `{}` when absent. */
  function Section(c: Config, name: string): (r: Json)
    ensures name !in c.data ==> r == JObject(map[])
    ensures name in c.data ==> r == c.data[name]
  {
    GetOr(c.data, name, JObject(map[]))
  }

  /** The `web` property: `{"port": 8080}` when absent. */
  function Web(c: Config): (r: Json)
    ensures "web" !in c.data ==> r == JObject(map["port" := JInt(8080)])
    ensures "web" in c.data ==> r == c.data["web"]
  {
    GetOr(c.data, "web", JObject(map["port" := JInt(8080)]))
  }

  /** `to_dict`: a copy with every key and value of `data`. */
  function ToDict(c: Config): (r: map<string, Json>)
    ensures r.Keys == c.data.Keys && forall k :: k in r ==> r[k] == c.data[k]
  {
    c.data
  }

  /** `section.get(key)` is truthy; `section` is an object. */
  predicate Given(section: Json, key: string)
    requires section.JObject?
  {
    key in section.fields && Truthy(section.fields[key])
  }

  /** `"<section>.<key> is required"` */
  function Message(section: string, key: string): string {
    section + "." + key + " is required"
  }

  /** One required check: its message when the field is missing or falsy. */
  function Check(c: Config, section: string, key: string): (r: seq<string>)
    requires Section(c, section).JObject?
    ensures |r| <= 1
    ensures r == [] <==> Given(Section(c, section), key)
    ensures r != [] ==> r == [Message(section, key)]
  {
    if Given(Section(c, section), key) then [] else [Message(section, key)]
  }

  /** The three sections `validate` reads support `.get`. */
  predicate Readable(c: Config) {
    Section(c, "jira").JObject? && Section(c, "tempo").JObject? && Section(c, "solidtime").JObject?
  }

  /**
    * `validate`: the error list is built by appending, Jira fields first, then Tempo,
    * then Solidtime.  A section that is present but not an object makes `.get` raise
    * `AttributeError`.
    */
  function Validate(c: Config): (r: Result<(bool, seq<string>)>)
    ensures r.Ok? <==> Readable(c)
    ensures r.Ok? ==> (r.value.0 <==> r.value.1 == [])
  {
    if !Readable(c) then Err("AttributeError: object has no attribute 'get'")
    else
      var errors := [];
      var errors := errors + Check(c, "jira", "base_url");
      var errors := errors + Check(c, "jira", "api_token");
      var errors := errors + Check(c, "jira", "user_email");
      var errors := errors + Check(c, "tempo", "api_token");
      var errors := errors + Check(c, "solidtime", "base_url");
      var errors := errors + Check(c, "solidtime", "api_token");
      var errors := errors + Check(c, "solidtime", "organization_id");
      Ok((|errors| == 0, errors))
  }

  /** The required fields, in the order they are checked. */
  const Required: seq<(string, string)> := [
    ("jira", "base_url"), ("jira", "api_token"), ("jira", "user_email"),
    ("tempo", "api_token"),
    ("solidtime", "base_url"), ("solidtime", "api_token"), ("solidtime", "organization_id")]

  predicate Known(c: Config, field: (string, string)) {
    var s := Section(c, field.0);
    s.JObject? && Given(s, field.1)
  }

  /** The message for one field when it is not known. */
  function Report(c: Config, field: (string, string)): seq<string> {
    if Known(c, field) then [] else [Message(field.0, field.1)]
  }

  /** The reference definition: a message for every required field that is missing, in order. */
  function Missing(c: Config, fields: seq<(string, string)>): (r: seq<string>)
    ensures |r| <= |fields|
  {
    if fields == [] then [] else Report(c, fields[0]) + Missing(c, fields[1..])
  }

  lemma {:induction false} MissingEmpty(c: Config, fields: seq<(string, string)>)
    ensures Missing(c, fields) == [] <==> forall i :: 0 <= i < |fields| ==> Known(c, fields[i])
    decreases |fields|
  {
    if fields != [] {
      MissingEmpty(c, fields[1..]);
      assert forall i :: 1 <= i < |fields| ==> fields[i] == fields[1..][i - 1];
    }
  }

  lemma ReportIsCheck(c: Config, section: string, key: string)
    requires Section(c, section).JObject?
    ensures Report(c, (section, key)) == Check(c, section, key)
  {
  }

  /** `Missing` of a list of fields: the first field's report, then the rest's. */
  lemma MissingUnfolds(c: Config, fields: seq<(string, string)>, k: nat)
    requires k < |fields|
    ensures Missing(c, fields[k..]) == Report(c, fields[k]) + Missing(c, fields[k + 1..])
  {
    assert fields[k..][1..] == fields[k + 1..];
  }

  /** Seven appends to an empty list give the right-nested concatenation. */
  lemma AppendsNest(a: seq<string>, b: seq<string>, c: seq<string>, d: seq<string>,
                    e: seq<string>, f: seq<string>, g: seq<string>)
    ensures [] + a + b + c + d + e + f + g == a + (b + (c + (d + (e + (f + g)))))
  {
    assert [] + a == a;
    assert a + b + c == a + (b + c);
    assert a + (b + c) + d == a + (b + c + d);
    assert b + c + d == b + (c + d);
    assert a + (b + (c + d)) + e == a + (b + (c + d + e));
    assert c + d + e == c + (d + e);
    assert a + (b + (c + (d + e))) + f == a + (b + (c + (d + e + f)));
    assert d + e + f == d + (e + f);
    assert a + (b + (c + (d + (e + f)))) + g == a + (b + (c + (d + (e + f + g))));
    assert e + f + g == e + (f + g);
  }

  /** `Missing` over seven fields, unfolded. */
  lemma MissingOfSeven(c: Config, f: seq<(string, string)>)
    requires |f| == 7
    ensures Missing(c, f) == Report(c, f[0]) + (Report(c, f[1]) + (Report(c, f[2]) + (Report(c, f[3])
      + (Report(c, f[4]) + (Report(c, f[5]) + Report(c, f[6]))))))
  {
    MissingUnfolds(c, f, 6);
    MissingUnfolds(c, f, 5);
    MissingUnfolds(c, f, 4);
    MissingUnfolds(c, f, 3);
    MissingUnfolds(c, f, 2);
    MissingUnfolds(c, f, 1);
    MissingUnfolds(c, f, 0);
    assert f[0..] == f;
    assert Missing(c, f[7..]) == [];
  }

  /** The appended list is exactly the reference list: the checks and their order agree. */
  lemma ValidateListsMissing(c: Config)
    requires Readable(c)
    ensures Validate(c) == Ok((Missing(c, Required) == [], Missing(c, Required)))
  {
    MissingOfSeven(c, Required);
    ReportIsCheck(c, "jira", "base_url");
    ReportIsCheck(c, "jira", "api_token");
    ReportIsCheck(c, "jira", "user_email");
    ReportIsCheck(c, "tempo", "api_token");
    ReportIsCheck(c, "solidtime", "base_url");
    ReportIsCheck(c, "solidtime", "api_token");
    ReportIsCheck(c, "solidtime", "organization_id");
    var e := Missing(c, Required);
    AppendsNest(Check(c, "jira", "base_url"), Check(c, "jira", "api_token"), Check(c, "jira", "user_email"),
      Check(c, "tempo", "api_token"), Check(c, "solidtime", "base_url"), Check(c, "solidtime", "api_token"),
      Check(c, "solidtime", "organization_id"));
    assert Validate(c) == Ok((|e| == 0, e));
  }

  /** The configuration is valid exactly when all seven required fields are truthy. */
  lemma ValidIffAllGiven(c: Config)
    requires Readable(c)
    ensures Validate(c).value.0 <==> forall i :: 0 <= i < |Required| ==> Known(c, Required[i])
    ensures !Validate(c).value.0 ==> Validate(c).value.1 != []
  {
    ValidateListsMissing(c);
    MissingEmpty(c, Required);
  }

  /** A missing section yields `{}`, so each of its required fields is reported, first. */
  lemma MissingSectionReported(c: Config)
    requires Readable(c) && "jira" !in c.data
    ensures |Validate(c).value.1| >= 3
    ensures Validate(c).value.1[..3] == [Message("jira", "base_url"), Message("jira", "api_token"),
                                        Message("jira", "user_email")]
  {
    var e := Check(c, "jira", "base_url") + Check(c, "jira", "api_token") + Check(c, "jira", "user_email");
    assert e == [Message("jira", "base_url"), Message("jira", "api_token"), Message("jira", "user_email")];
    ValidateListsMissing(c);
  }

  /** Nothing configured: all seven messages, in the checking order. */
  lemma EmptyConfigReportsAll()
    ensures Validate(Config(map[])) == Ok((false, [
      Message("jira", "base_url"), Message("jira", "api_token"), Message("jira", "user_email"),
      Message("tempo", "api_token"),
      Message("solidtime", "base_url"), Message("solidtime", "api_token"), Message("solidtime", "organization_id")]))
  {
    var c := Config(map[]);
    assert Readable(c);
    var e1 := [] + Check(c, "jira", "base_url");
    assert e1 == [Message("jira", "base_url")];
    var e2 := e1 + Check(c, "jira", "api_token");
    assert e2 == [Message("jira", "base_url"), Message("jira", "api_token")];
    var e3 := e2 + Check(c, "jira", "user_email");
    assert e3 == [Message("jira", "base_url"), Message("jira", "api_token"), Message("jira", "user_email")];
    var e4 := e3 + Check(c, "tempo", "api_token");
    assert e4 == [Message("jira", "base_url"), Message("jira", "api_token"), Message("jira", "user_email"),
      Message("tempo", "api_token")];
    var e5 := e4 + Check(c, "solidtime", "base_url");
    assert e5 == [Message("jira", "base_url"), Message("jira", "api_token"), Message("jira", "user_email"),
      Message("tempo", "api_token"), Message("solidtime", "base_url")];
    var e6 := e5 + Check(c, "solidtime", "api_token");
    assert e6 == [Message("jira", "base_url"), Message("jira", "api_token"), Message("jira", "user_email"),
      Message("tempo", "api_token"), Message("solidtime", "base_url"), Message("solidtime", "api_token")];
    var e7 := e6 + Check(c, "solidtime", "organization_id");
    assert e7 == [Message("jira", "base_url"), Message("jira", "api_token"), Message("jira", "user_email"),
      Message("tempo", "api_token"),
      Message("solidtime", "base_url"), Message("solidtime", "api_token"), Message("solidtime", "organization_id")];
    assert Validate(c) == Ok((|e7| == 0, e7));
  }
}
