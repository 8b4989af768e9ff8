/**
 From traffic to a spec and back (internal/spec): `Infer` folds records into an
 OpenAPI document, `Check` lints a document against records, and the two close
 the loop.
 */
module SpecCheck {
  import opened Json
  import opened Schemas
  import opened FieldPaths

  /** A stored record: the names in its query string, none if that does not parse; a
      body is None unless it parses as an object or an array. */
  datatype Record = Record(
    httpMethod: string,
    path: string,
    query: set<string>,
    request: Option<Json>,
    status: int,
    response: Option<Json>)

  /** The query parameters of an operation say whether they are required. */
  datatype Operation = Operation(
    query: map<string, bool>,
    request: Option<Schema>,
    responses: map<string, Option<Schema>>)

  type Paths = map<string, map<string, Operation>>

  /** The path functions of the package: the template of a concrete path, and the
      division of a path into segments. */
  datatype Routing = Routing(template: string -> string, split: string -> seq<string>)

  // --------------------------------------------------------------- strings

  function LowerChar(c: char): char {
    if 'A' <= c <= 'Z' then (c as int + 32) as char else c
  }

  function UpperChar(c: char): char {
    if 'a' <= c <= 'z' then (c as int - 32) as char else c
  }

  function Lower(s: string): string {
    seq(|s|, i requires 0 <= i < |s| => LowerChar(s[i]))
  }

  function Upper(s: string): string {
    seq(|s|, i requires 0 <= i < |s| => UpperChar(s[i]))
  }

  /** The spelling that `Check` looks for. */
  predicate UpperCase(s: string) {
    forall c | c in s :: !('a' <= c <= 'z')
  }

  lemma {:induction false} UpperLower(s: string)
    ensures Upper(Lower(s)) == Upper(s)
    ensures UpperCase(s) ==> Upper(s) == s
  {
    assert forall i | 0 <= i < |s| :: s[i] in s;
  }

  /** `strings.Cut` at the first blank. */
  function Cut(s: string): (string, string) {
    if s == "" then ("", "")
    else if s[0] == ' ' then ("", s[1..])
    else var (a, b) := Cut(s[1..]); ([s[0]] + a, b)
  }

  lemma {:induction false} CutJoined(a: string, b: string)
    requires ' ' !in a
    ensures Cut(a + (" " + b)) == (a, b)
  {
    if a == "" {
      assert a + (" " + b) == " " + b;
    } else {
      var s := a + (" " + b);
      assert s[1..] == a[1..] + (" " + b) && s[0] == a[0] && a[0] in a;
      assert [a[0]] + a[1..] == a;
      CutJoined(a[1..], b);
    }
  }

  function Itoa(n: int): string
    decreases if n < 0 then 1 - n else n
  {
    if n < 0 then "-" + Itoa(-n)
    else if n < 10 then [('0' as int + n) as char]
    else Itoa(n / 10) + [('0' as int + n % 10) as char]
  }

  /** Reading a decimal numeral. */
  function Decimal(s: string): int {
    if s == "" then 0 else 10 * Decimal(s[..|s| - 1]) + (s[|s| - 1] as int - '0' as int)
  }

  /** A status is written in decimal. */
  lemma {:induction false} ItoaIsDecimal(n: nat)
    ensures Decimal(Itoa(n)) == n && forall c | c in Itoa(n) :: '0' <= c <= '9'
  {
    if n >= 10 {
      ItoaIsDecimal(n / 10);
      assert Itoa(n)[..|Itoa(n)| - 1] == Itoa(n / 10);
    } else {
      assert Itoa(n)[..0] == "";
    }
  }

  lemma {:induction false} SuccessCodes(n: int)
    requires 200 <= n < 300
    ensures Itoa(n)[0] == '2'
  {
    assert 20 <= n / 10 < 30 && n / 10 / 10 == 2;
    assert Itoa(n / 10 / 10) == ['2'];
    assert Itoa(n / 10)[0] == '2';
  }

  // ----------------------------------------------------------------- infer

  /** What an operation has accumulated: its requests, how many of them carried each
      query parameter, and the schemas. */
  datatype OpAgg = OpAgg(
    count: nat,
    query: map<string, nat>,
    request: Option<Schema>,
    responses: map<string, Option<Schema>>)

  function Carrying(query: map<string, nat>, name: string): nat {
    if name in query then query[name] else 0
  }

  /** What one record adds to the operation it belongs to. */
  function Observe(agg: OpAgg, rec: Record): OpAgg {
    var status := Itoa(rec.status);
    OpAgg(
      agg.count + 1,
      map k | k in agg.query.Keys + rec.query :: Carrying(agg.query, k) + if k in rec.query then 1 else 0,
      if rec.request.Some? then Merge(agg.request, Some(SchemaOf(rec.request.value, 0))) else agg.request,
      if rec.response.Some? then
        agg.responses[status := Merge(if status in agg.responses then agg.responses[status] else None,
                                      Some(SchemaOf(rec.response.value, 0)))]
      else if rec.status != 0 && status !in agg.responses then agg.responses[status := None]
      else agg.responses)
  }

  function Finish(agg: OpAgg): Operation {
    Operation(
      map k | k in agg.query :: agg.query[k] == agg.count,
      agg.request,
      if agg.responses == map[] then map["default" := None] else agg.responses)
  }

  lemma FinishDocuments(agg: OpAgg)
    ensures Documents(Finish(agg), agg)
  {
    assert agg.responses == map[] ==> "default" in Finish(agg).responses;
  }

  const NO_OBSERVATIONS := OpAgg(0, map[], None, map[])

  /** `Inferrer`: one aggregate per path template and lower-case method. */
  class Inferrer {
    var ops: map<string, map<string, OpAgg>>

    constructor ()
      ensures ops == map[]
    {
      ops := map[];
    }

    method Add(routing: Routing, rec: Record)
      modifies this
      ensures ops == AddRecord(routing, old(ops), rec)
    {
      var path, m := routing.template(rec.path), Lower(rec.httpMethod);
      if path !in ops {
        ops := ops[path := map[]];
      }
      var agg := if m in ops[path] then ops[path][m] else NO_OBSERVATIONS;
      ops := ops[path := ops[path][m := Observe(agg, rec)]];
    }

    /** One operation per aggregate: its request schema, and the responses seen, or a
        `default` response when there was none. */
    method Spec() returns (out: Paths)
      ensures out == Finalize(ops)
      ensures forall path, m :: HasOperation(out, path, m) <==> path in ops && m in ops[path]
      ensures forall path, m | HasOperation(out, path, m) :: Documents(out[path][m], ops[path][m])
    {
      out := map[];
      var todo := ops.Keys;
      while todo != {}
        invariant todo <= ops.Keys
        invariant out == map path | path in ops.Keys - todo :: FinishAll(ops[path])
        decreases todo
      {
        var path :| path in todo;
        var operations := SpecPath(ops[path]);
        out, todo := out[path := operations], todo - {path};
      }
      assert out == Finalize(ops);
      forall path, m | HasOperation(out, path, m) ensures Documents(out[path][m], ops[path][m]) {
        FinishDocuments(ops[path][m]);
      }
    }

    /** The operations of one path. */
    method SpecPath(aggs: map<string, OpAgg>) returns (out: map<string, Operation>)
      ensures out == FinishAll(aggs)
    {
      out := map[];
      var todo := aggs.Keys;
      while todo != {}
        invariant todo <= aggs.Keys
        invariant out == map m | m in aggs.Keys - todo :: Finish(aggs[m])
        decreases todo
      {
        var m :| m in todo;
        var agg := aggs[m];
        var responses := agg.responses;
        if |responses| == 0 {
          responses := map["default" := None];
        }
        var query := map k | k in agg.query :: agg.query[k] == agg.count;
        out, todo := out[m := Operation(query, agg.request, responses)], todo - {m};
      }
    }
  }

  type Ops = map<string, map<string, OpAgg>>

  function AggAt(ops: Ops, path: string, m: string): OpAgg {
    if path in ops && m in ops[path] then ops[path][m] else NO_OBSERVATIONS
  }

  function AddRecord(routing: Routing, ops: Ops, rec: Record): Ops {
    var path, m := routing.template(rec.path), Lower(rec.httpMethod);
    ops[path := (if path in ops then ops[path] else map[])[m := Observe(AggAt(ops, path, m), rec)]]
  }

  function FinishAll(aggs: map<string, OpAgg>): map<string, Operation> {
    map m | m in aggs :: Finish(aggs[m])
  }

  function Finalize(ops: Ops): Paths {
    map path | path in ops :: FinishAll(ops[path])
  }

  ghost predicate HasOperation(spec: Paths, path: string, m: string) {
    path in spec && m in spec[path]
  }

  /** op says what agg has seen, and never says nothing about responses. */
  ghost predicate Documents(op: Operation, agg: OpAgg) {
    && op.query.Keys == agg.query.Keys && op.request == agg.request && op.responses != map[]
    && (forall status | status in agg.responses ::
          status in op.responses && op.responses[status] == agg.responses[status])
    && (forall status | status in op.responses && status !in agg.responses ::
          status == "default" && agg.responses == map[] && op.responses[status] == None)
  }

  function AddRecords(routing: Routing, records: seq<Record>): Ops {
    if records == [] then map[]
    else AddRecord(routing, AddRecords(routing, records[..|records| - 1]), records[|records| - 1])
  }

  method Infer(routing: Routing, records: seq<Record>) returns (out: Paths)
    ensures out == Finalize(AddRecords(routing, records))
  {
    var inf := new Inferrer();
    for i := 0 to |records|
      invariant inf.ops == AddRecords(routing, records[..i])
    {
      assert records[..i + 1][..i] == records[..i];
      inf.Add(routing, records[i]);
    }
    assert records[..|records|] == records;
    out := inf.Spec();
  }

  // --------------------------------- what the aggregate of an operation is

  predicate BelongsTo(routing: Routing, rec: Record, path: string, m: string) {
    routing.template(rec.path) == path && Lower(rec.httpMethod) == m
  }

  function RequestBodies(routing: Routing, records: seq<Record>, path: string, m: string): seq<Json> {
    if records == [] then []
    else
      var n := |records| - 1;
      RequestBodies(routing, records[..n], path, m) +
      if BelongsTo(routing, records[n], path, m) && records[n].request.Some? then [records[n].request.value] else []
  }

  function ResponseBodies(routing: Routing, records: seq<Record>, path: string, m: string, status: string): seq<Json> {
    if records == [] then []
    else
      var n := |records| - 1;
      ResponseBodies(routing, records[..n], path, m, status) +
      if BelongsTo(routing, records[n], path, m) && Itoa(records[n].status) == status && records[n].response.Some?
      then [records[n].response.value] else []
  }

  lemma {:induction false} FoldAppend(bodies: seq<Json>, v: Json)
    ensures FoldSchemas(bodies + [v]) == Merge(FoldSchemas(bodies), Some(SchemaOf(v, 0)))
  {
    assert (bodies + [v])[..|bodies|] == bodies;
  }

  lemma AggStep(routing: Routing, ops: Ops, rec: Record, path: string, m: string)
    ensures AggAt(AddRecord(routing, ops, rec), path, m) ==
            if BelongsTo(routing, rec, path, m) then Observe(AggAt(ops, path, m), rec) else AggAt(ops, path, m)
  {
  }

  /** An aggregate holds the folds of exactly the bodies of its operation. */
  lemma {:induction false} RequestAggregateIs(routing: Routing, records: seq<Record>, path: string, m: string)
    ensures AggAt(AddRecords(routing, records), path, m).request ==
            FoldSchemas(RequestBodies(routing, records, path, m))
    decreases |records|
  {
    if records != [] {
      var n := |records| - 1;
      var rec, bodies := records[n], RequestBodies(routing, records[..n], path, m);
      RequestAggregateIs(routing, records[..n], path, m);
      AggStep(routing, AddRecords(routing, records[..n]), rec, path, m);
      if rec.request.Some? { FoldAppend(bodies, rec.request.value); }
      assert bodies + [] == bodies;
    }
  }

  function ResponseAt(agg: OpAgg, status: string): Option<Schema> {
    if status in agg.responses then agg.responses[status] else None
  }

  lemma {:induction false} ResponseAggregateIs(routing: Routing, records: seq<Record>, path: string, m: string,
                                               status: string)
    ensures ResponseAt(AggAt(AddRecords(routing, records), path, m), status) ==
            FoldSchemas(ResponseBodies(routing, records, path, m, status))
    decreases |records|
  {
    if records != [] {
      var n := |records| - 1;
      var rec, bodies := records[n], ResponseBodies(routing, records[..n], path, m, status);
      ResponseAggregateIs(routing, records[..n], path, m, status);
      AggStep(routing, AddRecords(routing, records[..n]), rec, path, m);
      if rec.response.Some? { FoldAppend(bodies, rec.response.value); }
      assert bodies + [] == bodies;
    }
  }

  /** The operations are those some record belongs to. */
  lemma {:induction false} OperationsAre(routing: Routing, records: seq<Record>, path: string, m: string)
    ensures var ops := AddRecords(routing, records);
            (path in ops && m in ops[path]) <==> exists rec | rec in records :: BelongsTo(routing, rec, path, m)
    decreases |records|
  {
    if records != [] {
      var n := |records| - 1;
      OperationsAre(routing, records[..n], path, m);
      var before, last := AddRecords(routing, records[..n]), records[n];
      assert last in records && forall rec | rec in records[..n] :: rec in records;
      assert AddRecords(routing, records) == AddRecord(routing, before, last);
      if rec :| rec in records && BelongsTo(routing, rec, path, m) {
        assert rec == last || rec in records[..n];
      }
    }
  }

  /** A record shows a status by its body, or by a status code alone. */
  predicate ShowsStatus(rec: Record, status: string) {
    Itoa(rec.status) == status && (rec.response.Some? || rec.status != 0)
  }

  /** An operation has a response exactly for the statuses that its records show, with
      or without a body. */
  lemma {:induction false} StatusesAre(routing: Routing, records: seq<Record>, path: string, m: string, status: string)
    ensures status in AggAt(AddRecords(routing, records), path, m).responses <==>
            exists rec | rec in records :: BelongsTo(routing, rec, path, m) && ShowsStatus(rec, status)
    decreases |records|
  {
    if records != [] {
      var n := |records| - 1;
      var init, rec := records[..n], records[n];
      StatusesAre(routing, init, path, m, status);
      AggStep(routing, AddRecords(routing, init), rec, path, m);
      assert forall r :: r in records <==> r in init || r == rec;
    }
  }

  /** Some record of the operation carries the parameter. */
  ghost predicate CarriedBySome(routing: Routing, records: seq<Record>, path: string, m: string, name: string) {
    exists rec | rec in records :: BelongsTo(routing, rec, path, m) && name in rec.query
  }

  /** Every record of the operation carries it. */
  ghost predicate CarriedByAll(routing: Routing, records: seq<Record>, path: string, m: string, name: string) {
    forall rec | rec in records && BelongsTo(routing, rec, path, m) :: name in rec.query
  }

  lemma {:induction false} CarryingIs(routing: Routing, records: seq<Record>, path: string, m: string, name: string)
    ensures var agg := AggAt(AddRecords(routing, records), path, m);
            && (name in agg.query <==> CarriedBySome(routing, records, path, m, name))
            && (name in agg.query ==> agg.query[name] > 0)
            && Carrying(agg.query, name) <= agg.count
            && (Carrying(agg.query, name) == agg.count <==> CarriedByAll(routing, records, path, m, name))
    decreases |records|
  {
    if records != [] {
      var n := |records| - 1;
      var init, rec := records[..n], records[n];
      CarryingIs(routing, init, path, m, name);
      AggStep(routing, AddRecords(routing, init), rec, path, m);
      assert forall r :: r in records <==> r in init || r == rec;
    }
  }

  /** An inferred operation lists exactly the query parameters that its requests
      carried, and requires exactly those that all of them carried. */
  lemma {:induction false} QueryParametersAre(routing: Routing, records: seq<Record>, path: string, m: string,
                                              name: string)
    ensures var op := Finish(AggAt(AddRecords(routing, records), path, m));
            && (name in op.query <==> CarriedBySome(routing, records, path, m, name))
            && (name in op.query ==> (op.query[name] <==> CarriedByAll(routing, records, path, m, name)))
  {
    CarryingIs(routing, records, path, m, name);
  }

  // ----------------------------------------------------------------- check

  predicate IsParam(s: string) {
    s != "" && s[0] == '{' && s[|s| - 1] == '}'
  }

  predicate TemplateMatches(tmpl: seq<string>, segs: seq<string>) {
    |tmpl| == |segs| &&
    forall i | 0 <= i < |tmpl| ::
      IsParam(tmpl[i]) || IsParam(segs[i]) || (segs[i] != "" && segs[i][0] == ':') || tmpl[i] == segs[i]
  }

  /** segs is what tmpl stands for: each segment in braces replaced by anything. */
  predicate IsInstance(tmpl: seq<string>, segs: seq<string>) {
    |tmpl| == |segs| &&
    forall i | 0 <= i < |tmpl| ::
      segs[i] == tmpl[i] || (|tmpl[i]| >= 2 && tmpl[i][..1] == "{" && tmpl[i][|tmpl[i]| - 1..] == "}")
  }

  /** Neither in braces nor after a colon. */
  predicate Concrete(segs: seq<string>) {
    forall s | s in segs :: s == "" || (s[0] != ':' && !(s[0] == '{' && s[|s| - 1] == '}'))
  }

  /** A template matches every instance of it, and no other concrete path. */
  lemma {:induction false} TemplateMatchesInstances(tmpl: seq<string>, segs: seq<string>)
    ensures IsInstance(tmpl, segs) ==> TemplateMatches(tmpl, segs)
    ensures Concrete(segs) && TemplateMatches(tmpl, segs) ==> IsInstance(tmpl, segs)
  {
    assert forall i | 0 <= i < |segs| :: segs[i] in segs;
    assert forall s: string :: s == "{" || s == "" || (IsParam(s) <==> s[..1] == "{" && s[|s| - 1..] == "}");
  }

  /** A recorded path may show its parameters in braces or after a colon: either way they
      match anything the template has there. */
  lemma {:induction false} ParametersMatchAnything(tmpl: seq<string>, i: nat, name: string)
    requires i < |tmpl|
    ensures TemplateMatches(tmpl, tmpl[i := ":" + name]) && TemplateMatches(tmpl, tmpl[i := "{" + name + "}"])
  {
  }

  /** r is a result of `MatchPath`: the path itself when the spec has it, otherwise
      any template that matches, in no particular order. */
  ghost predicate IsMatch(routing: Routing, spec: Paths, path: string, r: Option<string>) {
    if path in spec then r == Some(path)
    else if r.Some? then r.value in spec && TemplateMatches(routing.split(r.value), routing.split(path))
    else forall t | t in spec :: !TemplateMatches(routing.split(t), routing.split(path))
  }

  method MatchPath(routing: Routing, spec: Paths, path: string) returns (r: Option<string>)
    ensures IsMatch(routing, spec, path, r)
  {
    if path in spec {
      return Some(path);
    }
    var todo := spec.Keys;
    while todo != {}
      invariant todo <= spec.Keys
      invariant forall t | t in spec.Keys - todo :: !TemplateMatches(routing.split(t), routing.split(path))
      decreases todo
    {
      var t :| t in todo;
      if TemplateMatches(routing.split(t), routing.split(path)) {
        return Some(t);
      }
      todo := todo - {t};
    }
    return None;
  }

  datatype Finding =
    | EndpointMissing(m: string, path: string)
    | RequestFieldMissing(m: string, path: string, field: string)
    | ResponseFieldUndocumented(m: string, path: string, field: string)
    | EndpointUnused(m: string, path: string)

  /** The fields an endpoint's traffic carries. */
  datatype Usage = Usage(request: set<string>, response: set<string>)

  function KeyOf(routing: Routing, rec: Record): string {
    rec.httpMethod + (" " + routing.template(rec.path))
  }

  predicate Success(status: int) {
    200 <= status < 300
  }

  function BodyFields(body: Option<Json>): set<string> {
    if body.Some? then JsonFields(body.value, "", 0) else {}
  }

  /** What the usage map of `Check` says about a key. */
  ghost predicate UsageIs(u: Usage, routing: Routing, records: seq<Record>, key: string) {
    && (forall f :: f in u.request <==>
          exists rec | rec in records :: KeyOf(routing, rec) == key && f in BodyFields(rec.request))
    && (forall f :: f in u.response <==>
          exists rec | rec in records ::
            KeyOf(routing, rec) == key && Success(rec.status) && f in BodyFields(rec.response))
  }

  ghost predicate ObservedUsage(observed: map<string, Usage>, routing: Routing, records: seq<Record>) {
    && (forall key :: key in observed <==> exists rec | rec in records :: KeyOf(routing, rec) == key)
    && (forall key | key in observed :: UsageIs(observed[key], routing, records, key))
  }

  method CollectUsage(routing: Routing, records: seq<Record>) returns (observed: map<string, Usage>)
    ensures ObservedUsage(observed, routing, records)
  {
    observed := map[];
    for i := 0 to |records|
      invariant ObservedUsage(observed, routing, records[..i])
    {
      var rec := records[i];
      var key := KeyOf(routing, rec);
      var u := if key in observed then observed[key] else Usage({}, {});
      var req, resp := u.request, u.response;
      if rec.request.Some? {
        req := WalkJsonFields(rec.request.value, "", req, 0);
      }
      if Success(rec.status) && rec.response.Some? {
        resp := WalkJsonFields(rec.response.value, "", resp, 0);
      }
      assert req == u.request + BodyFields(rec.request);
      assert resp == u.response + if Success(rec.status) then BodyFields(rec.response) else {};
      OneMoreUsage(observed, routing, records[..i], rec, Usage(req, resp));
      observed := observed[key := Usage(req, resp)];
      assert records[..i + 1] == records[..i] + [rec];
    }
    assert records[..|records|] == records;
  }

  lemma {:induction false} OneMoreUsage(observed: map<string, Usage>, routing: Routing, records: seq<Record>,
                                        rec: Record, u': Usage)
    requires ObservedUsage(observed, routing, records)
    requires var key := KeyOf(routing, rec);
             var u := if key in observed then observed[key] else Usage({}, {});
             u' == Usage(u.request + BodyFields(rec.request),
                         u.response + if Success(rec.status) then BodyFields(rec.response) else {})
    ensures ObservedUsage(observed[KeyOf(routing, rec) := u'], routing, records + [rec])
  {
    var all, now := records + [rec], observed[KeyOf(routing, rec) := u'];
    assert forall r :: r in all <==> r in records || r == rec;
    forall key | key in now ensures UsageIs(now[key], routing, all, key) {
      UsageGrows(observed, routing, records, rec, u', key);
    }
  }

  lemma {:induction false} UsageGrows(observed: map<string, Usage>, routing: Routing, records: seq<Record>,
                                      rec: Record, u': Usage, key: string)
    requires ObservedUsage(observed, routing, records)
    requires var key := KeyOf(routing, rec);
             var u := if key in observed then observed[key] else Usage({}, {});
             u' == Usage(u.request + BodyFields(rec.request),
                         u.response + if Success(rec.status) then BodyFields(rec.response) else {})
    requires key in observed || key == KeyOf(routing, rec)
    ensures UsageIs(observed[KeyOf(routing, rec) := u'][key], routing, records + [rec], key)
  {
    var all := records + [rec];
    assert forall r :: r in all <==> r in records || r == rec;
    assert rec in all;
  }

  /** `lastCut`: the path above the last separator, if there is one. */
  function Parent(f: string): Option<string> {
    if f == "" then None
    else if f[|f| - 1] == '.' then Some(f[..|f| - 1])
    else Parent(f[..|f| - 1])
  }

  /** The fields `fieldFindings` reports: the missing ones, without the children of
      fields that are used and missing themselves. */
  function Reported(used: set<string>, spec: set<string>): set<string> {
    set f | f in used && f !in spec &&
            !(Parent(f).Some? && Parent(f).value !in spec && Parent(f).value in used)
  }

  lemma {:induction false} ParentShorter(f: string)
    ensures Parent(f).Some? ==> |Parent(f).value| < |f|
  {
    if f != "" && f[|f| - 1] != '.' { ParentShorter(f[..|f| - 1]); }
  }

  lemma {:induction false} MissingIsReported(used: set<string>, spec: set<string>, f: string)
    requires f in used && f !in spec
    ensures Reported(used, spec) != {}
    decreases |f|
  {
    ParentShorter(f);
    if f !in Reported(used, spec) {
      MissingIsReported(used, spec, Parent(f).value);
    }
  }

  /** Suppressing children never suppresses everything. */
  lemma {:induction false} ReportedEmpty(used: set<string>, spec: set<string>)
    ensures Reported(used, spec) == {} <==> used <= spec
  {
    if !(used <= spec) {
      var f :| f in used && f !in spec;
      MissingIsReported(used, spec, f);
    }
  }

  predicate Documented(status: string) {
    (status != "" && status[0] == '2') || status == "default"
  }

  function ResponseFields(c: Components, op: Operation): set<string> {
    set status, f | status in op.responses && Documented(status) &&
                    f in SchemaFields(c, op.responses[status], "", 0) :: f
  }

  function OperationFor(spec: Paths, match': Option<string>, m: string): Option<Operation> {
    if match'.Some? && match'.value in spec && Lower(m) in spec[match'.value] then Some(spec[match'.value][Lower(m)])
    else None
  }

  /** The findings for one observed endpoint. */
  function EndpointFindings(c: Components, spec: Paths, key: string, u: Usage, found: Option<string>): set<Finding> {
    var (m, path) := Cut(key);
    var op := OperationFor(spec, found, m);
    if op.None? then {EndpointMissing(m, path)}
    else
      var req := SchemaFields(c, op.value.request, "", 0);
      var resp := ResponseFields(c, op.value);
      (set f | f in Reported(u.request, req) :: RequestFieldMissing(m, found.value, f)) +
      (if resp == {} then {}
       else set f | f in Reported(u.response, resp) :: ResponseFieldUndocumented(m, found.value, f))
  }

  predicate Seen(routing: Routing, observed: set<string>, tmpl: string, m: string) {
    exists key | key in observed ::
      Cut(key).0 == Upper(m) && TemplateMatches(routing.split(tmpl), routing.split(Cut(key).1))
  }

  function UnusedFindings(routing: Routing, spec: Paths, observed: set<string>): set<Finding> {
    set tmpl, m | tmpl in spec && m in spec[tmpl] && !Seen(routing, observed, tmpl, m) :: EndpointUnused(Upper(m), tmpl)
  }

  ghost function FindingsFor(c: Components, spec: Paths, observed: map<string, Usage>,
                             chosen: map<string, Option<string>>, keys: set<string>): set<Finding>
  {
    set key, x | key in keys && key in observed && key in chosen &&
                 x in EndpointFindings(c, spec, key, observed[key], chosen[key]) :: x
  }

  lemma {:induction false} OneMoreKey(c: Components, spec: Paths, observed: map<string, Usage>,
                   chosen: map<string, Option<string>>, keys: set<string>, key: string, found: Option<string>)
    requires key in observed && key !in keys
    ensures FindingsFor(c, spec, observed, chosen[key := found], keys + {key}) ==
            FindingsFor(c, spec, observed, chosen, keys) + EndpointFindings(c, spec, key, observed[key], found)
  {
    var now := chosen[key := found];
    forall x | x in FindingsFor(c, spec, observed, now, keys + {key})
      ensures x in FindingsFor(c, spec, observed, chosen, keys) + EndpointFindings(c, spec, key, observed[key], found)
    {
      var k :| k in keys + {key} && k in observed && k in now && x in EndpointFindings(c, spec, k, observed[k], now[k]);
      assert k != key ==> k in keys && k in chosen && x in EndpointFindings(c, spec, k, observed[k], chosen[k]);
    }
    forall x | x in FindingsFor(c, spec, observed, chosen, keys)
      ensures x in FindingsFor(c, spec, observed, now, keys + {key})
    {
      var k :| k in keys && k in observed && k in chosen && x in EndpointFindings(c, spec, k, observed[k], chosen[k]);
      assert k in keys + {key} && k in now && x in EndpointFindings(c, spec, k, observed[k], now[k]);
    }
    forall x | x in EndpointFindings(c, spec, key, observed[key], found)
      ensures x in FindingsFor(c, spec, observed, now, keys + {key})
    {
      assert key in keys + {key} && key in now && x in EndpointFindings(c, spec, key, observed[key], now[key]);
    }
  }

  /** Everything `Check` reports, given the template it picked for each key. */
  ghost function AllFindings(routing: Routing, c: Components, spec: Paths, observed: map<string, Usage>,
                             chosen: map<string, Option<string>>): set<Finding>
  {
    FindingsFor(c, spec, observed, chosen, observed.Keys) + UnusedFindings(routing, spec, observed.Keys)
  }

  ghost predicate ChosenByMatch(routing: Routing, spec: Paths, observed: set<string>,
                                chosen: map<string, Option<string>>) {
    observed <= chosen.Keys && forall key | key in observed :: IsMatch(routing, spec, Cut(key).1, chosen[key])
  }

  /** findings is a result of `Check`: what the records use determines it, up to
      the templates that `MatchPath` happens to pick. */
  ghost predicate CanReport(routing: Routing, c: Components, spec: Paths, records: seq<Record>,
                            findings: set<Finding>) {
    exists observed, chosen ::
      && ObservedUsage(observed, routing, records)
      && ChosenByMatch(routing, spec, observed.Keys, chosen)
      && findings == AllFindings(routing, c, spec, observed, chosen)
  }

  /** findings is what the endpoints in use give under some choice of templates. */
  ghost predicate CanFind(routing: Routing, c: Components, spec: Paths, usage: map<string, Usage>,
                          findings: set<Finding>) {
    exists chosen :: ChosenByMatch(routing, spec, usage.Keys, chosen) &&
                     findings == FindingsFor(c, spec, usage, chosen, usage.Keys)
  }

  method Check(routing: Routing, c: Components, spec: Paths, records: seq<Record>) returns (findings: set<Finding>)
    ensures CanReport(routing, c, spec, records, findings)
    ensures exists chosen :: Picks(routing, spec, records, chosen) &&
                             ReportIs(routing, c, spec, records, findings, chosen)
  {
    var usage := CollectUsage(routing, records);
    var missing := CheckEndpoints(routing, c, spec, usage);
    ghost var chosen :| ChosenByMatch(routing, spec, usage.Keys, chosen) &&
                        missing == FindingsFor(c, spec, usage, chosen, usage.Keys);
    findings := missing + UnusedFindings(routing, spec, usage.Keys);
    assert findings == AllFindings(routing, c, spec, usage, chosen);
    FindingsMean(routing, c, spec, records, findings);
  }

  method CheckEndpoints(routing: Routing, c: Components, spec: Paths, usage: map<string, Usage>)
    returns (findings: set<Finding>)
    ensures CanFind(routing, c, spec, usage, findings)
  {
    ghost var chosen: map<string, Option<string>> := map[];
    findings := {};
    var todo := usage.Keys;
    assert usage.Keys - todo == {};
    while todo != {}
      invariant todo <= usage.Keys
      invariant ChosenByMatch(routing, spec, usage.Keys - todo, chosen)
      invariant findings == FindingsFor(c, spec, usage, chosen, usage.Keys - todo)
      decreases todo
    {
      var key :| key in todo;
      var found := MatchPath(routing, spec, Cut(key).1);
      OneMoreKey(c, spec, usage, chosen, usage.Keys - todo, key, found);
      OneMoreChosen(routing, spec, usage.Keys - todo, chosen, key, found);
      assert usage.Keys - (todo - {key}) == usage.Keys - todo + {key};
      findings := findings + EndpointFindings(c, spec, key, usage[key], found);
      chosen := chosen[key := found];
      todo := todo - {key};
    }
    assert usage.Keys - todo == usage.Keys;
  }

  lemma OneMoreChosen(routing: Routing, spec: Paths, keys: set<string>, chosen: map<string, Option<string>>,
                      key: string, found: Option<string>)
    requires ChosenByMatch(routing, spec, keys, chosen) && IsMatch(routing, spec, Cut(key).1, found)
    ensures ChosenByMatch(routing, spec, keys + {key}, chosen[key := found])
  {
  }

  // ------------------------------------------------- what the findings mean

  ghost predicate Observes(routing: Routing, records: seq<Record>, key: string) {
    exists rec | rec in records :: KeyOf(routing, rec) == key
  }

  /** Some request of this endpoint carries the field. */
  ghost predicate Sent(routing: Routing, records: seq<Record>, key: string, f: string) {
    exists rec | rec in records :: KeyOf(routing, rec) == key && f in BodyFields(rec.request)
  }

  /** Some response of it with a status of 200 to 299 does. */
  ghost predicate Returned(routing: Routing, records: seq<Record>, key: string, f: string) {
    exists rec | rec in records ::
      KeyOf(routing, rec) == key && 200 <= rec.status < 300 && f in BodyFields(rec.response)
  }

  /** The template that was picked has the operation. */
  predicate HasOp(spec: Paths, found: Option<string>, m: string) {
    found.Some? && found.value in spec && Lower(m) in spec[found.value]
  }

  ghost predicate RequestDocuments(c: Components, op: Operation, f: string) {
    f in SchemaFields(c, op.request, "", 0)
  }

  /** Some 2xx or default response documents the field. */
  ghost predicate ResponseDocuments(c: Components, op: Operation, f: string) {
    exists status | status in op.responses ::
      ((status != "" && status[0] == '2') || status == "default") && f in SchemaFields(c, op.responses[status], "", 0)
  }

  /** p is the path of f without its last name. */
  ghost predicate IsParent(p: string, f: string) {
    exists last: string :: '.' !in last && f == p + ("." + last)
  }

  lemma {:induction false} ParentIs(f: string, p: string)
    ensures Parent(f) == Some(p) <==> IsParent(p, f)
  {
    if f != "" {
      var n := |f| - 1;
      ParentIs(f[..n], p);
      if f[n] == '.' {
        if IsParent(p, f) {
          var last: string :| '.' !in last && f == p + ("." + last);
          assert f[n] == ("." + last)[|last|];
          assert f[..n] == p;
        }
        assert f == f[..n] + ("." + "");
      } else {
        if IsParent(p, f) {
          var last: string :| '.' !in last && f == p + ("." + last);
          assert f[n] == ("." + last)[|last|];
          assert last != "" && f[..n] == p + ("." + last[..|last| - 1]);
        }
        if IsParent(p, f[..n]) {
          var last: string :| '.' !in last && f[..n] == p + ("." + last);
          assert f == p + ("." + (last + [f[n]]));
        }
      }
    }
  }

  /** A field that is used and not documented is reported, unless its parent is one too. */
  lemma {:induction false} ReportedIs(used: set<string>, spec: set<string>, f: string)
    ensures f in Reported(used, spec) <==>
            f in used && f !in spec && !exists p :: IsParent(p, f) && p in used && p !in spec
  {
    if Parent(f).Some? { ParentIs(f, Parent(f).value); }
    if p :| IsParent(p, f) && p in used && p !in spec { ParentIs(f, p); }
  }

  ghost predicate Picks(routing: Routing, spec: Paths, records: seq<Record>, chosen: map<string, Option<string>>) {
    forall key | Observes(routing, records, key) ::
      key in chosen && IsMatch(routing, spec, Cut(key).1, chosen[key])
  }

  ghost predicate RequestFieldLacking(routing: Routing, c: Components, spec: Paths, records: seq<Record>,
                                      key: string, t: string, f: string)
  {
    var m := Cut(key).0;
    HasOp(spec, Some(t), m) && Sent(routing, records, key, f) && !RequestDocuments(c, spec[t][Lower(m)], f)
  }

  ghost predicate ResponseFieldLacking(routing: Routing, c: Components, spec: Paths, records: seq<Record>,
                                       key: string, t: string, f: string)
  {
    var m := Cut(key).0;
    HasOp(spec, Some(t), m) && Returned(routing, records, key, f) && !ResponseDocuments(c, spec[t][Lower(m)], f)
  }

  // When each kind of finding is due, for the templates chosen.

  /** An endpoint in use, of method m and under template t, sends a field that the
      operation lacks, and the field's parent is not such a field itself. */
  ghost predicate RequestDue(routing: Routing, c: Components, spec: Paths, records: seq<Record>,
                             chosen: map<string, Option<string>>, m: string, t: string, f: string)
  {
    exists key | Observes(routing, records, key) && key in chosen ::
      && chosen[key] == Some(t) && Cut(key).0 == m
      && RequestFieldLacking(routing, c, spec, records, key, t, f)
      && !exists p :: IsParent(p, f) && RequestFieldLacking(routing, c, spec, records, key, t, p)
  }

  /** The same for successful responses, provided that some response field is documented. */
  ghost predicate ResponseDue(routing: Routing, c: Components, spec: Paths, records: seq<Record>,
                              chosen: map<string, Option<string>>, m: string, t: string, f: string)
  {
    exists key | Observes(routing, records, key) && key in chosen ::
      && chosen[key] == Some(t) && Cut(key).0 == m
      && ResponseFieldLacking(routing, c, spec, records, key, t, f)
      && (exists g :: ResponseDocuments(c, spec[t][Lower(m)], g))
      && !exists p :: IsParent(p, f) && ResponseFieldLacking(routing, c, spec, records, key, t, p)
  }

  /** An endpoint in use has no operation under the template chosen for it. */
  ghost predicate MissingDue(routing: Routing, spec: Paths, records: seq<Record>,
                             chosen: map<string, Option<string>>, m: string, path: string)
  {
    exists key | Observes(routing, records, key) && key in chosen ::
      Cut(key) == (m, path) && !HasOp(spec, chosen[key], m)
  }

  /** No endpoint in use has this upper-case method and a path that the template matches. */
  ghost predicate UnusedDue(routing: Routing, spec: Paths, records: seq<Record>, u: string, t: string) {
    exists m | HasOperation(spec, t, m) ::
      Upper(m) == u && !exists key :: Observes(routing, records, key) && Cut(key).0 == u &&
                                      TemplateMatches(routing.split(t), routing.split(Cut(key).1))
  }

  /** The findings, each exactly when it is due. */
  ghost predicate ReportIs(routing: Routing, c: Components, spec: Paths, records: seq<Record>,
                           findings: set<Finding>, chosen: map<string, Option<string>>)
  {
    && (forall m, t, f :: RequestFieldMissing(m, t, f) in findings <==>
          RequestDue(routing, c, spec, records, chosen, m, t, f))
    && (forall m, t, f :: ResponseFieldUndocumented(m, t, f) in findings <==>
          ResponseDue(routing, c, spec, records, chosen, m, t, f))
    && (forall m, path :: EndpointMissing(m, path) in findings <==>
          MissingDue(routing, spec, records, chosen, m, path))
    && (forall u, t :: EndpointUnused(u, t) in findings <==> UnusedDue(routing, spec, records, u, t))
  }

  // What one observed endpoint contributes, kind by kind.

  lemma {:induction false} RequestFindings(c: Components, spec: Paths, key: string, u: Usage, found: Option<string>,
                                           m: string, t: string, f: string)
    ensures RequestFieldMissing(m, t, f) in EndpointFindings(c, spec, key, u, found) <==>
            && Cut(key).0 == m && found == Some(t) && HasOp(spec, found, m)
            && f in Reported(u.request, SchemaFields(c, spec[t][Lower(m)].request, "", 0))
  {
  }

  lemma {:induction false} ResponseFindings(c: Components, spec: Paths, key: string, u: Usage, found: Option<string>,
                                            m: string, t: string, f: string)
    ensures ResponseFieldUndocumented(m, t, f) in EndpointFindings(c, spec, key, u, found) <==>
            && Cut(key).0 == m && found == Some(t) && HasOp(spec, found, m)
            && ResponseFields(c, spec[t][Lower(m)]) != {}
            && f in Reported(u.response, ResponseFields(c, spec[t][Lower(m)]))
  {
  }

  lemma {:induction false} MissingFindings(c: Components, spec: Paths, key: string, u: Usage, found: Option<string>,
                                           m: string, path: string)
    ensures EndpointMissing(m, path) in EndpointFindings(c, spec, key, u, found) <==>
            Cut(key) == (m, path) && !HasOp(spec, found, m)
    ensures forall t :: EndpointUnused(m, t) !in EndpointFindings(c, spec, key, u, found)
  {
  }

  lemma {:induction false} ResponseFieldsMean(c: Components, op: Operation)
    ensures forall f :: f in ResponseFields(c, op) <==> ResponseDocuments(c, op, f)
  {
  }

  /** The fields of one endpoint that are missing, and which of them are reported. */
  lemma {:induction false} RequestLackingIs(routing: Routing, c: Components, spec: Paths, records: seq<Record>,
                                            key: string, u: Usage, t: string, f: string)
    requires UsageIs(u, routing, records, key) && HasOp(spec, Some(t), Cut(key).0)
    ensures f in Reported(u.request, SchemaFields(c, spec[t][Lower(Cut(key).0)].request, "", 0)) <==>
            && RequestFieldLacking(routing, c, spec, records, key, t, f)
            && !exists p :: IsParent(p, f) && RequestFieldLacking(routing, c, spec, records, key, t, p)
  {
    var fields := SchemaFields(c, spec[t][Lower(Cut(key).0)].request, "", 0);
    ReportedIs(u.request, fields, f);
    assert forall g :: RequestFieldLacking(routing, c, spec, records, key, t, g) <==> g in u.request && g !in fields;
  }

  lemma {:induction false} ResponseLackingIs(routing: Routing, c: Components, spec: Paths, records: seq<Record>,
                                             key: string, u: Usage, t: string, f: string)
    requires UsageIs(u, routing, records, key) && HasOp(spec, Some(t), Cut(key).0)
    ensures f in Reported(u.response, ResponseFields(c, spec[t][Lower(Cut(key).0)])) <==>
            && ResponseFieldLacking(routing, c, spec, records, key, t, f)
            && !exists p :: IsParent(p, f) && ResponseFieldLacking(routing, c, spec, records, key, t, p)
  {
    var op := spec[t][Lower(Cut(key).0)];
    var fields := ResponseFields(c, op);
    ReportedIs(u.response, fields, f);
    ResponseFieldsMean(c, op);
    assert forall g :: ResponseFieldLacking(routing, c, spec, records, key, t, g) <==> g in u.response && g !in fields;
  }

  lemma {:induction false} EndpointRequest(routing: Routing, c: Components, spec: Paths, records: seq<Record>,
                                           key: string, u: Usage, found: Option<string>,
                                           m: string, t: string, f: string)
    requires UsageIs(u, routing, records, key)
    ensures RequestFieldMissing(m, t, f) in EndpointFindings(c, spec, key, u, found) <==>
            && found == Some(t) && Cut(key).0 == m
            && RequestFieldLacking(routing, c, spec, records, key, t, f)
            && !exists p :: IsParent(p, f) && RequestFieldLacking(routing, c, spec, records, key, t, p)
  {
    RequestFindings(c, spec, key, u, found, m, t, f);
    if HasOp(spec, Some(t), Cut(key).0) { RequestLackingIs(routing, c, spec, records, key, u, t, f); }
  }

  lemma {:induction false} EndpointResponse(routing: Routing, c: Components, spec: Paths, records: seq<Record>,
                                            key: string, u: Usage, found: Option<string>,
                                           m: string, t: string, f: string)
    requires UsageIs(u, routing, records, key)
    ensures ResponseFieldUndocumented(m, t, f) in EndpointFindings(c, spec, key, u, found) <==>
            && found == Some(t) && Cut(key).0 == m
            && ResponseFieldLacking(routing, c, spec, records, key, t, f)
            && (exists g :: ResponseDocuments(c, spec[t][Lower(m)], g))
            && !exists p :: IsParent(p, f) && ResponseFieldLacking(routing, c, spec, records, key, t, p)
  {
    ResponseFindings(c, spec, key, u, found, m, t, f);
    if HasOp(spec, Some(t), Cut(key).0) {
      ResponseLackingIs(routing, c, spec, records, key, u, t, f);
      SomethingDocumented(c, spec[t][Lower(Cut(key).0)]);
    }
  }

  lemma {:induction false} SomethingDocumented(c: Components, op: Operation)
    ensures ResponseFields(c, op) != {} <==> exists g :: ResponseDocuments(c, op, g)
  {
    ResponseFieldsMean(c, op);
    if ResponseFields(c, op) != {} {
      var g :| g in ResponseFields(c, op);
      assert ResponseDocuments(c, op, g);
    }
  }

  lemma FindingsCollected(c: Components, spec: Paths, observed: map<string, Usage>,
                          chosen: map<string, Option<string>>, x: Finding)
    ensures x in FindingsFor(c, spec, observed, chosen, observed.Keys) <==>
            exists key | key in observed && key in chosen ::
              x in EndpointFindings(c, spec, key, observed[key], chosen[key])
  {
  }

  lemma {:induction false} UnusedMean(routing: Routing, spec: Paths, observed: set<string>, u: string, t: string)
    ensures EndpointUnused(u, t) in UnusedFindings(routing, spec, observed) <==>
            exists m | HasOperation(spec, t, m) ::
              Upper(m) == u && !exists key :: key in observed && Cut(key).0 == u &&
                                              TemplateMatches(routing.split(t), routing.split(Cut(key).1))
  {
    if m :| HasOperation(spec, t, m) && Upper(m) == u && !Seen(routing, observed, t, m) {
      assert EndpointUnused(u, t) in UnusedFindings(routing, spec, observed);
    }
    if EndpointUnused(u, t) in UnusedFindings(routing, spec, observed) {
      var m :| t in spec && m in spec[t] && !Seen(routing, observed, t, m) && Upper(m) == u;
      assert HasOperation(spec, t, m);
    }
  }

  lemma {:induction false} RequestClause(routing: Routing, c: Components, spec: Paths, records: seq<Record>,
                                         observed: map<string, Usage>, chosen: map<string, Option<string>>,
                                         m: string, t: string, f: string)
    requires ObservedUsage(observed, routing, records)
    ensures RequestFieldMissing(m, t, f) in AllFindings(routing, c, spec, observed, chosen) <==>
            RequestDue(routing, c, spec, records, chosen, m, t, f)
  {
    FindingsCollected(c, spec, observed, chosen, RequestFieldMissing(m, t, f));
    forall key | key in observed && key in chosen
      ensures RequestFieldMissing(m, t, f) in EndpointFindings(c, spec, key, observed[key], chosen[key]) <==>
              && chosen[key] == Some(t) && Cut(key).0 == m
              && RequestFieldLacking(routing, c, spec, records, key, t, f)
              && !exists p :: IsParent(p, f) && RequestFieldLacking(routing, c, spec, records, key, t, p)
    {
      EndpointRequest(routing, c, spec, records, key, observed[key], chosen[key], m, t, f);
    }
    assert forall key :: key in observed <==> Observes(routing, records, key);
  }

  lemma {:induction false} ResponseClause(routing: Routing, c: Components, spec: Paths, records: seq<Record>,
                                          observed: map<string, Usage>, chosen: map<string, Option<string>>,
                                          m: string, t: string, f: string)
    requires ObservedUsage(observed, routing, records)
    ensures ResponseFieldUndocumented(m, t, f) in AllFindings(routing, c, spec, observed, chosen) <==>
            ResponseDue(routing, c, spec, records, chosen, m, t, f)
  {
    FindingsCollected(c, spec, observed, chosen, ResponseFieldUndocumented(m, t, f));
    forall key | key in observed && key in chosen
      ensures ResponseFieldUndocumented(m, t, f) in EndpointFindings(c, spec, key, observed[key], chosen[key]) <==>
              && chosen[key] == Some(t) && Cut(key).0 == m
              && ResponseFieldLacking(routing, c, spec, records, key, t, f)
              && (exists g :: ResponseDocuments(c, spec[t][Lower(m)], g))
              && !exists p :: IsParent(p, f) && ResponseFieldLacking(routing, c, spec, records, key, t, p)
    {
      EndpointResponse(routing, c, spec, records, key, observed[key], chosen[key], m, t, f);
    }
    assert forall key :: key in observed <==> Observes(routing, records, key);
  }

  lemma {:induction false} MissingClause(routing: Routing, c: Components, spec: Paths, records: seq<Record>,
                                         observed: map<string, Usage>, chosen: map<string, Option<string>>,
                                         m: string, path: string)
    requires ObservedUsage(observed, routing, records)
    ensures EndpointMissing(m, path) in AllFindings(routing, c, spec, observed, chosen) <==>
            MissingDue(routing, spec, records, chosen, m, path)
  {
    FindingsCollected(c, spec, observed, chosen, EndpointMissing(m, path));
    forall key | key in observed && key in chosen
      ensures EndpointMissing(m, path) in EndpointFindings(c, spec, key, observed[key], chosen[key]) <==>
              Cut(key) == (m, path) && !HasOp(spec, chosen[key], m)
    {
      MissingFindings(c, spec, key, observed[key], chosen[key], m, path);
    }
    assert forall key :: key in observed <==> Observes(routing, records, key);
  }

  lemma {:induction false} UnusedClause(routing: Routing, c: Components, spec: Paths, records: seq<Record>,
                                        observed: map<string, Usage>, chosen: map<string, Option<string>>,
                                        u: string, t: string)
    requires ObservedUsage(observed, routing, records)
    ensures EndpointUnused(u, t) in AllFindings(routing, c, spec, observed, chosen) <==>
            UnusedDue(routing, spec, records, u, t)
  {
    FindingsCollected(c, spec, observed, chosen, EndpointUnused(u, t));
    forall key | key in observed && key in chosen
      ensures EndpointUnused(u, t) !in EndpointFindings(c, spec, key, observed[key], chosen[key])
    {
      MissingFindings(c, spec, key, observed[key], chosen[key], u, t);
    }
    UnusedMean(routing, spec, observed.Keys, u, t);
    assert forall key :: key in observed <==> Observes(routing, records, key);
  }

  /** Whatever `Check` reports, on any spec and any traffic, is exactly this, for some
      templates that `MatchPath` allows. */
  lemma {:induction false} FindingsMean(routing: Routing, c: Components, spec: Paths, records: seq<Record>,
                                        findings: set<Finding>)
    requires CanReport(routing, c, spec, records, findings)
    ensures exists chosen :: Picks(routing, spec, records, chosen) &&
                             ReportIs(routing, c, spec, records, findings, chosen)
  {
    var observed, chosen :|
      && ObservedUsage(observed, routing, records)
      && ChosenByMatch(routing, spec, observed.Keys, chosen)
      && findings == AllFindings(routing, c, spec, observed, chosen);
    ReportFollows(routing, c, spec, records, observed, chosen);
  }

  lemma {:induction false} ReportFollows(routing: Routing, c: Components, spec: Paths, records: seq<Record>,
                                         observed: map<string, Usage>, chosen: map<string, Option<string>>)
    requires ObservedUsage(observed, routing, records)
    requires ChosenByMatch(routing, spec, observed.Keys, chosen)
    ensures Picks(routing, spec, records, chosen)
    ensures ReportIs(routing, c, spec, records, AllFindings(routing, c, spec, observed, chosen), chosen)
  {
    var all := AllFindings(routing, c, spec, observed, chosen);
    forall m, t, f
      ensures RequestFieldMissing(m, t, f) in all <==> RequestDue(routing, c, spec, records, chosen, m, t, f)
    {
      RequestClause(routing, c, spec, records, observed, chosen, m, t, f);
    }
    forall m, t, f
      ensures ResponseFieldUndocumented(m, t, f) in all <==> ResponseDue(routing, c, spec, records, chosen, m, t, f)
    {
      ResponseClause(routing, c, spec, records, observed, chosen, m, t, f);
    }
    forall m, path ensures EndpointMissing(m, path) in all <==> MissingDue(routing, spec, records, chosen, m, path) {
      MissingClause(routing, c, spec, records, observed, chosen, m, path);
    }
    forall u, t ensures EndpointUnused(u, t) in all <==> UnusedDue(routing, spec, records, u, t) {
      UnusedClause(routing, c, spec, records, observed, chosen, u, t);
    }
  }

  /** The findings that fail a build: `HasBreaking`. */
  predicate Breaking(x: Finding) {
    x.EndpointMissing? || x.RequestFieldMissing?
  }

  /** Some endpoint in use has no operation, or sends a field that the operation lacks. */
  ghost predicate BreaksSomeone(routing: Routing, c: Components, spec: Paths, records: seq<Record>,
                                chosen: map<string, Option<string>>)
  {
    exists key | Observes(routing, records, key) && key in chosen ::
      !HasOp(spec, chosen[key], Cut(key).0) ||
      exists f :: RequestFieldLacking(routing, c, spec, records, key, chosen[key].value, f)
  }

  /** Of the fields an endpoint lacks, one whose parent is not lacking is due. */
  lemma {:induction false} LackingIsDue(routing: Routing, c: Components, spec: Paths, records: seq<Record>,
                                        chosen: map<string, Option<string>>, key: string, t: string, f: string)
    returns (g: string)
    requires Observes(routing, records, key) && key in chosen && chosen[key] == Some(t)
    requires RequestFieldLacking(routing, c, spec, records, key, t, f)
    ensures RequestDue(routing, c, spec, records, chosen, Cut(key).0, t, g)
    decreases |f|
  {
    if p :| IsParent(p, f) && RequestFieldLacking(routing, c, spec, records, key, t, p) {
      g := LackingIsDue(routing, c, spec, records, chosen, key, t, p);
    } else {
      g := f;
    }
  }

  /** A report has a breaking finding if and only if the spec breaks someone: hiding the
      children of missing fields hides no break. */
  lemma {:induction false} BreakingIff(routing: Routing, c: Components, spec: Paths, records: seq<Record>,
                                       findings: set<Finding>, chosen: map<string, Option<string>>)
    requires ReportIs(routing, c, spec, records, findings, chosen)
    ensures (exists x | x in findings :: Breaking(x)) <==> BreaksSomeone(routing, c, spec, records, chosen)
  {
    if key :| Observes(routing, records, key) && key in chosen &&
              (!HasOp(spec, chosen[key], Cut(key).0) ||
               exists f :: RequestFieldLacking(routing, c, spec, records, key, chosen[key].value, f)) {
      var (m, path) := Cut(key);
      if !HasOp(spec, chosen[key], m) {
        assert EndpointMissing(m, path) in findings;
      } else {
        var f :| RequestFieldLacking(routing, c, spec, records, key, chosen[key].value, f);
        var g := LackingIsDue(routing, c, spec, records, chosen, key, chosen[key].value, f);
        assert RequestFieldMissing(m, chosen[key].value, g) in findings;
      }
    }
    if x :| x in findings && Breaking(x) {
      match x
      case EndpointMissing(m, path) =>
        assert MissingDue(routing, spec, records, chosen, m, path);
      case RequestFieldMissing(m, t, f) =>
        assert RequestDue(routing, c, spec, records, chosen, m, t, f);
    }
  }

  // -------------------------------------------------------- closing the loop

  /** No method contains a blank, so that keys divide where they were joined. */
  ghost predicate Blankless(records: seq<Record>) {
    forall rec | rec in records :: ' ' !in rec.httpMethod
  }

  /** rec' uses the upper-case spelling of rec's method on a path that rec's template
      matches. */
  predicate SpeltOut(routing: Routing, rec: Record, rec': Record) {
    && rec'.httpMethod == Upper(rec.httpMethod)
    && TemplateMatches(routing.split(routing.template(rec.path)), routing.split(routing.template(rec'.path)))
  }

  /** Every method used on a path is used there in upper case too. */
  ghost predicate Spelt(routing: Routing, records: seq<Record>) {
    forall rec | rec in records :: SpeltByOne(routing, records, rec)
  }

  ghost predicate SpeltByOne(routing: Routing, records: seq<Record>, rec: Record) {
    exists rec' | rec' in records :: SpeltOut(routing, rec, rec')
  }

  lemma {:induction false} UpperCaseIsSpelt(routing: Routing, records: seq<Record>)
    requires forall rec | rec in records :: UpperCase(rec.httpMethod)
    ensures Spelt(routing, records)
  {
    forall rec | rec in records ensures SpeltByOne(routing, records, rec) {
      UpperLower(rec.httpMethod);
      assert SpeltOut(routing, rec, rec);
    }
  }

  function RequestsLike(routing: Routing, records: seq<Record>, rec: Record): seq<Json> {
    RequestBodies(routing, records, routing.template(rec.path), Lower(rec.httpMethod))
  }

  function ResponsesLike(routing: Routing, records: seq<Record>, rec: Record, status: string): seq<Json> {
    ResponseBodies(routing, records, routing.template(rec.path), Lower(rec.httpMethod), status)
  }

  /** What the traffic must satisfy: every field of a request, or of a successful
      response, occurs under its dotted path at a position that no object with
      fields obscures, in some request, or some 2xx response, of the operation. */
  ghost predicate Covered(routing: Routing, records: seq<Record>) {
    forall rec | rec in records :: CoveredRecord(routing, records, rec)
  }

  ghost predicate CoveredRecord(routing: Routing, records: seq<Record>, rec: Record) {
    && (forall f | f in BodyFields(rec.request) :: PlainlyShownAs(RequestsLike(routing, records, rec), f))
    && (Success(rec.status) ==> forall f | f in BodyFields(rec.response) ::
          exists status :: Documented(status) && PlainlyShownAs(ResponsesLike(routing, records, rec, status), f))
  }

  /** The operation that `Check` compares a record's fields with. */
  lemma {:induction false} OperationOf(routing: Routing, records: seq<Record>, rec: Record, found: Option<string>)
    returns (op: Operation)
    requires rec in records && Blankless(records)
    requires IsMatch(routing, Finalize(AddRecords(routing, records)), Cut(KeyOf(routing, rec)).1, found)
    ensures Cut(KeyOf(routing, rec)) == (rec.httpMethod, routing.template(rec.path))
    ensures found == Some(routing.template(rec.path))
    ensures OperationFor(Finalize(AddRecords(routing, records)), found, rec.httpMethod) == Some(op)
    ensures op == Finish(AggAt(AddRecords(routing, records), routing.template(rec.path), Lower(rec.httpMethod)))
  {
    var tmpl, m := routing.template(rec.path), Lower(rec.httpMethod);
    CutJoined(rec.httpMethod, tmpl);
    assert BelongsTo(routing, rec, tmpl, m);
    OperationsAre(routing, records, tmpl, m);
    op := Finish(AggAt(AddRecords(routing, records), tmpl, m));
  }

  lemma {:induction false} RequestFieldsAre(routing: Routing, c: Components, records: seq<Record>, path: string,
                                            m: string, f: string)
    ensures f in SchemaFields(c, Finish(AggAt(AddRecords(routing, records), path, m)).request, "", 0) <==>
            PlainlyShownAs(RequestBodies(routing, records, path, m), f)
  {
    RequestAggregateIs(routing, records, path, m);
    InferredFieldsAre(c, RequestBodies(routing, records, path, m), f);
  }

  lemma {:induction false} ResponseFieldsAre(routing: Routing, c: Components, records: seq<Record>, path: string,
                                             m: string, f: string)
    ensures f in ResponseFields(c, Finish(AggAt(AddRecords(routing, records), path, m))) <==>
            exists status :: Documented(status) && PlainlyShownAs(ResponseBodies(routing, records, path, m, status), f)
  {
    var agg := AggAt(AddRecords(routing, records), path, m);
    var op := Finish(agg);
    if f in ResponseFields(c, op) {
      var status :| status in op.responses && Documented(status) && f in SchemaFields(c, op.responses[status], "", 0);
      assert op.responses[status] == ResponseAt(agg, status);
      ResponseAggregateIs(routing, records, path, m, status);
      InferredFieldsAre(c, ResponseBodies(routing, records, path, m, status), f);
    }
    if status :| Documented(status) && PlainlyShownAs(ResponseBodies(routing, records, path, m, status), f) {
      ResponseAggregateIs(routing, records, path, m, status);
      InferredFieldsAre(c, ResponseBodies(routing, records, path, m, status), f);
      assert status in agg.responses;
    }
  }

  /** Where anything is shown, something is plainly shown. */
  lemma {:induction false} SomethingPlain(bodies: seq<Json>, pos: Position, k: string) returns (f: string)
    requires ShownIn(bodies, pos, k)
    ensures PlainlyShownAs(bodies, f)
  {
    if Unobscured(bodies, pos) {
      f := Dotted(PathText("", pos), k);
    } else {
      var n, k' :| 0 <= n < |pos| && pos[n].Elem? && ShownIn(bodies, pos[..n], k');
      f := SomethingPlain(bodies, pos[..n], k');
    }
  }

  lemma {:induction false} RequestBodiesAre(routing: Routing, records: seq<Record>, path: string, m: string, v: Json)
    ensures v in RequestBodies(routing, records, path, m) <==>
            exists rec | rec in records :: BelongsTo(routing, rec, path, m) && rec.request == Some(v)
    decreases |records|
  {
    if records != [] {
      var n := |records| - 1;
      RequestBodiesAre(routing, records[..n], path, m, v);
      assert records == records[..n] + [records[n]];
    }
  }

  lemma {:induction false} ResponseBodiesAre(routing: Routing, records: seq<Record>, path: string, m: string,
                                             status: string, v: Json)
    ensures v in ResponseBodies(routing, records, path, m, status) <==>
            exists rec | rec in records ::
              BelongsTo(routing, rec, path, m) && Itoa(rec.status) == status && rec.response == Some(v)
    decreases |records|
  {
    if records != [] {
      var n := |records| - 1;
      ResponseBodiesAre(routing, records[..n], path, m, status, v);
      assert records == records[..n] + [records[n]];
    }
  }

  /** A successful response with a field leaves the inferred operation with a
      documented response field. */
  lemma {:induction false} SuccessIsDocumented(routing: Routing, c: Components, records: seq<Record>, rec: Record,
                                               f: string)
    requires rec in records && Success(rec.status) && f in BodyFields(rec.response)
    ensures var agg := AggAt(AddRecords(routing, records), routing.template(rec.path), Lower(rec.httpMethod));
            ResponseFields(c, Finish(agg)) != {}
  {
    var path, m, status, v := routing.template(rec.path), Lower(rec.httpMethod), Itoa(rec.status), rec.response.value;
    SuccessCodes(rec.status);
    ResponseBodiesAre(routing, records, path, m, status, v);
    var bodies := ResponseBodies(routing, records, path, m, status);
    assert v in bodies;
    var i :| 0 <= i < |bodies| && bodies[i] == v;
    assert f in BodiesFields(bodies);
    ObservedFieldsAre(bodies, f);
    var pos, k :| ShownIn(bodies, pos, k) && f == Dotted(PathText("", pos), k);
    var g := SomethingPlain(bodies, pos, k);
    ResponseFieldsAre(routing, c, records, path, m, g);
  }

  /** Nothing inferred is reported as unused if and only if every method used on a path
      is used there in upper case too. */
  lemma {:induction false} NothingUnusedIff(routing: Routing, records: seq<Record>, observed: map<string, Usage>)
    requires Blankless(records) && ObservedUsage(observed, routing, records)
    ensures UnusedFindings(routing, Finalize(AddRecords(routing, records)), observed.Keys) == {} <==>
            Spelt(routing, records)
  {
    var spec := Finalize(AddRecords(routing, records));
    UnusedEmptyIff(routing, spec, observed.Keys);
    if Spelt(routing, records) {
      SpeltIsUsed(routing, records, observed);
    }
    if UnusedFindings(routing, spec, observed.Keys) == {} {
      forall rec | rec in records ensures SpeltByOne(routing, records, rec) {
        InferredOperation(routing, records, rec);
        SeenIsSpelt(routing, records, observed, rec);
      }
    }
  }

  lemma {:induction false} InferredOperation(routing: Routing, records: seq<Record>, rec: Record)
    requires rec in records
    ensures HasOperation(Finalize(AddRecords(routing, records)), routing.template(rec.path), Lower(rec.httpMethod))
  {
    assert BelongsTo(routing, rec, routing.template(rec.path), Lower(rec.httpMethod));
    OperationsAre(routing, records, routing.template(rec.path), Lower(rec.httpMethod));
  }

  lemma {:induction false} SpeltIsUsed(routing: Routing, records: seq<Record>, observed: map<string, Usage>)
    requires Blankless(records) && ObservedUsage(observed, routing, records) && Spelt(routing, records)
    ensures forall tmpl, m | HasOperation(Finalize(AddRecords(routing, records)), tmpl, m) ::
              Seen(routing, observed.Keys, tmpl, m)
  {
    forall tmpl, m | HasOperation(Finalize(AddRecords(routing, records)), tmpl, m)
      ensures Seen(routing, observed.Keys, tmpl, m)
    {
      OperationsAre(routing, records, tmpl, m);
      var rec :| rec in records && BelongsTo(routing, rec, tmpl, m);
      SpeltIsSeen(routing, records, observed, rec);
    }
  }

  lemma {:induction false} UnusedEmptyIff(routing: Routing, spec: Paths, observed: set<string>)
    ensures UnusedFindings(routing, spec, observed) == {} <==>
            forall tmpl, m | HasOperation(spec, tmpl, m) :: Seen(routing, observed, tmpl, m)
  {
    if tmpl, m :| HasOperation(spec, tmpl, m) && !Seen(routing, observed, tmpl, m) {
      assert EndpointUnused(Upper(m), tmpl) in UnusedFindings(routing, spec, observed);
    }
  }

  lemma {:induction false} SpeltIsSeen(routing: Routing, records: seq<Record>, observed: map<string, Usage>,
                                       rec: Record)
    requires Blankless(records) && ObservedUsage(observed, routing, records) && rec in records
    requires SpeltByOne(routing, records, rec)
    ensures Seen(routing, observed.Keys, routing.template(rec.path), Lower(rec.httpMethod))
  {
    var rec' :| rec' in records && SpeltOut(routing, rec, rec');
    UpperLower(rec.httpMethod);
    CutJoined(rec'.httpMethod, routing.template(rec'.path));
    assert KeyOf(routing, rec') in observed.Keys;
  }

  lemma {:induction false} SeenIsSpelt(routing: Routing, records: seq<Record>, observed: map<string, Usage>,
                                       rec: Record)
    requires Blankless(records) && ObservedUsage(observed, routing, records)
    requires Seen(routing, observed.Keys, routing.template(rec.path), Lower(rec.httpMethod))
    ensures SpeltByOne(routing, records, rec)
  {
    var m, tmpl := Upper(Lower(rec.httpMethod)), routing.split(routing.template(rec.path));
    var key :| key in observed.Keys && Cut(key).0 == m && TemplateMatches(tmpl, routing.split(Cut(key).1));
    var rec' :| rec' in records && KeyOf(routing, rec') == key;
    UpperLower(rec.httpMethod);
    CutJoined(rec'.httpMethod, routing.template(rec'.path));
    assert SpeltOut(routing, rec, rec');
  }

  /** One endpoint is clean exactly when its fields are among the inferred ones. */
  lemma {:induction false} EndpointClean(routing: Routing, c: Components, records: seq<Record>,
                                         observed: map<string, Usage>, rec: Record, found: Option<string>)
    requires Blankless(records) && ObservedUsage(observed, routing, records) && rec in records
    requires IsMatch(routing, Finalize(AddRecords(routing, records)), Cut(KeyOf(routing, rec)).1, found)
    ensures var key := KeyOf(routing, rec);
            var op := Finish(AggAt(AddRecords(routing, records), routing.template(rec.path), Lower(rec.httpMethod)));
            key in observed &&
            (EndpointFindings(c, Finalize(AddRecords(routing, records)), key, observed[key], found) == {} <==>
             observed[key].request <= SchemaFields(c, op.request, "", 0) &&
             observed[key].response <= ResponseFields(c, op))
  {
    var spec, key := Finalize(AddRecords(routing, records)), KeyOf(routing, rec);
    var op := OperationOf(routing, records, rec, found);
    var u := observed[key];
    var req, resp := SchemaFields(c, op.request, "", 0), ResponseFields(c, op);
    ReportedEmpty(u.request, req);
    ReportedEmpty(u.response, resp);
    if resp == {} {
      forall f | f in u.response ensures false {
        var r :| r in records && KeyOf(routing, r) == key && Success(r.status) && f in BodyFields(r.response);
        SameKeySameOperation(routing, rec, r);
        SuccessIsDocumented(routing, c, records, r, f);
      }
    }
    FindingsOfFields(c, spec, key, u, found, op);
  }

  lemma {:induction false} SameKeySameOperation(routing: Routing, a: Record, b: Record)
    requires KeyOf(routing, a) == KeyOf(routing, b)
    requires ' ' !in a.httpMethod && ' ' !in b.httpMethod
    ensures a.httpMethod == b.httpMethod && routing.template(a.path) == routing.template(b.path)
  {
    CutJoined(a.httpMethod, routing.template(a.path));
    CutJoined(b.httpMethod, routing.template(b.path));
  }

  lemma {:induction false} FindingsOfFields(c: Components, spec: Paths, key: string, u: Usage, found: Option<string>,
                                            op: Operation)
    requires OperationFor(spec, found, Cut(key).0) == Some(op)
    ensures EndpointFindings(c, spec, key, u, found) == {} <==>
            Reported(u.request, SchemaFields(c, op.request, "", 0)) == {} &&
            (ResponseFields(c, op) == {} || Reported(u.response, ResponseFields(c, op)) == {})
  {
    var m := Cut(key).0;
    var req := Reported(u.request, SchemaFields(c, op.request, "", 0));
    var resp := Reported(u.response, ResponseFields(c, op));
    var all := EndpointFindings(c, spec, key, u, found);
    if f :| f in req { assert RequestFieldMissing(m, found.value, f) in all; }
    if f :| f in resp && ResponseFields(c, op) != {} { assert ResponseFieldUndocumented(m, found.value, f) in all; }
  }

  /** Checking a spec against the very traffic it was inferred from, whatever
      templates `MatchPath` picks: there is no finding of any severity if and only if
      the traffic is covered and its methods are spelt out in upper case. */
  lemma {:induction false} LoopClosesIff(routing: Routing, c: Components, records: seq<Record>, findings: set<Finding>)
    requires Blankless(records) && CanReport(routing, c, Finalize(AddRecords(routing, records)), records, findings)
    ensures findings == {} <==> Covered(routing, records) && Spelt(routing, records)
  {
    var spec := Finalize(AddRecords(routing, records));
    var observed, chosen :|
      && ObservedUsage(observed, routing, records)
      && ChosenByMatch(routing, spec, observed.Keys, chosen)
      && findings == AllFindings(routing, c, spec, observed, chosen);
    NothingUnusedIff(routing, records, observed);
    EndpointsCleanIff(routing, c, records, observed, chosen);
  }

  /** No endpoint has a finding if and only if the traffic is covered. */
  lemma {:induction false} EndpointsCleanIff(routing: Routing, c: Components, records: seq<Record>,
                                             observed: map<string, Usage>, chosen: map<string, Option<string>>)
    requires Blankless(records) && ObservedUsage(observed, routing, records)
    requires ChosenByMatch(routing, Finalize(AddRecords(routing, records)), observed.Keys, chosen)
    ensures FindingsFor(c, Finalize(AddRecords(routing, records)), observed, chosen, observed.Keys) == {} <==>
            Covered(routing, records)
  {
    var spec := Finalize(AddRecords(routing, records));
    var found := FindingsFor(c, spec, observed, chosen, observed.Keys);
    if found == {} {
      forall rec | rec in records ensures CoveredRecord(routing, records, rec) {
        var key := KeyOf(routing, rec);
        assert EndpointFindings(c, spec, key, observed[key], chosen[key]) <= found;
        EndpointClean(routing, c, records, observed, rec, chosen[key]);
        CleanRecord(routing, c, records, observed, rec);
      }
    }
    if Covered(routing, records) {
      forall key | key in observed ensures EndpointFindings(c, spec, key, observed[key], chosen[key]) == {} {
        var rec :| rec in records && KeyOf(routing, rec) == key;
        EndpointClean(routing, c, records, observed, rec, chosen[key]);
        CoveredUsage(routing, c, records, observed, rec);
      }
    }
  }

  lemma {:induction false} CleanRecord(routing: Routing, c: Components, records: seq<Record>,
                                       observed: map<string, Usage>, rec: Record)
    requires ObservedUsage(observed, routing, records) && rec in records
    requires var key := KeyOf(routing, rec);
             var op := Finish(AggAt(AddRecords(routing, records), routing.template(rec.path), Lower(rec.httpMethod)));
             key in observed && observed[key].request <= SchemaFields(c, op.request, "", 0) &&
             observed[key].response <= ResponseFields(c, op)
    ensures CoveredRecord(routing, records, rec)
  {
    var key, path, m := KeyOf(routing, rec), routing.template(rec.path), Lower(rec.httpMethod);
    forall f | f in BodyFields(rec.request) ensures PlainlyShownAs(RequestsLike(routing, records, rec), f) {
      assert f in observed[key].request;
      RequestFieldsAre(routing, c, records, path, m, f);
    }
    forall f | Success(rec.status) && f in BodyFields(rec.response)
      ensures exists status :: Documented(status) && PlainlyShownAs(ResponsesLike(routing, records, rec, status), f)
    {
      assert f in observed[key].response;
      ResponseFieldsAre(routing, c, records, path, m, f);
      var status :| Documented(status) && PlainlyShownAs(ResponseBodies(routing, records, path, m, status), f);
      assert PlainlyShownAs(ResponsesLike(routing, records, rec, status), f);
    }
  }

  lemma {:induction false} CoveredUsage(routing: Routing, c: Components, records: seq<Record>,
                                        observed: map<string, Usage>, rec: Record)
    requires Blankless(records) && ObservedUsage(observed, routing, records) && rec in records
    requires Covered(routing, records)
    ensures var key := KeyOf(routing, rec);
            var op := Finish(AggAt(AddRecords(routing, records), routing.template(rec.path), Lower(rec.httpMethod)));
            key in observed && observed[key].request <= SchemaFields(c, op.request, "", 0) &&
            observed[key].response <= ResponseFields(c, op)
  {
    var key, path, m := KeyOf(routing, rec), routing.template(rec.path), Lower(rec.httpMethod);
    var op := Finish(AggAt(AddRecords(routing, records), path, m));
    forall f | f in observed[key].request ensures f in SchemaFields(c, op.request, "", 0) {
      var r :| r in records && KeyOf(routing, r) == key && f in BodyFields(r.request);
      SameKeySameOperation(routing, rec, r);
      RequestFieldsAre(routing, c, records, path, m, f);
    }
    forall f | f in observed[key].response ensures f in ResponseFields(c, op) {
      var r :| r in records && KeyOf(routing, r) == key && Success(r.status) && f in BodyFields(r.response);
      SameKeySameOperation(routing, rec, r);
      ResponseFieldsAre(routing, c, records, path, m, f);
    }
  }

  /** In particular, with methods in upper case, the loop closes when no position is
      seen both as an object with fields and as an array, among the requests of an operation and among its
      responses of one status. */
  lemma {:induction false} LoopClosesWithoutClash(routing: Routing, c: Components, records: seq<Record>,
                                                  findings: set<Finding>)
    requires Blankless(records) && CanReport(routing, c, Finalize(AddRecords(routing, records)), records, findings)
    requires forall path, m :: NoClash(RequestBodies(routing, records, path, m))
    requires forall path, m, status :: NoClash(ResponseBodies(routing, records, path, m, status))
    ensures findings == {} <==> Spelt(routing, records)
    ensures (forall rec | rec in records :: UpperCase(rec.httpMethod)) ==> findings == {}
  {
    forall rec | rec in records ensures CoveredRecord(routing, records, rec) {
      var path, m := routing.template(rec.path), Lower(rec.httpMethod);
      forall f | f in BodyFields(rec.request) ensures PlainlyShownAs(RequestsLike(routing, records, rec), f) {
        RequestBodiesAre(routing, records, path, m, rec.request.value);
        BodyPlainlyShown(RequestBodies(routing, records, path, m), rec.request.value, f);
      }
      if Success(rec.status) {
        forall f | f in BodyFields(rec.response)
          ensures exists status :: Documented(status) && PlainlyShownAs(ResponsesLike(routing, records, rec, status), f)
        {
          var status := Itoa(rec.status);
          SuccessCodes(rec.status);
          ResponseBodiesAre(routing, records, path, m, status, rec.response.value);
          BodyPlainlyShown(ResponseBodies(routing, records, path, m, status), rec.response.value, f);
          assert Documented(status) && PlainlyShownAs(ResponsesLike(routing, records, rec, status), f);
        }
      }
    }
    LoopClosesIff(routing, c, records, findings);
    if forall rec | rec in records :: UpperCase(rec.httpMethod) {
      UpperCaseIsSpelt(routing, records);
    }
  }

  lemma {:induction false} BodyPlainlyShown(bodies: seq<Json>, v: Json, f: string)
    requires NoClash(bodies) && v in bodies && f in JsonFields(v, "", 0)
    ensures PlainlyShownAs(bodies, f)
  {
    var i :| 0 <= i < |bodies| && bodies[i] == v;
    assert f in BodiesFields(bodies);
    ObservedFieldsAre(bodies, f);
    var pos, k :| ShownIn(bodies, pos, k) && f == Dotted(PathText("", pos), k);
    NoClashUnobscured(bodies, pos, k);
  }

  function Posted(m: string, path: string, body: Json): Record {
    Record(m, path, {}, Some(body), 200, None)
  }

  lemma {:induction false} TwoRequests(routing: Routing, m: string, path: string, a: Json, b: Json)
    ensures RequestBodies(routing, [Posted(m, path, a), Posted(m, path, b)], routing.template(path), Lower(m)) == [a, b]
  {
    var x, y := Posted(m, path, a), Posted(m, path, b);
    assert [x, y][..1] == [x] && [x][..0] == [];
    assert RequestBodies(routing, [x], routing.template(path), Lower(m)) == [a];
  }

  /** Traffic whose own spec does not pass: an object and an array of objects posted
      to one path. Whatever the routing, `Check` has a finding. */
  lemma {:induction false} ClashIsReported(routing: Routing, c: Components, m: string, path: string,
                                           findings: set<Finding>)
    requires ' ' !in m
    requires var records := [Posted(m, path, Obj(map["x" := Null])), Posted(m, path, Arr([Obj(map["y" := Null])]))];
             CanReport(routing, c, Finalize(AddRecords(routing, records)), records, findings)
    ensures findings != {}
  {
    var a, b := Obj(map["x" := Null]), Arr([Obj(map["y" := Null])]);
    var records := [Posted(m, path, a), Posted(m, path, b)];
    LoopClosesIff(routing, c, records, findings);
    TwoRequests(routing, m, path, a, b);
    ArrayBodyIsLost(c, a, b);
    assert records[1] in records;
    FieldNotCovered(routing, records, records[1], "y");
  }

  lemma FieldNotCovered(routing: Routing, records: seq<Record>, rec: Record, f: string)
    requires f in BodyFields(rec.request) && !PlainlyShownAs(RequestsLike(routing, records, rec), f)
    ensures !CoveredRecord(routing, records, rec)
  {
  }

  lemma {:induction false} ArrayBodyIsLost(c: Components, a: Json, b: Json)
    requires a == Obj(map["x" := Null]) && b == Arr([Obj(map["y" := Null])])
    ensures "y" in JsonFields(b, "", 0) && !PlainlyShownAs([a, b], "y")
  {
    ClashLosesFields(c);
    InferredFieldsAre(c, [a, b], "y");
    var i :| 0 <= i < 2 && "y" in JsonFields([a, b][i], "", 0);
    assert "y" !in JsonFields(a, "", 0) by { OnlyFieldX(a); }
  }

  lemma OnlyFieldX(a: Json)
    requires a == Obj(map["x" := Null])
    ensures JsonFields(a, "", 0) == {"x"}
  {
    assert a.fields.Keys == {"x"} && a.fields["x"] == Null;
    assert JsonFields(Null, "x", 1) == {};
    assert EntryFields(a.fields["x"], Dotted("", "x"), 0) == {"x"};
  }

  /** Traffic whose methods are not in upper case: one request, by a lower-case method. */
  lemma {:induction false} LowerCaseIsReported(routing: Routing, c: Components, path: string, status: int,
                                               findings: set<Finding>)
    requires var records := [Record("get", path, {}, None, status, None)];
             CanReport(routing, c, Finalize(AddRecords(routing, records)), records, findings)
    ensures findings != {}
  {
    var records := [Record("get", path, {}, None, status, None)];
    LoopClosesIff(routing, c, records, findings);
    assert records[0] in records;
    NotSpelt(routing, records, records[0]);
  }

  lemma NotSpelt(routing: Routing, records: seq<Record>, rec: Record)
    requires rec.httpMethod == "get" && forall r | r in records :: r.httpMethod == "get"
    ensures !SpeltByOne(routing, records, rec)
  {
    assert Upper("get")[0] == 'G' && "get"[0] == 'g';
  }
}
