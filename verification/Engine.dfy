/**
 The rule engine (internal/engine/engine.go): which rules match a request, how
 the matching rules merge into one policy, and how the proxy
 (internal/proxy/proxy.go) evaluates twice, the second time knowing more.
 */
module Engine {
  import opened Json
  import opened Glob
  import opened Redaction

  /** A compiled regular expression: the strings it accepts. */
  type Regex = string -> bool

  datatype CaptureField = RequestBody | ResponseBody | Headers | Query

  datatype LabelSource = LabelSource(kind: string, key: string, seg: int, jsonPath: Path)

  const JSON_SOURCE := "json"

  datatype BodyCriterion = BodyCriterion(path: Path, re: Regex)

  datatype Rule = Rule(
    name: string,
    rawPattern: string,
    pathSegs: seq<string>,
    methods: Option<set<string>>,
    operation: Option<seq<string>>,
    headerCriteria: map<string, Regex>,
    queryCriteria: map<string, Regex>,
    bodyCriteria: map<string, BodyCriterion>,
    sample: Option<real>,
    keepErrors: Option<bool>,
    keepSlower: int,
    restrict: seq<CaptureField>,
    redactHeaders: seq<string>,
    redactQuery: seq<string>,
    redactPaths: seq<Path>,
    labels: map<string, LabelSource>,
    meters: map<string, Path>)

  datatype Defaults = Defaults(
    requestBody: bool, responseBody: bool, headers: bool, query: bool, limit: int)

  datatype Policy = Policy(
    capture: set<CaptureField>,
    captureLimit: int,
    redactHeaders: set<string>,
    redactQuery: set<string>,
    redactPaths: seq<Path>,
    labels: map<string, LabelSource>,
    matchedRules: seq<string>,
    routePattern: string,
    sampleRate: real,
    keepErrors: bool,
    keepSlower: int,
    meters: map<string, seq<Path>>)

  /** Everything a rule can be decided on. A part that is None was not supplied.
      Header and query lookups of an absent name give the empty string. */
  datatype Attrs = Attrs(
    httpMethod: string,
    pathSegs: seq<string>,
    headers: Option<map<string, string>>,
    query: Option<map<string, string>>,
    operation: Option<seq<string>>,
    body: Option<Json>)

  /** The surroundings of an evaluation: the shell matcher for one segment, and what
      a rule's body criterion, given by its key, finds in a governed body. Rules that
      read one path may find different values there, as map order has it. */
  datatype World = World(segment: SegmentMatcher, lookup: (Rule, string, Json) -> string)

  datatype EngineCfg = EngineCfg(defaults: Defaults, rules: seq<Rule>)

  // ------------------------------------------------------------- matching

  function Get(m: map<string, string>, name: string): string {
    if name in m then m[name] else ""
  }

  predicate CriteriaMatch(w: World, r: Rule, a: Attrs) {
    && (forall name | name in r.headerCriteria ::
          a.headers.Some? && r.headerCriteria[name](Get(a.headers.value, name)))
    && (forall name | name in r.queryCriteria ::
          a.query.Some? && r.queryCriteria[name](Get(a.query.value, name)))
    && (forall jp | jp in r.bodyCriteria ::
          a.body.Some? && r.bodyCriteria[jp].re(w.lookup(r, jp, a.body.value)))
  }

  predicate Matches(w: World, r: Rule, a: Attrs) {
    && (r.methods.Some? ==> a.httpMethod in r.methods.value)
    && MatchSegments(w.segment, r.pathSegs, a.pathSegs)
    && CriteriaMatch(w, r, a)
    && (r.operation.Some? ==> a.operation.Some? && MatchSegments(w.segment, r.operation.value, a.operation.value))
  }

  function Matching(w: World, rules: seq<Rule>, a: Attrs): seq<Rule> {
    if rules == [] then []
    else (if Matches(w, rules[0], a) then [rules[0]] else []) + Matching(w, rules[1..], a)
  }

  // -------------------------------------------------------------- merging

  function Initial(d: Defaults): Policy {
    Policy(
      (if d.requestBody then {RequestBody} else {}) + (if d.responseBody then {ResponseBody} else {}) +
      (if d.headers then {Headers} else {}) + (if d.query then {Query} else {}),
      d.limit, {}, {}, [], map[], [], "", 1.0, false, 0, map[])
  }

  function AddMeters(have: map<string, seq<Path>>, more: map<string, Path>): map<string, seq<Path>> {
    map name | name in have.Keys + more.Keys ::
      (if name in have then have[name] else []) + (if name in more then [more[name]] else [])
  }

  /** What one matching rule does to the policy so far. */
  function Apply(p: Policy, r: Rule): Policy {
    Policy(
      p.capture - (set f | f in r.restrict),
      p.captureLimit,
      p.redactHeaders + (set h | h in r.redactHeaders),
      p.redactQuery + (set q | q in r.redactQuery),
      p.redactPaths + r.redactPaths,
      p.labels + r.labels,
      p.matchedRules + [r.name],
      r.rawPattern,
      if r.sample.Some? then r.sample.value else p.sampleRate,
      if r.keepErrors.Some? then r.keepErrors.value else p.keepErrors,
      if r.keepSlower > 0 then r.keepSlower else p.keepSlower,
      AddMeters(p.meters, r.meters))
  }

  function Merge(d: Defaults, rs: seq<Rule>): Policy {
    if rs == [] then Initial(d) else Apply(Merge(d, rs[..|rs| - 1]), rs[|rs| - 1])
  }

  /** `evaluate`: one pass over the rules, skipping those that do not match. */
  method Evaluate(w: World, d: Defaults, rules: seq<Rule>, a: Attrs) returns (p: Policy)
    ensures p == Merge(d, Matching(w, rules, a))
  {
    p := Initial(d);
    ghost var fired: seq<Rule> := [];
    assert rules[0..] == rules;
    for i := 0 to |rules|
      invariant p == Merge(d, fired)
      invariant fired + Matching(w, rules[i..], a) == Matching(w, rules, a)
    {
      var r := rules[i];
      assert rules[i..][1..] == rules[i + 1..];
      if Matches(w, r, a) {
        assert (fired + [r])[..|fired|] == fired;
        p, fired := Apply(p, r), fired + [r];
      }
    }
    assert fired + Matching(w, rules[|rules|..], a) == fired;
  }

  function GetOr<T>(o: Option<T>, default: T): T {
    match o case Some(v) => v case None => default
  }

  ghost predicate NoneAfter<T>(rs: seq<Rule>, i: int, get: Rule -> Option<T>) {
    forall j | i < j < |rs| && 0 <= j :: get(rs[j]).None?
  }

  /** The value set by the last rule that sets one. */
  function LastSet<T>(rs: seq<Rule>, get: Rule -> Option<T>): (v: Option<T>)
    ensures v.None? ==> forall r | r in rs :: get(r).None?
    ensures v.Some? ==> exists i :: 0 <= i < |rs| && get(rs[i]) == v && NoneAfter(rs, i, get)
  {
    if rs == [] then None
    else
      var n := |rs| - 1;
      if get(rs[n]).Some? then get(rs[n]) else LastSet(rs[..n], get)
  }

  function SampleOf(r: Rule): Option<real> { r.sample }
  function KeepErrorsOf(r: Rule): Option<bool> { r.keepErrors }
  function KeepSlowerOf(r: Rule): Option<int> { if r.keepSlower > 0 then Some(r.keepSlower) else None }
  function PatternOf(r: Rule): Option<string> { Some(r.rawPattern) }
  function LabelOf(k: string): Rule -> Option<LabelSource> {
    (r: Rule) => if k in r.labels then Some(r.labels[k]) else None
  }

  predicate CapturedByDefault(d: Defaults, f: CaptureField) {
    match f
    case RequestBody => d.requestBody
    case ResponseBody => d.responseBody
    case Headers => d.headers
    case Query => d.query
  }

  /** Capture and redaction, declaratively: a field is captured only if no rule
      restricts it, and every rule's redactions are in force. */
  ghost predicate Accumulates(p: Policy, d: Defaults, rs: seq<Rule>) {
    && (forall f :: f in p.capture <==> CapturedByDefault(d, f) && forall r | r in rs :: f !in r.restrict)
    && (forall h :: h in p.redactHeaders <==> exists r | r in rs :: h in r.redactHeaders)
    && (forall q :: q in p.redactQuery <==> exists r | r in rs :: q in r.redactQuery)
    && (forall jp :: jp in p.redactPaths <==> exists r | r in rs :: jp in r.redactPaths)
    && p.captureLimit == d.limit
  }

  /** The paths that the rules give one meter, in their order. */
  function MeterPaths(rs: seq<Rule>, name: string): seq<Path> {
    if rs == [] then []
    else
      var r := rs[|rs| - 1];
      MeterPaths(rs[..|rs| - 1], name) + if name in r.meters then [r.meters[name]] else []
  }

  function RulePaths(rs: seq<Rule>): seq<Path> {
    if rs == [] then [] else RulePaths(rs[..|rs| - 1]) + rs[|rs| - 1].redactPaths
  }

  /** A meter sums over the paths that the matching rules give it, each as often as it
      is given; a meter that none gives does not exist. Redacted paths are listed in the
      order of the rules. */
  lemma {:induction false} MergeCollectsPaths(d: Defaults, rs: seq<Rule>, name: string)
    ensures var p := Merge(d, rs);
            && (name in p.meters <==> exists r | r in rs :: name in r.meters)
            && (name in p.meters ==> p.meters[name] == MeterPaths(rs, name))
            && (name !in p.meters ==> MeterPaths(rs, name) == [])
            && p.redactPaths == RulePaths(rs)
  {
    MergedPaths(d, rs, name);
    MetersGiven(d, rs, name);
  }

  lemma {:induction false} MergedPaths(d: Defaults, rs: seq<Rule>, name: string)
    ensures var p := Merge(d, rs);
            && MeterPaths(rs, name) == (if name in p.meters then p.meters[name] else [])
            && p.redactPaths == RulePaths(rs)
    decreases |rs|
  {
    if rs != [] {
      var init, last := rs[..|rs| - 1], rs[|rs| - 1];
      MergedPaths(d, init, name);
      ApplyAddsPaths(Merge(d, init), last, name);
    }
  }

  lemma {:induction false} MetersGiven(d: Defaults, rs: seq<Rule>, name: string)
    ensures name in Merge(d, rs).meters <==> exists r | r in rs :: name in r.meters
    decreases |rs|
  {
    if rs != [] {
      var init, last := rs[..|rs| - 1], rs[|rs| - 1];
      MetersGiven(d, init, name);
      ApplyAddsPaths(Merge(d, init), last, name);
      assert rs == init + [last];
      assert (exists r | r in rs :: name in r.meters) <==>
             (exists r | r in init :: name in r.meters) || name in last.meters;
    }
  }

  lemma {:induction false} ApplyAddsPaths(p: Policy, r: Rule, name: string)
    ensures var q := Apply(p, r);
            && (name in q.meters <==> name in p.meters || name in r.meters)
            && (name in q.meters ==> q.meters[name] == (if name in p.meters then p.meters[name] else []) +
                                                       if name in r.meters then [r.meters[name]] else [])
            && q.redactPaths == p.redactPaths + r.redactPaths
  {
    var q := Apply(p, r);
    assert q.meters == AddMeters(p.meters, r.meters);
  }

  /** Membership, as the walkers use it. */
  lemma {:induction false} MeterPathsAre(rs: seq<Rule>, name: string, jp: Path)
    ensures jp in MeterPaths(rs, name) <==> exists r | r in rs :: name in r.meters && r.meters[name] == jp
  {
    if rs != [] {
      var init, last := rs[..|rs| - 1], rs[|rs| - 1];
      MeterPathsAre(init, name, jp);
      assert forall r :: r in rs <==> r in init || r == last;
    }
  }

  /** Single-valued settings and labels come from the last rule that sets them. */
  ghost predicate LastWins(p: Policy, rs: seq<Rule>) {
    && p.routePattern == GetOr(LastSet(rs, PatternOf), "")
    && p.sampleRate == GetOr(LastSet(rs, SampleOf), 1.0)
    && p.keepErrors == GetOr(LastSet(rs, KeepErrorsOf), false)
    && p.keepSlower == GetOr(LastSet(rs, KeepSlowerOf), 0)
    && (forall k :: (if k in p.labels then Some(p.labels[k]) else None) == LastSet(rs, LabelOf(k)))
  }

  lemma {:induction false} MergeAccumulates(d: Defaults, rs: seq<Rule>)
    ensures Accumulates(Merge(d, rs), d, rs)
    decreases |rs|
  {
    if rs != [] {
      var init, last := rs[..|rs| - 1], rs[|rs| - 1];
      assert rs == init + [last];
      MergeAccumulates(d, init);
      var p := Merge(d, init);
      assert Merge(d, rs) == Apply(p, last);
      AccumulatesOneMore(p, d, init, last);
    } else {
      forall f ensures f in Initial(d).capture <==> CapturedByDefault(d, f) {
        match f
        case RequestBody =>
        case ResponseBody =>
        case Headers =>
        case Query =>
      }
    }
  }

  lemma {:induction false} AccumulatesOneMore(p: Policy, d: Defaults, rs: seq<Rule>, r: Rule)
    requires Accumulates(p, d, rs)
    ensures Accumulates(Apply(p, r), d, rs + [r])
  {
    forall r' ensures r' in rs + [r] <==> r' in rs || r' == r {}
    assert r in rs + [r];
  }

  lemma {:induction false} MergeLastWins(d: Defaults, rs: seq<Rule>)
    ensures LastWins(Merge(d, rs), rs)
    decreases |rs|
  {
    if rs != [] {
      MergeLastWins(d, rs[..|rs| - 1]);
    }
  }

  // ------------------------------------------------------------ more context

  /** q captures no more and redacts no less than p. */
  ghost predicate Tighter(q: Policy, p: Policy) {
    && q.capture <= p.capture
    && p.redactHeaders <= q.redactHeaders
    && p.redactQuery <= q.redactQuery
    && forall jp | jp in p.redactPaths :: jp in q.redactPaths
  }

  /** Whatever is added to a list of rules, wherever it is added, only tightens;
      hence also: the order of the rules does not matter to capture and redaction. */
  lemma {:induction false} MoreRulesOnlyTighten(d: Defaults, rs: seq<Rule>, more: seq<Rule>)
    requires forall r | r in rs :: r in more
    ensures Tighter(Merge(d, more), Merge(d, rs))
  {
    MergeAccumulates(d, rs);
    MergeAccumulates(d, more);
  }

  lemma {:induction false} InsertedRuleOnlyTightens(w: World, d: Defaults, before: seq<Rule>, r: Rule,
                                                  after: seq<Rule>, a: Attrs)
    ensures Tighter(Merge(d, Matching(w, before + [r] + after, a)), Merge(d, Matching(w, before + after, a)))
  {
    MatchingAre(w, before + [r] + after, a);
    MatchingAre(w, before + after, a);
    MoreRulesOnlyTighten(d, Matching(w, before + after, a), Matching(w, before + [r] + after, a));
  }

  lemma {:induction false} ReorderedRulesAgree(w: World, d: Defaults, rs: seq<Rule>, rs': seq<Rule>, a: Attrs)
    requires multiset(rs) == multiset(rs')
    ensures var p, q := Merge(d, Matching(w, rs, a)), Merge(d, Matching(w, rs', a));
            p.capture == q.capture && p.redactHeaders == q.redactHeaders && p.redactQuery == q.redactQuery
            && (forall jp :: jp in p.redactPaths <==> jp in q.redactPaths)
            && forall j :: RedactAll(j, p.redactPaths) == RedactAll(j, q.redactPaths)
  {
    assert forall r :: r in rs <==> r in multiset(rs);
    assert forall r :: r in rs' <==> r in multiset(rs');
    MatchingAre(w, rs, a);
    MatchingAre(w, rs', a);
    MoreRulesOnlyTighten(d, Matching(w, rs, a), Matching(w, rs', a));
    MoreRulesOnlyTighten(d, Matching(w, rs', a), Matching(w, rs, a));
    var p, q := Merge(d, Matching(w, rs, a)), Merge(d, Matching(w, rs', a));
    forall j ensures RedactAll(j, p.redactPaths) == RedactAll(j, q.redactPaths) {
      RedactionListsAreSets(j, p.redactPaths, q.redactPaths);
    }
  }

  lemma {:induction false} MatchingAre(w: World, rs: seq<Rule>, a: Attrs)
    ensures forall r :: r in Matching(w, rs, a) <==> r in rs && Matches(w, r, a)
    decreases |rs|
  {
    if rs != [] {
      MatchingAre(w, rs[1..], a);
      assert rs == [rs[0]] + rs[1..];
    }
  }

  // ------------------------------------------------------- when a rule fires

  ghost predicate Fires(w: World, rules: seq<Rule>, r: Rule, a: Attrs) {
    r in Matching(w, rules, a)
  }

  /** Every header criterion accepts the value under its name, "" when it is absent. */
  ghost predicate HeadersAccepted(r: Rule, a: Attrs) {
    forall name | name in r.headerCriteria ::
      a.headers.Some? && var h := a.headers.value; r.headerCriteria[name](if name in h then h[name] else "")
  }

  ghost predicate QueryAccepted(r: Rule, a: Attrs) {
    forall name | name in r.queryCriteria ::
      a.query.Some? && var q := a.query.value; r.queryCriteria[name](if name in q then q[name] else "")
  }

  ghost predicate BodyAccepted(w: World, r: Rule, a: Attrs) {
    forall jp | jp in r.bodyCriteria :: a.body.Some? && r.bodyCriteria[jp].re(w.lookup(r, jp, a.body.value))
  }

  /** A rule fires exactly if it is for the method, its path glob matches, every
      criterion is decided and accepts, and so does its operation glob. */
  lemma {:induction false} FiresIff(w: World, rules: seq<Rule>, r: Rule, a: Attrs)
    ensures Fires(w, rules, r, a) <==>
            && r in rules
            && (r.methods == None || a.httpMethod in r.methods.value)
            && MatchSegments(w.segment, r.pathSegs, a.pathSegs)
            && HeadersAccepted(r, a) && QueryAccepted(r, a) && BodyAccepted(w, r, a)
            && (r.operation == None ||
                (a.operation.Some? && MatchSegments(w.segment, r.operation.value, a.operation.value)))
  {
    MatchingAre(w, rules, a);
  }

  /** What a rule has no criterion on cannot make a difference to it. */
  lemma {:induction false} HeadersIrrelevant(w: World, rules: seq<Rule>, r: Rule, a: Attrs,
                                             headers: Option<map<string, string>>)
    requires r.headerCriteria == map[]
    ensures Fires(w, rules, r, a) <==> Fires(w, rules, r, a.(headers := headers))
  {
    MatchingAre(w, rules, a);
    MatchingAre(w, rules, a.(headers := headers));
  }

  lemma {:induction false} QueryIrrelevant(w: World, rules: seq<Rule>, r: Rule, a: Attrs,
                                           query: Option<map<string, string>>)
    requires r.queryCriteria == map[]
    ensures Fires(w, rules, r, a) <==> Fires(w, rules, r, a.(query := query))
  {
    MatchingAre(w, rules, a);
    MatchingAre(w, rules, a.(query := query));
  }

  /** The policy names exactly the rules that fire, in the order of the rule list. */
  lemma {:induction false} FiringRulesAreNamed(w: World, d: Defaults, rules: seq<Rule>, a: Attrs)
    ensures Merge(d, Matching(w, rules, a)).matchedRules == Names(Matching(w, rules, a))
    ensures Subsequence(Matching(w, rules, a), rules)
  {
    MatchedNames(d, Matching(w, rules, a));
    MatchingInOrder(w, rules, a);
  }

  /** Each rule is decided by itself, as often as it is listed. */
  lemma {:induction false} MatchingDistributes(w: World, rs: seq<Rule>, qs: seq<Rule>, a: Attrs)
    ensures Matching(w, rs + qs, a) == Matching(w, rs, a) + Matching(w, qs, a)
    ensures |rs| == 1 ==> Matching(w, rs, a) == if Fires(w, rs, rs[0], a) then rs else []
  {
    if rs == [] {
      assert rs + qs == qs;
    } else {
      assert (rs + qs)[1..] == rs[1..] + qs;
      MatchingDistributes(w, rs[1..], qs, a);
    }
  }

  lemma {:induction false} MatchingInOrder(w: World, rules: seq<Rule>, a: Attrs)
    ensures Subsequence(Matching(w, rules, a), rules)
    decreases |rules|
  {
    if rules != [] {
      MatchingInOrder(w, rules[1..], a);
      var m := Matching(w, rules[1..], a);
      assert [] + m == m && ([rules[0]] + m)[1..] == m;
    }
  }

  ghost predicate Extends<T>(b: Option<T>, a: Option<T>) {
    a.Some? ==> b == a
  }

  /** b is the same request as a with at least as much known about it. */
  ghost predicate KnowsMore(b: Attrs, a: Attrs) {
    && b.httpMethod == a.httpMethod && b.pathSegs == a.pathSegs
    && Extends(b.headers, a.headers) && Extends(b.query, a.query)
    && Extends(b.operation, a.operation) && Extends(b.body, a.body)
  }

  ghost predicate Subsequence<T>(xs: seq<T>, ys: seq<T>)
    decreases |ys|
  {
    if xs == [] then true
    else ys != [] && ((xs[0] == ys[0] && Subsequence(xs[1..], ys[1..])) || Subsequence(xs, ys[1..]))
  }

  lemma {:induction false} SubsequenceMembers<T>(xs: seq<T>, ys: seq<T>)
    requires Subsequence(xs, ys)
    ensures forall x | x in xs :: x in ys
    decreases |ys|
  {
    if xs != [] {
      if xs[0] == ys[0] && Subsequence(xs[1..], ys[1..]) {
        SubsequenceMembers(xs[1..], ys[1..]);
        assert xs == [xs[0]] + xs[1..];
      } else {
        SubsequenceMembers(xs, ys[1..]);
      }
    }
  }

  /** More knowledge about a request matches every rule it matched before, in the
      same order, with others possibly in between. */
  lemma {:induction false} KnowingMoreMatchesMore(w: World, rules: seq<Rule>, a: Attrs, b: Attrs)
    requires KnowsMore(b, a)
    ensures Subsequence(Matching(w, rules, a), Matching(w, rules, b))
    decreases |rules|
  {
    if rules != [] {
      var r, rest := rules[0], rules[1..];
      var xs, ys := Matching(w, rest, a), Matching(w, rest, b);
      KnowingMoreMatchesMore(w, rest, a, b);
      if Matches(w, r, a) {
        assert Matches(w, r, b);
        assert ([r] + xs)[1..] == xs && ([r] + ys)[1..] == ys;
      } else if Matches(w, r, b) {
        assert [] + xs == xs && ([r] + ys)[1..] == ys;
      } else {
        assert [] + xs == xs && [] + ys == ys;
      }
    }
  }

  /** The proxy's two passes under one engine: the first knows headers and query,
      the second also the operation and the governed body. The second policy opens
      nothing, loses no redaction, and masks in every document at least what the
      first one masks. */
  lemma {:induction false} SecondPassOnlyTightens(w: World, d: Defaults, rules: seq<Rule>, a: Attrs,
                               operation: Option<seq<string>>, body: Option<Json>)
    requires a.operation.None? && a.body.None?
    ensures var p1 := Merge(d, Matching(w, rules, a));
            var p2 := Merge(d, Matching(w, rules, a.(operation := operation, body := body)));
            && Tighter(p2, p1)
            && Subsequence(p1.matchedRules, p2.matchedRules)
            && forall l :: Hidden(AddressedByAny(p1.redactPaths), l) ==> Hidden(AddressedByAny(p2.redactPaths), l)
  {
    var b := a.(operation := operation, body := body);
    var ra, rb := Matching(w, rules, a), Matching(w, rules, b);
    KnowingMoreMatchesMore(w, rules, a, b);
    SubsequenceMembers(ra, rb);
    MoreRulesOnlyTighten(d, ra, rb);
    MatchedNames(d, ra);
    MatchedNames(d, rb);
    SubsequenceNames(ra, rb);
    assert AddressedByAny(Merge(d, ra).redactPaths) <= AddressedByAny(Merge(d, rb).redactPaths);
  }

  function Names(rs: seq<Rule>): seq<string> {
    if rs == [] then [] else [rs[0].name] + Names(rs[1..])
  }

  lemma {:induction false} NamesAppend(rs: seq<Rule>, r: Rule)
    ensures Names(rs + [r]) == Names(rs) + [r.name]
  {
    if rs != [] {
      assert (rs + [r])[1..] == rs[1..] + [r];
      NamesAppend(rs[1..], r);
    }
  }

  lemma {:induction false} MatchedNames(d: Defaults, rs: seq<Rule>)
    ensures Merge(d, rs).matchedRules == Names(rs)
    decreases |rs|
  {
    if rs != [] {
      var init := rs[..|rs| - 1];
      MatchedNames(d, init);
      NamesAppend(init, rs[|rs| - 1]);
      assert init + [rs[|rs| - 1]] == rs;
    }
  }

  lemma {:induction false} SubsequenceNames(xs: seq<Rule>, ys: seq<Rule>)
    requires Subsequence(xs, ys)
    ensures Subsequence(Names(xs), Names(ys))
    decreases |ys|
  {
    if xs != [] {
      assert Names(ys)[1..] == Names(ys[1..]);
      if xs[0] == ys[0] && Subsequence(xs[1..], ys[1..]) {
        SubsequenceNames(xs[1..], ys[1..]);
        assert Names(xs)[1..] == Names(xs[1..]);
      } else {
        SubsequenceNames(xs, ys[1..]);
      }
    }
  }

  // ---------------------------------------------------- skipping the buffer

  predicate ReadsBody(r: Rule) {
    |r.bodyCriteria| > 0 || exists k | k in r.labels :: r.labels[k].kind == JSON_SOURCE
  }

  /** The globs are exactly those of the rules that read the request body. */
  ghost predicate GlobsOf(globs: seq<seq<string>>, rules: seq<Rule>) {
    forall g :: g in globs <==> exists r | r in rules :: ReadsBody(r) && r.pathSegs == g
  }

  method BodyRulePaths(rules: seq<Rule>) returns (out: seq<seq<string>>)
    ensures GlobsOf(out, rules)
  {
    out := [];
    for i := 0 to |rules|
      invariant GlobsOf(out, rules[..i])
    {
      assert rules[..i + 1] == rules[..i] + [rules[i]];
      if ReadsBody(rules[i]) {
        out := out + [rules[i].pathSegs];
      }
    }
    assert rules[..|rules|] == rules;
  }

  ghost predicate AnyMatches(w: World, globs: seq<seq<string>>, pathSegs: seq<string>) {
    exists g | g in globs :: MatchSegments(w.segment, g, pathSegs)
  }

  ghost predicate SomeRuleReads(w: World, rules: seq<Rule>, pathSegs: seq<string>) {
    exists r | r in rules :: ReadsBody(r) && MatchSegments(w.segment, r.pathSegs, pathSegs)
  }

  /** Whether the interceptor buffers the body of a request on this path, by the
      globs it has stored. */
  method NeedsRequestBody(w: World, globs: seq<seq<string>>, pathSegs: seq<string>) returns (need: bool)
    ensures need <==> AnyMatches(w, globs, pathSegs)
    ensures forall rules :: GlobsOf(globs, rules) ==> (need <==> SomeRuleReads(w, rules, pathSegs))
  {
    need := false;
    for i := 0 to |globs|
      invariant !need && forall g | g in globs[..i] :: !MatchSegments(w.segment, g, pathSegs)
    {
      if MatchSegments(w.segment, globs[i], pathSegs) {
        assert globs[i] in globs;
        need := true;
        break;
      }
    }
    assert globs[..|globs|] == globs;
    forall rules | GlobsOf(globs, rules) ensures need <==> SomeRuleReads(w, rules, pathSegs) {
      GlobsDecide(w, globs, rules, pathSegs);
    }
  }

  lemma {:induction false} GlobsDecide(w: World, globs: seq<seq<string>>, rules: seq<Rule>, pathSegs: seq<string>)
    requires GlobsOf(globs, rules)
    ensures AnyMatches(w, globs, pathSegs) <==> SomeRuleReads(w, rules, pathSegs)
  {
    if r :| r in rules && ReadsBody(r) && MatchSegments(w.segment, r.pathSegs, pathSegs) {
      assert r.pathSegs in globs;
    }
  }

  /** When no body rule's glob matches the path, reading the body could not have
      changed the policy, and the policy asks for nothing from it. */
  lemma {:induction false} SkippingTheBodyIsSafe(w: World, d: Defaults, rules: seq<Rule>, a: Attrs, body: Option<Json>)
    requires forall r | r in rules && ReadsBody(r) :: !MatchSegments(w.segment, r.pathSegs, a.pathSegs)
    ensures Merge(d, Matching(w, rules, a.(body := body))) == Merge(d, Matching(w, rules, a))
    ensures var p := Merge(d, Matching(w, rules, a));
            forall k | k in p.labels :: p.labels[k].kind != JSON_SOURCE
  {
    BodyIrrelevant(w, rules, a, body);
    var rs := Matching(w, rules, a);
    var p := Merge(d, rs);
    MatchingAre(w, rules, a);
    forall k | k in p.labels ensures p.labels[k].kind != JSON_SOURCE {
      var r := LabelHasRule(d, rs, k);
      assert !ReadsBody(r);
    }
  }

  /** No rule is said to read the body needlessly: it waits for the body, or the
      policy it gives has a label from the body. */
  lemma {:induction false} BodyReaderWaitsOrLabels(w: World, d: Defaults, r: Rule, a: Attrs)
    requires ReadsBody(r) && a.body.None?
    ensures !Fires(w, [r], r, a) ||
            exists k | k in Merge(d, [r]).labels :: Merge(d, [r]).labels[k].kind == "json"
  {
    LabelsOfOne(d, r);
    if Fires(w, [r], r, a) {
      FiresIff(w, [r], r, a);
      assert forall jp | jp in r.bodyCriteria :: !BodyAccepted(w, r, a);
      assert r.bodyCriteria == map[];
    }
  }

  lemma {:induction false} LabelsOfOne(d: Defaults, r: Rule)
    ensures Merge(d, [r]).labels == r.labels
  {
    assert [r][..0] == [];
    assert Merge(d, [r]).labels == Merge(d, []).labels + r.labels;
  }

  /** Every label of a policy is a label of one of its rules. */
  lemma {:induction false} LabelHasRule(d: Defaults, rs: seq<Rule>, k: string) returns (r: Rule)
    requires k in Merge(d, rs).labels
    ensures r in rs && k in r.labels && r.labels[k] == Merge(d, rs).labels[k]
  {
    MergeLastWins(d, rs);
    var v := Merge(d, rs).labels[k];
    assert LastSet(rs, LabelOf(k)) == Some(v);
    var i :| 0 <= i < |rs| && LabelOf(k)(rs[i]) == Some(v);
    r := rs[i];
  }

  lemma {:induction false} BodyIrrelevant(w: World, rules: seq<Rule>, a: Attrs, body: Option<Json>)
    requires forall r | r in rules && ReadsBody(r) :: !MatchSegments(w.segment, r.pathSegs, a.pathSegs)
    ensures Matching(w, rules, a.(body := body)) == Matching(w, rules, a)
    decreases |rules|
  {
    if rules != [] {
      var r := rules[0];
      assert Matches(w, r, a.(body := body)) == Matches(w, r, a) by {
        assert r in rules;
        if |r.bodyCriteria| == 0 { assert r.bodyCriteria == map[]; }
      }
      BodyIrrelevant(w, rules[1..], a, body);
    }
  }
}
