/**
 The interceptor (internal/proxy/proxy.go): the bounded capture buffer and the
 two-pass resolution of a request's policy.
 */
module Proxy {
  import opened Json
  import opened Redaction
  import opened Labels
  import opened Glob
  import opened Engine

  /** A tap on a byte stream that keeps at most `limit` bytes. */
  class LimitedBuffer<T> {
    const limit: int
    var buf: seq<T>
    var total: nat
    var truncated: bool
    ghost var stream: seq<T>

    constructor (limit: int)
      ensures Valid() && stream == [] && this.limit == limit
    {
      this.limit := limit;
      buf, total, truncated, stream := [], 0, false, [];
    }

    ghost function Room(): nat {
      if limit < 0 then 0 else limit
    }

    /** The buffer is the longest allowed prefix of what was written, and says so
        exactly when something is missing. */
    ghost predicate Valid()
      reads this
    {
      && buf == (if |stream| <= Room() then stream else stream[..Room()])
      && total == |stream|
      && (truncated <==> |stream| > Room())
    }

    method Write(p: seq<T>) returns (n: nat)
      requires Valid()
      modifies this
      ensures Valid() && stream == old(stream) + p && n == |p|
    {
      total := total + |p|;
      var remaining := limit - |buf|;
      if remaining > 0 {
        if |p| > remaining {
          buf := buf + p[..remaining];
          truncated := true;
        } else {
          buf := buf + p;
        }
      } else if |p| > 0 {
        truncated := true;
      }
      stream := stream + p;
      n := |p|;
    }
  }

  // ---------------------------------------------------------- two evaluations

  function PolicyOf(w: World, e: EngineCfg, a: Attrs): Policy {
    Merge(e.defaults, Matching(w, e.rules, a))
  }

  /** The policy of a request: evaluated from the request line and headers, and
      again, by the engine and from the headers then there, once a GraphQL operation or
      a governed body is known. `globs` are the stored paths of body-reading rules.
      `doc` is the parsed request body, None when there is none or it does not parse; a
      body that does not claim to be JSON is not looked at. */
  method ResolvePolicy(w: World, globs: seq<seq<string>>, now: EngineCfg, later: EngineCfg, a: Attrs, again: Attrs,
                       graphQL: bool, operationName: Option<seq<string>>, jsonContent: bool, doc: Option<Json>)
    returns (p: Policy, governed: Option<Json>)
    requires a.operation.None? && a.body.None?
    ensures governed.Some? <==> jsonContent && doc.Some? && (graphQL || AnyMatches(w, globs, a.pathSegs))
    ensures governed.Some? ==>
              governed.value == MaskAt(doc.value, AddressedByAny(PolicyOf(w, now, a).redactPaths))
    ensures (graphQL && operationName.Some?) || governed.Some? ==>
              p == PolicyOf(w, later, again.(operation := if graphQL then operationName else None, body := governed))
    ensures !(graphQL && operationName.Some?) && governed.None? ==> p == PolicyOf(w, now, a)
    ensures now == later && KnowsMore(again, a) ==> NoLooser(p, PolicyOf(w, now, a))
    ensures GlobsOf(globs, now.rules) && !graphQL && !SomeRuleReads(w, now.rules, a.pathSegs) ==>
              (forall body :: p == PolicyOf(w, now, a.(body := body))) &&
              forall k | k in p.labels :: p.labels[k].kind != JSON_SOURCE
  {
    p := Evaluate(w, now.defaults, now.rules, a);
    governed := None;
    var needBody := graphQL;
    if !needBody {
      needBody := NeedsRequestBody(w, globs, a.pathSegs);
    }
    var operation: Option<seq<string>> := None;
    if needBody {
      if graphQL {
        operation := operationName;
      }
      if jsonContent && doc.Some? {
        RedactAllIsMasking(doc.value, p.redactPaths);
        governed := Some(RedactAll(doc.value, p.redactPaths));
      }
    }
    if operation.Some? || governed.Some? {
      p := Evaluate(w, later.defaults, later.rules, again.(operation := operation, body := governed));
    }
    if KnowsMore(again, a) {
      ResolvedIsTighter(w, now, a, again.(operation := operation, body := governed));
      ResolvedIsTighter(w, now, a, a);
    }
    if !graphQL && !SomeRuleReads(w, now.rules, a.pathSegs) && GlobsOf(globs, now.rules) {
      forall body ensures p == PolicyOf(w, now, a.(body := body)) {
        UnreadBodyIsIrrelevant(w, now, a, body);
      }
      UnreadBodyIsIrrelevant(w, now, a, None);
    }
  }

  /** p opens nothing that q closes, and hides every body location that q hides. */
  ghost predicate NoLooser(p: Policy, q: Policy) {
    && Tighter(p, q)
    && forall l :: Hidden(AddressedByAny(q.redactPaths), l) ==> Hidden(AddressedByAny(p.redactPaths), l)
  }

  /** With one engine throughout, knowing more opens nothing and uncovers nothing. */
  lemma {:induction false} ResolvedIsTighter(w: World, e: EngineCfg, a: Attrs, b: Attrs)
    requires KnowsMore(b, a)
    ensures NoLooser(PolicyOf(w, e, b), PolicyOf(w, e, a))
  {
    var ra, rb := Matching(w, e.rules, a), Matching(w, e.rules, b);
    KnowingMoreMatchesMore(w, e.rules, a, b);
    SubsequenceMembers(ra, rb);
    MoreRulesOnlyTighten(e.defaults, ra, rb);
    assert AddressedByAny(PolicyOf(w, e, a).redactPaths) <= AddressedByAny(PolicyOf(w, e, b).redactPaths);
  }

  /** A body that was not read could not have changed the policy, whatever it held,
      nor does the policy ask for anything in it. */
  lemma {:induction false} UnreadBodyIsIrrelevant(w: World, e: EngineCfg, a: Attrs, body: Option<Json>)
    requires !SomeRuleReads(w, e.rules, a.pathSegs)
    ensures PolicyOf(w, e, a.(body := body)) == PolicyOf(w, e, a)
    ensures forall k | k in PolicyOf(w, e, a).labels :: PolicyOf(w, e, a).labels[k].kind != JSON_SOURCE
  {
    SkippingTheBodyIsSafe(w, e.defaults, e.rules, a, body);
  }

  /** Criteria find what the path lookup can return, the empty string for nothing. */
  ghost predicate LooksUp(w: World, fmt: real -> string) {
    forall r: Rule, jp, j | jp in r.bodyCriteria ::
      || (CanReturn(j, r.bodyCriteria[jp].path, fmt, None) && w.lookup(r, jp, j) == "")
      || CanReturn(j, r.bodyCriteria[jp].path, fmt, Some(w.lookup(r, jp, j)))
  }

  /** A rule cannot be routed by a field that the first policy redacts: its criterion
      finds the placeholder or nothing, whatever the body held. */
  lemma {:induction false} RedactedFieldDecidesNothing(w: World, fmt: real -> string, first: Policy, doc: Json,
                                                  r: Rule, jp: string)
    requires LooksUp(w, fmt) && jp in r.bodyCriteria
    requires r.bodyCriteria[jp].path != [] && r.bodyCriteria[jp].path in first.redactPaths
    ensures var found := w.lookup(r, jp, RedactAll(doc, first.redactPaths));
            found == "" || found == PLACEHOLDER
  {
    var j, path := RedactAll(doc, first.redactPaths), r.bodyCriteria[jp].path;
    if CanReturn(j, path, fmt, Some(w.lookup(r, jp, j))) {
      RedactedLabelIsPlaceholder(doc, first.redactPaths, path, fmt, w.lookup(r, jp, j));
    }
  }

  // ----------------------------------------------- labels from the request body

  /** A request-body label reads the document governed by the first pass. It gets
      nothing but the placeholder, whatever the body and the map order, if and only if
      the first policy redacts every location its path addresses. */
  lemma {:induction false} BodyLabelCoveredIff(first: Policy, source: LabelSource, fmt: real -> string)
    ensures LabelCovered(first.redactPaths, source.jsonPath, fmt) <==>
            forall l | Addresses(source.jsonPath, l) :: Hidden(AddressedByAny(first.redactPaths), l)
  {
    LabelCoveredIff(first.redactPaths, source.jsonPath, fmt);
  }

  /** One rule that is decided by a body criterion, redacts x and labels by x. */
  function LateRule(): Rule {
    Rule("late", "/**", [ANY_SEGMENTS], None, None, map[], map[],
         map["$.c" := BodyCriterion(["c"], (s: string) => true)], None, None, 0, [], [], [], [["x"]],
         map["x" := LabelSource(JSON_SOURCE, "x", 0, ["x"])], map[])
  }

  /** Redaction that only the second pass knows of comes too late for such a label:
      the policy in force redacts x, and still the label on x gets the value of x. */
  lemma {:induction false} LateRedactionMissesLabel(w: World, d: Defaults, a: Attrs, value: string, fmt: real -> string)
    requires a.body.None?
    ensures var e := EngineCfg(d, [LateRule()]);
            var governed := RedactAll(Obj(map["x" := Str(value)]), PolicyOf(w, e, a).redactPaths);
            var p := PolicyOf(w, e, a.(body := Some(governed)));
            && ["x"] in p.redactPaths
            && "x" in p.labels && p.labels["x"].jsonPath == ["x"]
            && CanReturn(governed, p.labels["x"].jsonPath, fmt, Some(value))
  {
    var e := EngineCfg(d, [LateRule()]);
    var doc := Obj(map["x" := Str(value)]);
    assert [LateRule()][1..] == [] && [LateRule()][..0] == [];
    assert Matching(w, e.rules, a) == [] by {
      assert "$.c" in LateRule().bodyCriteria;
    }
    var b := a.(body := Some(RedactAll(doc, PolicyOf(w, e, a).redactPaths)));
    assert Matching(w, e.rules, b) == [LateRule()];
    assert PolicyOf(w, e, b) == Apply(Initial(d), LateRule());
    assert ["x"][1..] == [];
  }
}
