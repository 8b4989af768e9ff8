/**
 The policy diff of the pull-request check (internal/review/review.go): the same
 recorded traffic under two engines, with every weakening reported and counted.
 */
module Review {
  import opened Json
  import opened Redaction
  import opened Engine
  import opened Glob

  datatype Severity = Blocking | Warn | Info

  /** One kind of difference between two policies. */
  datatype Difference =
    | NowCaptures(f: CaptureField)
    | NoLongerCaptures(f: CaptureField)
    | StopsHeader(name: string)
    | StopsQuery(name: string)
    | StopsPath(name: string)
    | NowPath(name: string)
    | DropsLabel(name: string)
    | DropsMeter(name: string)

  function SeverityOf(w: Difference): Severity {
    match w
    case NowCaptures(_) => Warn
    case NoLongerCaptures(_) => Info
    case StopsHeader(_) => Blocking
    case StopsQuery(_) => Blocking
    case StopsPath(_) => Blocking
    case NowPath(_) => Info
    case DropsLabel(_) => Warn
    case DropsMeter(_) => Warn
  }

  function FieldText(f: CaptureField): string {
    match f
    case RequestBody => "request bodies"
    case ResponseBody => "response bodies"
    case Headers => "headers"
    case Query => "query strings"
  }

  function Opening(w: Difference): string {
    match w
    case NowCaptures(_) => "now captures "
    case NoLongerCaptures(_) => "no longer captures "
    case StopsHeader(_) => "stops redacting header `"
    case StopsQuery(_) => "stops redacting query param `"
    case StopsPath(_) => "stops redacting `$."
    case NowPath(_) => "now redacts `$."
    case DropsLabel(_) => "drops label `"
    case DropsMeter(_) => "drops meter `"
  }

  function Subject(w: Difference): string {
    match w
    case NowCaptures(f) => FieldText(f)
    case NoLongerCaptures(f) => FieldText(f)
    case StopsHeader(n) => n
    case StopsQuery(n) => n
    case StopsPath(n) => n
    case NowPath(n) => n
    case DropsLabel(n) => n
    case DropsMeter(n) => n
  }

  function Closing(w: Difference): string {
    match w
    case NowCaptures(_) => " (was restricted)"
    case NoLongerCaptures(_) => ""
    case DropsLabel(_) => "` (breaks its Prometheus dimension)"
    case DropsMeter(_) => "` (usage and cost stop being attributed)"
    case _ => "`"
  }

  /** The human-readable description, which is also part of the aggregation key. */
  function Text(w: Difference): string {
    Opening(w) + (Subject(w) + Closing(w))
  }

  /** A stored record, with the normalised form of its path. */
  datatype Record = Record(attrs: Attrs, route: string, normalized: string)

  function RouteOf(rec: Record, p: Policy): string {
    if p.routePattern != "" then p.routePattern
    else if rec.route != "" then rec.route
    else rec.normalized
  }

  function Join(p: Path): string {
    if p == [] then "" else if |p| == 1 then p[0] else p[0] + "." + Join(p[1..])
  }

  function PathSet(paths: seq<Path>): set<string> {
    set p | p in paths :: Join(p)
  }

  /** What the replay of one record notes. */
  function Differences(bp: Policy, hp: Policy): set<Difference> {
    (set f | f in hp.capture && f !in bp.capture :: NowCaptures(f)) +
    (set f | f in bp.capture && f !in hp.capture :: NoLongerCaptures(f)) +
    (set h | h in bp.redactHeaders && h !in hp.redactHeaders && Headers in hp.capture :: StopsHeader(h)) +
    (set q | q in bp.redactQuery && q !in hp.redactQuery && Query in hp.capture :: StopsQuery(q)) +
    (set p | p in PathSet(bp.redactPaths) && p !in PathSet(hp.redactPaths) :: StopsPath(p)) +
    (set p | p in PathSet(hp.redactPaths) && p !in PathSet(bp.redactPaths) :: NowPath(p)) +
    (set l | l in bp.labels.Keys && l !in hp.labels.Keys :: DropsLabel(l)) +
    (set m | m in bp.meters.Keys && m !in hp.meters.Keys :: DropsMeter(m))
  }

  /** A difference as it is aggregated: per method and head route. */
  datatype Change = Change(httpMethod: string, route: string, what: Difference)

  datatype Entry = Entry(change: Change, affected: nat)

  function KeyOf(c: Change): string {
    c.httpMethod + ("|" + (c.route + ("|" + Text(c.what))))
  }

  function PolicyFor(w: World, e: EngineCfg, rec: Record): Policy {
    Merge(e.defaults, Matching(w, e.rules, rec.attrs))
  }

  function ChangesOf(w: World, base: EngineCfg, head: EngineCfg, rec: Record): set<Change> {
    var bp, hp := PolicyFor(w, base, rec), PolicyFor(w, head, rec);
    set d | d in Differences(bp, hp) :: Change(rec.attrs.httpMethod, RouteOf(rec, hp), d)
  }

  /** The replay of all records. */
  ghost function Replay(w: World, base: EngineCfg, head: EngineCfg, records: seq<Record>): seq<set<Change>> {
    seq(|records|, i requires 0 <= i < |records| => ChangesOf(w, base, head, records[i]))
  }

  // ------------------------------------------------------------ aggregation

  ghost predicate HasKey(cs: set<Change>, k: string) {
    exists c | c in cs :: KeyOf(c) == k
  }

  /** The records that note a change with this key. */
  ghost function Noting(notes: seq<set<Change>>, k: string): set<nat> {
    set i: nat | i < |notes| && HasKey(notes[i], k)
  }

  ghost predicate NotedSomewhere(notes: seq<set<Change>>, c: Change) {
    exists i | 0 <= i < |notes| :: c in notes[i]
  }

  ghost predicate NoneBefore(notes: seq<set<Change>>, n: nat, k: string) {
    forall i | 0 <= i < n && i < |notes| :: !HasKey(notes[i], k)
  }

  /** c is the first change with its key that is noted. */
  ghost predicate FirstNoted(notes: seq<set<Change>>, c: Change) {
    exists i: nat | i < |notes| :: c in notes[i] && NoneBefore(notes, i, KeyOf(c))
  }

  /** seen is the aggregation of what the records note: one entry per key, showing
      the change that was noted first under it. */
  ghost predicate Aggregates(seen: map<string, Entry>, notes: seq<set<Change>>) {
    && (forall c | NotedSomewhere(notes, c) :: KeyOf(c) in seen)
    && (forall k | k in seen ::
          && KeyOf(seen[k].change) == k
          && FirstNoted(notes, seen[k].change)
          && seen[k].affected == |Noting(notes, k)|)
  }

  /** `note`: one more request for this change. */
  function Note(seen: map<string, Entry>, c: Change): map<string, Entry> {
    var k := KeyOf(c);
    if k in seen then seen[k := Entry(seen[k].change, seen[k].affected + 1)] else seen[k := Entry(c, 1)]
  }

  method DiffPolicies(w: World, records: seq<Record>, base: EngineCfg, head: EngineCfg)
    returns (seen: map<string, Entry>)
    ensures Aggregates(seen, Replay(w, base, head, records))
  {
    seen := map[];
    assert Replay(w, base, head, records[..0]) == [];
    for i := 0 to |records|
      invariant Aggregates(seen, Replay(w, base, head, records[..i]))
    {
      ReplayOneMore(w, base, head, records, i);
      seen := DiffOne(w, records[i], base, head, seen, Replay(w, base, head, records[..i]));
    }
    assert records[..|records|] == records;
  }

  lemma ReplayOneMore(w: World, base: EngineCfg, head: EngineCfg, records: seq<Record>, i: nat)
    requires i < |records|
    ensures Replay(w, base, head, records[..i + 1]) ==
            Replay(w, base, head, records[..i]) + [ChangesOf(w, base, head, records[i])]
  {
  }

  /** The loop body: one record under both engines. */
  method DiffOne(w: World, rec: Record, base: EngineCfg, head: EngineCfg, before: map<string, Entry>,
                 ghost notes: seq<set<Change>>)
    returns (seen: map<string, Entry>)
    requires Aggregates(before, notes)
    ensures Aggregates(seen, notes + [ChangesOf(w, base, head, rec)])
  {
    var bp := Evaluate(w, base.defaults, base.rules, rec.attrs);
    var hp := Evaluate(w, head.defaults, head.rules, rec.attrs);
    var m, route := rec.attrs.httpMethod, RouteOf(rec, hp);
    var changes := set d | d in Differences(bp, hp) :: Change(m, route, d);
    KeysWithinRecord(changes, m, route);
    seen := NoteAll(before, changes);
    OneMoreRecord(seen, before, notes, changes);
    assert changes == ChangesOf(w, base, head, rec);
  }

  ghost predicate KeysDistinct(cs: set<Change>) {
    forall c, c' | c in cs && c' in cs :: KeyOf(c) == KeyOf(c') ==> c == c'
  }

  /** The changes of one record, in any order. */
  method NoteAll(before: map<string, Entry>, changes: set<Change>) returns (seen: map<string, Entry>)
    requires KeysDistinct(changes)
    ensures Noted(seen, before, changes)
  {
    seen := before;
    var todo := changes;
    while todo != {}
      invariant todo <= changes
      invariant Noted(seen, before, changes - todo)
      decreases todo
    {
      var c :| c in todo;
      assert !HasKey(changes - todo, KeyOf(c));
      OneMoreNote(seen, before, changes - todo, c);
      seen := Note(seen, c);
      assert changes - todo + {c} == changes - (todo - {c});
      todo := todo - {c};
    }
    assert changes - todo == changes;
  }

  /** seen is `before` with one more request for each change in done. */
  ghost predicate Noted(seen: map<string, Entry>, before: map<string, Entry>, done: set<Change>) {
    && (forall k :: k in seen <==> k in before || HasKey(done, k))
    && (forall k | k in before && !HasKey(done, k) :: seen[k] == before[k])
    && (forall c | c in done :: KeyOf(c) in seen && seen[KeyOf(c)] == Note(before, c)[KeyOf(c)])
  }

  lemma {:induction false} OneMoreNote(seen: map<string, Entry>, before: map<string, Entry>, done: set<Change>,
                                       c: Change)
    requires Noted(seen, before, done) && !HasKey(done, KeyOf(c))
    ensures Noted(Note(seen, c), before, done + {c})
  {
    OneMoreKey(done, c);
    NotedTogether(seen, before, done, c);
  }

  lemma {:induction false} NotedTogether(seen: map<string, Entry>, before: map<string, Entry>, done: set<Change>,
                                         c: Change)
    requires Noted(seen, before, done) && !HasKey(done, KeyOf(c))
    ensures forall d | d in done + {c} ::
              KeyOf(d) in Note(seen, c) && Note(seen, c)[KeyOf(d)] == Note(before, d)[KeyOf(d)]
  {
    var k := KeyOf(c);
    assert k in seen <==> k in before;
    forall d | d in done ensures KeyOf(d) != k && Note(seen, c)[KeyOf(d)] == seen[KeyOf(d)] {
      assert HasKey(done, KeyOf(d));
    }
  }

  lemma {:induction false} OneMoreKey(done: set<Change>, c: Change)
    ensures forall k :: HasKey(done + {c}, k) <==> HasKey(done, k) || k == KeyOf(c)
  {
    forall k ensures HasKey(done + {c}, k) <==> HasKey(done, k) || k == KeyOf(c) {
      if HasKey(done, k) {
        var c' :| c' in done && KeyOf(c') == k;
        assert c' in done + {c};
      }
      assert c in done + {c};
    }
  }

  lemma {:induction false} OneMoreRecord(seen: map<string, Entry>, before: map<string, Entry>,
                                         notes: seq<set<Change>>, cs: set<Change>)
    requires Aggregates(before, notes) && Noted(seen, before, cs)
    ensures Aggregates(seen, notes + [cs])
  {
    var all := notes + [cs];
    NotedOneMore(notes, cs);
    forall c | c in cs ensures KeyOf(c) in seen { assert HasKey(cs, KeyOf(c)); }
    forall k | k in seen
      ensures KeyOf(seen[k].change) == k && FirstNoted(all, seen[k].change)
      ensures seen[k].affected == |Noting(all, k)|
    {
      CountOneMore(seen, before, notes, cs, k);
    }
  }

  lemma {:induction false} NotedOneMore(notes: seq<set<Change>>, cs: set<Change>)
    ensures forall c :: NotedSomewhere(notes + [cs], c) <==> NotedSomewhere(notes, c) || c in cs
  {
    var all := notes + [cs];
    forall c ensures NotedSomewhere(all, c) <==> NotedSomewhere(notes, c) || c in cs {
      if i :| 0 <= i < |notes| && c in notes[i] { assert c in all[i]; }
      if c in cs { assert c in all[|notes|]; }
    }
  }

  lemma {:induction false} NotingOneMore(notes: seq<set<Change>>, cs: set<Change>, k: string)
    ensures |Noting(notes + [cs], k)| == |Noting(notes, k)| + if HasKey(cs, k) then 1 else 0
  {
    var all := notes + [cs];
    var now := if HasKey(cs, k) then Noting(notes, k) + {|notes|} else Noting(notes, k);
    forall i: nat ensures i in Noting(all, k) <==> i in now {
      if i < |notes| { assert all[i] == notes[i]; }
      if i == |notes| { assert all[i] == cs; }
    }
    assert Noting(all, k) == now;
  }

  lemma {:induction false} CountOneMore(seen: map<string, Entry>, before: map<string, Entry>, notes: seq<set<Change>>,
                           cs: set<Change>, k: string)
    requires Aggregates(before, notes) && Noted(seen, before, cs) && k in seen
    ensures KeyOf(seen[k].change) == k
    ensures FirstNoted(notes + [cs], seen[k].change)
    ensures seen[k].affected == |Noting(notes + [cs], k)|
  {
    NotingOneMore(notes, cs, k);
    if HasKey(cs, k) {
      var c :| c in cs && KeyOf(c) == k;
      assert seen[k] == Note(before, c)[k];
      if k !in before {
        NewKey(before, notes, k);
        NewIsFirst(notes, cs, c);
      }
    }
    if k in before {
      FirstStays(notes, cs, before[k].change);
    }
  }

  lemma {:induction false} NewKey(before: map<string, Entry>, notes: seq<set<Change>>, k: string)
    requires Aggregates(before, notes) && k !in before
    ensures NoneBefore(notes, |notes|, k) && Noting(notes, k) == {}
  {
    forall i: nat | i < |notes| ensures !HasKey(notes[i], k) {
      forall c | c in notes[i] ensures KeyOf(c) != k { assert NotedSomewhere(notes, c); }
    }
  }

  lemma {:induction false} NewIsFirst(notes: seq<set<Change>>, cs: set<Change>, c: Change)
    requires c in cs && NoneBefore(notes, |notes|, KeyOf(c))
    ensures FirstNoted(notes + [cs], c)
  {
    var all := notes + [cs];
    assert all[|notes|] == cs && forall i | 0 <= i < |notes| :: all[i] == notes[i];
    assert NoneBefore(all, |notes|, KeyOf(c));
  }

  lemma {:induction false} FirstStays(notes: seq<set<Change>>, cs: set<Change>, c: Change)
    requires FirstNoted(notes, c)
    ensures FirstNoted(notes + [cs], c)
  {
    var i: nat :| i < |notes| && c in notes[i] && NoneBefore(notes, i, KeyOf(c));
    var all := notes + [cs];
    assert forall j | 0 <= j < |notes| :: all[j] == notes[j];
    assert NoneBefore(all, i, KeyOf(c));
  }

  // ------------------------------------------------------------- exactness

  lemma {:induction false} AppendInjective(a: string, x: string, b: string, y: string)
    requires a + x == b + y && |a| == |b|
    ensures a == b && x == y
  {
    assert (a + x)[..|a|] == a && (b + y)[..|b|] == b;
    assert (a + x)[|a|..] == x && (b + y)[|b|..] == y;
  }

  lemma {:induction false} SameAt(s: string, x: string, t: string, y: string, i: nat)
    requires s + x == t + y && i < |s| && i < |t|
    ensures s[i] == t[i]
  {
    assert (s + x)[i] == s[i] && (t + y)[i] == t[i];
  }

  /** The openings already differ within their common length: by their first letter,
      and then by one more. */
  lemma {:induction false} OpeningsDiffer(a: Difference, b: Difference, x: string, y: string)
    requires Opening(a) + x == Opening(b) + y
    ensures Opening(a) == Opening(b) && Closing(a) == Closing(b)
  {
    SameAt(Opening(a), x, Opening(b), y, 0);
    if Opening(a)[0] == 'n' {
      CaptureOpeningsDiffer(a, b, x, y);
    } else if Opening(a)[0] == 's' {
      StopsOpeningsDiffer(a, b, x, y);
    } else {
      DropsOpeningsDiffer(a, b, x, y);
    }
  }

  lemma {:induction false} CaptureOpeningsDiffer(a: Difference, b: Difference, x: string, y: string)
    requires Opening(a) + x == Opening(b) + y && Opening(a)[0] == 'n' && Opening(b)[0] == 'n'
    ensures Opening(a) == Opening(b) && Closing(a) == Closing(b)
  {
    SameAt(Opening(a), x, Opening(b), y, 4);
  }

  lemma {:induction false} StopsOpeningsDiffer(a: Difference, b: Difference, x: string, y: string)
    requires Opening(a) + x == Opening(b) + y && Opening(a)[0] == 's' && Opening(b)[0] == 's'
    ensures Opening(a) == Opening(b) && Closing(a) == Closing(b)
  {
    SameAt(Opening(a), x, Opening(b), y, 16);
  }

  lemma {:induction false} DropsOpeningsDiffer(a: Difference, b: Difference, x: string, y: string)
    requires Opening(a) + x == Opening(b) + y && Opening(a)[0] == 'd' && Opening(b)[0] == 'd'
    ensures Opening(a) == Opening(b) && Closing(a) == Closing(b)
  {
    SameAt(Opening(a), x, Opening(b), y, 6);
  }

  /** The description determines the difference. */
  lemma {:induction false} TextInjective(a: Difference, b: Difference)
    requires Text(a) == Text(b)
    ensures a == b
  {
    OpeningsDiffer(a, b, Subject(a) + Closing(a), Subject(b) + Closing(b));
    AppendInjective(Opening(a), Subject(a) + Closing(a), Opening(b), Subject(b) + Closing(b));
    assert |Subject(a)| == |Subject(b)|;
    AppendInjective(Subject(a), Closing(a), Subject(b), Closing(b));
    SameOpeningSameKind(a, b);
  }

  lemma {:induction false} SameOpeningSameKind(a: Difference, b: Difference)
    requires Opening(a) == Opening(b) && Subject(a) == Subject(b)
    ensures a == b
  {
    var s, t := Opening(a), Opening(b);
    assert s[0] == t[0] && s[1] == t[1] && s[4] == t[4] && s[6] == t[6];
    if |s| > 16 { assert s[16] == t[16]; }
    assert forall f: CaptureField, g: CaptureField :: FieldText(f) == FieldText(g) ==> f == g by {
      assert |FieldText(RequestBody)| == 14 && |FieldText(ResponseBody)| == 15;
      assert |FieldText(Headers)| == 7 && |FieldText(Query)| == 13;
    }
  }

  /** Within one record the method and the route are fixed, so keys are distinct. */
  lemma {:induction false} KeysWithinRecord(cs: set<Change>, m: string, route: string)
    requires forall c | c in cs :: c.httpMethod == m && c.route == route
    ensures KeysDistinct(cs)
  {
    forall c, c' | c in cs && c' in cs && KeyOf(c) == KeyOf(c') ensures c == c' {
      AppendInjective(m, "|" + (route + ("|" + Text(c.what))), m, "|" + (route + ("|" + Text(c'.what))));
      AppendInjective("|", route + ("|" + Text(c.what)), "|", route + ("|" + Text(c'.what)));
      AppendInjective(route, "|" + Text(c.what), route, "|" + Text(c'.what));
      AppendInjective("|", Text(c.what), "|", Text(c'.what));
      TextInjective(c.what, c'.what);
    }
  }

  /** No two noted changes share a key. */
  ghost predicate KeysUnambiguous(notes: seq<set<Change>>) {
    forall c, c' | NotedSomewhere(notes, c) && NotedSomewhere(notes, c') :: KeyOf(c) == KeyOf(c') ==> c == c'
  }

  /** The records that note exactly this change. */
  ghost function Affected(notes: seq<set<Change>>, c: Change): set<nat> {
    set i: nat | i < |notes| && c in notes[i]
  }

  /** The report lists c, with this number of requests. */
  ghost predicate Lists(seen: map<string, Entry>, c: Change, affected: nat) {
    KeyOf(c) in seen && seen[KeyOf(c)] == Entry(c, affected)
  }

  /** Soundness and completeness: every noted change is listed with the exact
      number of records that note it, and nothing else is listed. */
  ghost predicate ReportExact(seen: map<string, Entry>, notes: seq<set<Change>>) {
    && (forall c | NotedSomewhere(notes, c) :: Lists(seen, c, |Affected(notes, c)|))
    && (forall k | k in seen :: NotedSomewhere(notes, seen[k].change))
  }

  /** The report is exact if and only if no two different changes share a key. */
  lemma {:induction false} ReportExactIff(seen: map<string, Entry>, notes: seq<set<Change>>)
    requires Aggregates(seen, notes)
    ensures ReportExact(seen, notes) <==> KeysUnambiguous(notes)
  {
    if KeysUnambiguous(notes) {
      forall c | NotedSomewhere(notes, c) ensures Lists(seen, c, |Affected(notes, c)|) {
        var k := KeyOf(c);
        forall i: nat | i < |notes| ensures i in Noting(notes, k) <==> i in Affected(notes, c) {
          if c' :| c' in notes[i] && KeyOf(c') == k {
            assert NotedSomewhere(notes, c');
          }
        }
        assert Noting(notes, k) == Affected(notes, c);
      }
    }
    if ReportExact(seen, notes) {
      forall c, c' | NotedSomewhere(notes, c) && NotedSomewhere(notes, c') && KeyOf(c) == KeyOf(c') ensures c == c' {
        assert Lists(seen, c, |Affected(notes, c)|);
        assert Lists(seen, c', |Affected(notes, c')|);
      }
    }
  }

  predicate NoPipe(s: string) { '|' !in s }

  /** Keys are unambiguous whenever methods and routes contain no "|". */
  lemma {:induction false} NoPipesUnambiguous(notes: seq<set<Change>>)
    requires forall c | NotedSomewhere(notes, c) :: NoPipe(c.httpMethod) && NoPipe(c.route)
    ensures KeysUnambiguous(notes)
  {
    forall c, c' | NotedSomewhere(notes, c) && NotedSomewhere(notes, c') && KeyOf(c) == KeyOf(c') ensures c == c' {
      CutAtPipe(c.httpMethod, c.route + ("|" + Text(c.what)), c'.httpMethod, c'.route + ("|" + Text(c'.what)));
      CutAtPipe(c.route, Text(c.what), c'.route, Text(c'.what));
      TextInjective(c.what, c'.what);
    }
  }

  /** A separator that does not occur before it marks where to cut. */
  lemma {:induction false} SameCut(a: string, x: string, b: string, y: string, sep: char)
    requires sep !in a && sep !in b && a + ([sep] + x) == b + ([sep] + y)
    ensures |a| == |b|
  {
    var s, t := a + ([sep] + x), b + ([sep] + y);
    assert s[|a|] == sep && t[|b|] == sep;
    assert forall i | 0 <= i < |a| :: s[i] == a[i] && a[i] in a;
    assert forall i | 0 <= i < |b| :: t[i] == b[i] && b[i] in b;
  }

  lemma {:induction false} CutAtPipe(a: string, x: string, b: string, y: string)
    requires NoPipe(a) && NoPipe(b) && a + ("|" + x) == b + ("|" + y)
    ensures a == b && x == y
  {
    SameCut(a, x, b, y, '|');
    AppendInjective(a, "|" + x, b, "|" + y);
    AppendInjective("|", x, "|", y);
  }

  lemma {:induction false} Associate(a: string, b: string, c: string)
    ensures (a + b) + c == a + (b + c)
  {
  }

  /** Method and route, as a key begins. */
  function Head(c: Change): string {
    c.httpMethod + ("|" + c.route)
  }

  lemma {:induction false} KeyIsHeadAndText(c: Change)
    ensures KeyOf(c) == Head(c) + ("|" + Text(c.what))
  {
    Associate(c.httpMethod, "|" + c.route, "|" + Text(c.what));
    Associate("|", c.route, "|" + Text(c.what));
  }

  /** a's method and route go on with a "|" where b's end, and b's description makes
      up for it. */
  ghost predicate Overlaps(a: Change, b: Change) {
    exists x: string :: Head(a) == Head(b) + ("|" + x) && Text(b.what) == x + ("|" + Text(a.what))
  }

  /** Method and route read alike, though they are divided differently. */
  predicate Blurs(a: Change, b: Change) {
    Head(a) == Head(b) && a.what == b.what && a != b
  }

  lemma {:induction false} OverlapCollides(a: Change, b: Change)
    requires Overlaps(a, b)
    ensures KeyOf(a) == KeyOf(b) && a != b
  {
    var x: string :| Head(a) == Head(b) + ("|" + x) && Text(b.what) == x + ("|" + Text(a.what));
    KeyIsHeadAndText(a);
    KeyIsHeadAndText(b);
    Associate(Head(b), "|" + x, "|" + Text(a.what));
    Associate("|", x, "|" + Text(a.what));
  }

  /** Where the longer of two heads is cut. */
  lemma {:induction false} LongerHead(r: string, t: string, r': string, t': string)
    requires |r| > |r'| && r + ("|" + t) == r' + ("|" + t')
    ensures r == r' + ("|" + r[|r'| + 1..]) && t' == r[|r'| + 1..] + ("|" + t)
  {
    var s, n := r + ("|" + t), |r'|;
    assert r == s[..|r|] && s[..n] == r' && s[n] == '|';
    assert s[n + 1..] == r[n + 1..] + ("|" + t);
    assert s[n + 1..] == (r' + ("|" + t'))[n + 1..] == t';
  }

  lemma {:induction false} CollisionOverlaps(a: Change, b: Change)
    requires KeyOf(a) == KeyOf(b) && |Head(a)| > |Head(b)|
    ensures Overlaps(a, b)
  {
    KeyIsHeadAndText(a);
    KeyIsHeadAndText(b);
    LongerHead(Head(a), Text(a.what), Head(b), Text(b.what));
  }

  lemma {:induction false} CollisionBlurs(a: Change, b: Change)
    requires KeyOf(a) == KeyOf(b) && |Head(a)| == |Head(b)|
    ensures Head(a) == Head(b) && a.what == b.what
  {
    KeyIsHeadAndText(a);
    KeyIsHeadAndText(b);
    AppendInjective(Head(a), "|" + Text(a.what), Head(b), "|" + Text(b.what));
    AppendInjective("|", Text(a.what), "|", Text(b.what));
    TextInjective(a.what, b.what);
  }

  /** Two different changes share a key exactly when their methods and routes read
      alike and they say the same, or when one overlaps the other: its method and
      route are the other's, a "|" and x, and the other description is x, a "|" and
      its own. */
  lemma {:induction false} KeysCollideIff(a: Change, b: Change)
    ensures KeyOf(a) == KeyOf(b) && a != b <==> Blurs(a, b) || Overlaps(a, b) || Overlaps(b, a)
  {
    if Overlaps(a, b) { OverlapCollides(a, b); }
    if Overlaps(b, a) { OverlapCollides(b, a); }
    if Blurs(a, b) {
      KeyIsHeadAndText(a);
      KeyIsHeadAndText(b);
    }
    if KeyOf(a) == KeyOf(b) && a != b {
      if |Head(a)| > |Head(b)| {
        CollisionOverlaps(a, b);
      } else if |Head(a)| < |Head(b)| {
        CollisionOverlaps(b, a);
      } else {
        CollisionBlurs(a, b);
      }
    }
  }

  /** No two of the changes are confused by the key. */
  ghost predicate NoOverlap(notes: seq<set<Change>>) {
    forall a, b | NotedSomewhere(notes, a) && NotedSomewhere(notes, b) :: !Overlaps(a, b) && !Blurs(a, b)
  }

  lemma {:induction false} UnambiguousIff(notes: seq<set<Change>>)
    ensures KeysUnambiguous(notes) <==> NoOverlap(notes)
  {
    if NoOverlap(notes) {
      forall a, b | NotedSomewhere(notes, a) && NotedSomewhere(notes, b) && KeyOf(a) == KeyOf(b) ensures a == b {
        KeysCollideIff(a, b);
      }
    }
    if KeysUnambiguous(notes) {
      forall a, b | NotedSomewhere(notes, a) && NotedSomewhere(notes, b) ensures !Overlaps(a, b) && !Blurs(a, b) {
        KeysCollideIff(a, b);
      }
    }
  }

  /** The report is exact if and only if no two noted changes overlap or read alike. */
  lemma {:induction false} ReportExactUnlessOverlap(seen: map<string, Entry>, notes: seq<set<Change>>)
    requires Aggregates(seen, notes)
    ensures ReportExact(seen, notes) <==> NoOverlap(notes)
  {
    ReportExactIff(seen, notes);
    UnambiguousIff(notes);
  }

  // -------------------------------------------------- a report that hides a loss

  function RedactingRule(pattern: string, segs: seq<string>, paths: seq<Path>): Rule {
    Rule(pattern, pattern, segs, None, None, map[], map[], map[], None, None, 0, [], [], [], paths, map[], map[])
  }

  /** The base engine redacts p everywhere. */
  function BaseEngine(d: Defaults, p: Path): EngineCfg {
    EngineCfg(d, [RedactingRule("/**", [ANY_SEGMENTS], [p])])
  }

  /** The head engine redacts p on one path only, and there also a field whose name
      reads like the end of a key. */
  function HeadEngine(d: Defaults, p: Path, x: string): EngineCfg {
    EngineCfg(d, [RedactingRule("/a", ["a"], [p, LikeKey(x, p)])])
  }

  function LikeKey(x: string, p: Path): Path {
    [x + "|stops redacting `$"] + p
  }

  /** A request to the one path, and one to another, whose recorded route contains
      the separator. */
  function FirstRequest(): Record {
    Record(Attrs("GET", ["a"], None, None, None, None), "/a", "/a")
  }

  function SecondRequest(x: string): Record {
    Record(Attrs("GET", ["b"], None, None, None, None), "/a|now redacts `$." + x, "/b")
  }

  lemma {:induction false} JoinLikeKey(x: string, p: Path)
    requires p != []
    ensures Join(LikeKey(x, p)) == x + ("|" + (Opening(StopsPath("")) + Join(p)))
  {
    assert LikeKey(x, p)[1..] == p;
    Associate(x, "|stops redacting `$", "." + Join(p));
    assert "|stops redacting `$" + ("." + Join(p)) == "|" + ("stops redacting `$." + Join(p));
  }

  /** Policies that differ in their redacted paths only. */
  lemma OnlyPathsDiffer(bp: Policy, hp: Policy)
    requires bp.capture == hp.capture && bp.labels == hp.labels && bp.meters == hp.meters
    requires bp.redactHeaders == hp.redactHeaders && bp.redactQuery == hp.redactQuery
    ensures Differences(bp, hp) ==
            (set p | p in PathSet(bp.redactPaths) - PathSet(hp.redactPaths) :: StopsPath(p)) +
            (set p | p in PathSet(hp.redactPaths) - PathSet(bp.redactPaths) :: NowPath(p))
  {
  }

  lemma OneRulePolicy(w: World, d: Defaults, r: Rule, a: Attrs)
    ensures Merge(d, Matching(w, [r], a)) == if Matches(w, r, a) then Apply(Initial(d), r) else Initial(d)
  {
    assert [r][1..] == [] && [r][..0] == [];
    assert Matching(w, [r], a) == if Matches(w, r, a) then [r] else [];
  }

  function Gain(x: string, p: Path): Change
    requires p != []
  {
    Change("GET", "/a", NowPath(Join(LikeKey(x, p))))
  }

  function Loss(x: string, p: Path): Change {
    Change("GET", "/a|now redacts `$." + x, StopsPath(Join(p)))
  }

  lemma OneChange(w: World, base: EngineCfg, head: EngineCfg, rec: Record, d: Difference)
    requires Differences(PolicyFor(w, base, rec), PolicyFor(w, head, rec)) == {d}
    ensures ChangesOf(w, base, head, rec) ==
            {Change(rec.attrs.httpMethod, RouteOf(rec, PolicyFor(w, head, rec)), d)}
  {
  }

  /** What a policy redacts and what its route is, when at most one rule applies. */
  lemma {:induction false} OneRuleEffect(w: World, d: Defaults, r: Rule, a: Attrs)
    requires r == RedactingRule(r.rawPattern, r.pathSegs, r.redactPaths)
    ensures var p, m := Merge(d, Matching(w, [r], a)), MatchSegments(w.segment, r.pathSegs, a.pathSegs);
            p == Initial(d).(redactPaths := if m then r.redactPaths else [],
                             routePattern := if m then r.rawPattern else "",
                             matchedRules := if m then [r.rawPattern] else [])
  {
    OneRulePolicy(w, d, r, a);
    assert AddMeters(map[], map[]) == map[];
    assert [] + r.redactPaths == r.redactPaths && [] + [r.rawPattern] == [r.rawPattern];
  }

  lemma {:induction false} FirstRecord(w: World, d: Defaults, p: Path, x: string)
    requires p != [] && w.segment("a", "a")
    ensures ChangesOf(w, BaseEngine(d, p), HeadEngine(d, p, x), FirstRequest()) == {Gain(x, p)}
  {
    var rec, base, head := FirstRequest(), BaseEngine(d, p), HeadEngine(d, p, x);
    OneRuleEffect(w, d, base.rules[0], rec.attrs);
    OneRuleEffect(w, d, head.rules[0], rec.attrs);
    assert MatchSegments(w.segment, ["a"], ["a"]) by { assert ["a"][1..] == []; }
    GainOnly(PolicyFor(w, base, rec), PolicyFor(w, head, rec), p, x);
    OneChange(w, base, head, rec, Gain(x, p).what);
  }

  lemma {:induction false} GainOnly(bp: Policy, hp: Policy, p: Path, x: string)
    requires bp.capture == hp.capture && bp.labels == hp.labels && bp.meters == hp.meters
    requires bp.redactHeaders == hp.redactHeaders && bp.redactQuery == hp.redactQuery
    requires p != [] && bp.redactPaths == [p] && hp.redactPaths == [p, LikeKey(x, p)]
    ensures Differences(bp, hp) == {NowPath(Join(LikeKey(x, p)))}
  {
    JoinLikeKey(x, p);
    assert PathSet([p]) == {Join(p)} && PathSet([p, LikeKey(x, p)]) == {Join(p), Join(LikeKey(x, p))};
    OnlyPathsDiffer(bp, hp);
  }

  lemma {:induction false} SecondPolicies(w: World, d: Defaults, p: Path, x: string)
    requires !w.segment("a", "b")
    ensures PolicyFor(w, BaseEngine(d, p), SecondRequest(x)) ==
            Initial(d).(redactPaths := [p], routePattern := "/**", matchedRules := ["/**"])
    ensures PolicyFor(w, HeadEngine(d, p, x), SecondRequest(x)) == Initial(d)
  {
    var rec, base, head := SecondRequest(x), BaseEngine(d, p), HeadEngine(d, p, x);
    OneRuleEffect(w, d, base.rules[0], rec.attrs);
    OneRuleEffect(w, d, head.rules[0], rec.attrs);
    assert MatchSegments(w.segment, [ANY_SEGMENTS], ["b"]) && !MatchSegments(w.segment, ["a"], ["b"]);
  }

  lemma {:induction false} SecondRecord(w: World, d: Defaults, p: Path, x: string)
    requires p != [] && !w.segment("a", "b")
    ensures ChangesOf(w, BaseEngine(d, p), HeadEngine(d, p, x), SecondRequest(x)) == {Loss(x, p)}
    ensures StopsMasking(w, BaseEngine(d, p), HeadEngine(d, p, x), SecondRequest(x), Join(p))
  {
    var rec, base, head := SecondRequest(x), BaseEngine(d, p), HeadEngine(d, p, x);
    SecondPolicies(w, d, p, x);
    LossOnly(PolicyFor(w, base, rec), PolicyFor(w, head, rec), p);
    OneChange(w, base, head, rec, StopsPath(Join(p)));
  }

  lemma {:induction false} LossOnly(bp: Policy, hp: Policy, p: Path)
    requires bp.capture == hp.capture && bp.labels == hp.labels && bp.meters == hp.meters
    requires bp.redactHeaders == hp.redactHeaders && bp.redactQuery == hp.redactQuery
    requires bp.redactPaths == [p] && hp.redactPaths == []
    ensures Differences(bp, hp) == {StopsPath(Join(p))}
    ensures PathSet(bp.redactPaths) == {Join(p)} && PathSet(hp.redactPaths) == {}
  {
    OnlyPathsDiffer(bp, hp);
  }

  lemma {:induction false} LossOverlapsGain(x: string, p: Path)
    requires p != []
    ensures Overlaps(Loss(x, p), Gain(x, p))
  {
    HeadsFit(x, p);
    TextsFit(x, p);
  }

  lemma {:induction false} HeadsFit(x: string, p: Path)
    requires p != []
    ensures Head(Loss(x, p)) == Head(Gain(x, p)) + ("|" + ("now redacts `$." + x))
  {
    var y := "|" + ("now redacts `$." + x);
    assert "/a|now redacts `$." + x == "/a" + y by { RoutesFit(x); }
    Associate("GET", "|" + "/a", y);
    Associate("|", "/a", y);
  }

  lemma {:induction false} RoutesFit(x: string)
    ensures "/a|now redacts `$." + x == "/a" + ("|" + ("now redacts `$." + x))
  {
    assert "/a|now redacts `$." == "/a" + ("|" + "now redacts `$.");
    Associate("/a", "|" + "now redacts `$.", x);
    Associate("|", "now redacts `$.", x);
  }

  lemma {:induction false} TextsFit(x: string, p: Path)
    requires p != []
    ensures Text(NowPath(Join(LikeKey(x, p)))) == ("now redacts `$." + x) + ("|" + Text(StopsPath(Join(p))))
  {
    var now, stops, q := "now redacts `$.", Opening(StopsPath("")), "`";
    JoinLikeKey(x, p);
    Associate(x, "|" + (stops + Join(p)), q);
    Associate("|", stops + Join(p), q);
    Associate(stops, Join(p), q);
    Associate(now, x, "|" + (stops + (Join(p) + q)));
  }

  /** Two engines and two requests, for every path p and every name x: head no longer
      redacts p for the second request (`SecondRecord`), which blocks, yet the report
      on them lists nothing but one informational entry, with two requests. */
  lemma {:induction false} CollisionHidesBlocking(w: World, d: Defaults, p: Path, x: string, seen: map<string, Entry>)
    requires p != [] && w.segment("a", "a") && !w.segment("a", "b")
    requires Aggregates(seen, Replay(w, BaseEngine(d, p), HeadEngine(d, p, x), [FirstRequest(), SecondRequest(x)]))
    ensures OnlyEntry(seen, Gain(x, p), 2)
  {
    TwoNotes(w, d, p, x);
    LossIsHidden(seen, x, p);
  }

  /** The report consists of this entry. */
  ghost predicate OnlyEntry(seen: map<string, Entry>, c: Change, affected: nat) {
    seen == map[KeyOf(c) := Entry(c, affected)]
  }

  lemma {:induction false} LossIsHidden(seen: map<string, Entry>, x: string, p: Path)
    requires p != [] && Aggregates(seen, [{Gain(x, p)}, {Loss(x, p)}])
    ensures OnlyEntry(seen, Gain(x, p), 2)
  {
    GainAndLossCollide(x, p);
    SecondIsHidden(seen, Gain(x, p), Loss(x, p));
  }

  lemma {:induction false} GainAndLossCollide(x: string, p: Path)
    requires p != []
    ensures KeyOf(Gain(x, p)) == KeyOf(Loss(x, p))
    ensures SeverityOf(Gain(x, p).what).Info? && SeverityOf(Loss(x, p).what).Blocking?
  {
    LossOverlapsGain(x, p);
    OverlapCollides(Loss(x, p), Gain(x, p));
  }

  lemma {:induction false} TwoNotes(w: World, d: Defaults, p: Path, x: string)
    requires p != [] && w.segment("a", "a") && !w.segment("a", "b")
    ensures Replay(w, BaseEngine(d, p), HeadEngine(d, p, x), [FirstRequest(), SecondRequest(x)]) ==
            [{Gain(x, p)}, {Loss(x, p)}]
  {
    FirstRecord(w, d, p, x);
    SecondRecord(w, d, p, x);
    ReplayOfTwo(w, BaseEngine(d, p), HeadEngine(d, p, x), FirstRequest(), SecondRequest(x));
  }

  lemma ReplayOfTwo(w: World, base: EngineCfg, head: EngineCfg, a: Record, b: Record)
    ensures Replay(w, base, head, [a, b]) == [ChangesOf(w, base, head, a), ChangesOf(w, base, head, b)]
  {
  }

  /** The second of two colliding changes is counted under the first. */
  lemma {:induction false} SecondIsHidden(seen: map<string, Entry>, a: Change, b: Change)
    requires KeyOf(a) == KeyOf(b) && Aggregates(seen, [{a}, {b}])
    ensures OnlyEntry(seen, a, 2)
  {
    TwoNotings(a, b);
    forall k | k in seen ensures k == KeyOf(a) && seen[k].change == a {
      FirstOfTwo(a, b, seen[k].change);
    }
  }

  lemma {:induction false} FirstOfTwo(a: Change, b: Change, c: Change)
    requires KeyOf(a) == KeyOf(b) && FirstNoted([{a}, {b}], c)
    ensures c == a
  {
    var notes := [{a}, {b}];
    TwoNotings(a, b);
    var i: nat :| i < |notes| && c in notes[i] && NoneBefore(notes, i, KeyOf(c));
    assert HasKey(notes[0], KeyOf(a));
  }

  lemma {:induction false} TwoNotings(a: Change, b: Change)
    requires KeyOf(a) == KeyOf(b)
    ensures Noting([{a}, {b}], KeyOf(a)) == {0, 1}
    ensures HasKey([{a}, {b}][0], KeyOf(a)) && NotedSomewhere([{a}, {b}], a)
  {
    var notes, k := [{a}, {b}], KeyOf(a);
    assert a in notes[0] && b in notes[1];
    assert HasKey(notes[0], k) && HasKey(notes[1], k);
  }

  // ------------------------------------------------- what an entry means

  /** p is masked by base and not by head on this record. */
  ghost predicate StopsMasking(w: World, base: EngineCfg, head: EngineCfg, rec: Record, p: string) {
    p in PathSet(PolicyFor(w, base, rec).redactPaths) && p !in PathSet(PolicyFor(w, head, rec).redactPaths)
  }

  lemma {:induction false} StopsPathNoted(w: World, base: EngineCfg, head: EngineCfg, rec: Record, m: string,
                                          route: string, p: string)
    ensures Change(m, route, StopsPath(p)) in ChangesOf(w, base, head, rec) <==>
            rec.attrs.httpMethod == m && RouteOf(rec, PolicyFor(w, head, rec)) == route &&
            StopsMasking(w, base, head, rec, p)
  {
    var bp, hp := PolicyFor(w, base, rec), PolicyFor(w, head, rec);
    DifferencesStopsPath(bp, hp, p);
  }

  lemma DifferencesStopsPath(bp: Policy, hp: Policy, p: string)
    ensures StopsPath(p) in Differences(bp, hp) <==> p in PathSet(bp.redactPaths) && p !in PathSet(hp.redactPaths)
  {
  }

  ghost predicate Redacts(p: Policy, path: string) {
    exists q | q in p.redactPaths :: Join(q) == path
  }

  /** What each kind of difference says of the two policies. */
  ghost predicate Occurs(bp: Policy, hp: Policy, d: Difference) {
    match d
    case NowCaptures(f) => f !in bp.capture && f in hp.capture
    case NoLongerCaptures(f) => f in bp.capture && f !in hp.capture
    case StopsHeader(h) => h in bp.redactHeaders && h !in hp.redactHeaders && Headers in hp.capture
    case StopsQuery(q) => q in bp.redactQuery && q !in hp.redactQuery && Query in hp.capture
    case StopsPath(p) => Redacts(bp, p) && !Redacts(hp, p)
    case NowPath(p) => !Redacts(bp, p) && Redacts(hp, p)
    case DropsLabel(l) => l in bp.labels && l !in hp.labels
    case DropsMeter(m) => m in bp.meters && m !in hp.meters
  }

  lemma {:induction false} DifferencesAre(bp: Policy, hp: Policy, d: Difference)
    ensures d in Differences(bp, hp) <==> Occurs(bp, hp, d)
  {
    match d
    case NowCaptures(_) =>
    case NoLongerCaptures(_) =>
    case StopsHeader(_) =>
    case StopsQuery(_) =>
    case StopsPath(_) =>
    case NowPath(_) =>
    case DropsLabel(_) =>
    case DropsMeter(_) =>
  }

  /** The route a record is reported under: the head's pattern, else the stored route,
      else the normalised path. */
  predicate ReportedUnder(rec: Record, hp: Policy, route: string) {
    && (hp.routePattern != "" ==> route == hp.routePattern)
    && (hp.routePattern == "" && rec.route != "" ==> route == rec.route)
    && (hp.routePattern == "" && rec.route == "" ==> route == rec.normalized)
  }

  /** The records of a method and head route on which the difference occurs. */
  ghost function Occurring(w: World, base: EngineCfg, head: EngineCfg, records: seq<Record>,
                           m: string, route: string, d: Difference): set<nat>
  {
    set i: nat | i < |records| && records[i].attrs.httpMethod == m &&
                 ReportedUnder(records[i], PolicyFor(w, head, records[i]), route) &&
                 Occurs(PolicyFor(w, base, records[i]), PolicyFor(w, head, records[i]), d)
  }

  lemma {:induction false} AffectedAreOccurring(w: World, base: EngineCfg, head: EngineCfg, records: seq<Record>,
                                                m: string, route: string, d: Difference)
    ensures var notes, c := Replay(w, base, head, records), Change(m, route, d);
            Affected(notes, c) == Occurring(w, base, head, records, m, route, d) &&
            (NotedSomewhere(notes, c) <==> Affected(notes, c) != {})
  {
    var notes, c := Replay(w, base, head, records), Change(m, route, d);
    forall i: nat | i < |records|
      ensures i in Affected(notes, c) <==> i in Occurring(w, base, head, records, m, route, d)
    {
      DifferencesAre(PolicyFor(w, base, records[i]), PolicyFor(w, head, records[i]), d);
    }
    if i :| 0 <= i < |notes| && c in notes[i] { assert i in Affected(notes, c); }
  }

  /** For every kind of difference: an entry with count n is in the report exactly when
      n is the number, not zero, of records of that method and head route on which the
      difference occurs. */
  lemma {:induction false} EntryMeans(seen: map<string, Entry>, w: World, base: EngineCfg, head: EngineCfg,
                                      records: seq<Record>, m: string, route: string, d: Difference, n: nat)
    requires Aggregates(seen, Replay(w, base, head, records)) && KeysUnambiguous(Replay(w, base, head, records))
    ensures Lists(seen, Change(m, route, d), n) <==>
            n > 0 && n == |Occurring(w, base, head, records, m, route, d)|
  {
    AffectedAreOccurring(w, base, head, records, m, route, d);
    ListedIff(seen, Replay(w, base, head, records), Change(m, route, d), n);
  }

  /** Losing a redaction blocks; capturing more, or losing a label or a meter, warns; the
      rest informs. */
  lemma {:induction false} SeveritiesAre(d: Difference)
    ensures SeverityOf(d).Blocking? <==> d.StopsHeader? || d.StopsQuery? || d.StopsPath?
    ensures SeverityOf(d).Warn? <==> d.NowCaptures? || d.DropsLabel? || d.DropsMeter?
    ensures SeverityOf(d).Info? <==> d.NoLongerCaptures? || d.NowPath?
  {
  }

  /** What the reader of a report sees. */
  lemma {:induction false} TextsAre(n: string)
    ensures Text(StopsHeader(n)) == "stops redacting header `" + (n + "`")
    ensures Text(StopsQuery(n)) == "stops redacting query param `" + (n + "`")
    ensures Text(StopsPath(n)) == "stops redacting `$." + (n + "`")
    ensures Text(NowPath(n)) == "now redacts `$." + (n + "`")
    ensures Text(DropsLabel(n)) == "drops label `" + (n + "` (breaks its Prometheus dimension)")
    ensures Text(DropsMeter(n)) == "drops meter `" + (n + "` (usage and cost stop being attributed)")
  {
  }

  lemma {:induction false} CaptureTextsAre(f: CaptureField)
    ensures var field := (match f
                          case RequestBody => "request bodies"
                          case ResponseBody => "response bodies"
                          case Headers => "headers"
                          case Query => "query strings");
            && Text(NowCaptures(f)) == "now captures " + (field + " (was restricted)")
            && Text(NoLongerCaptures(f)) == "no longer captures " + (field + "")
  {
  }

  /** The text of a path is its segments, with dots between them. */
  lemma {:induction false} JoinIs(p: Path, q: Path)
    ensures |p| == 1 ==> Join(p) == p[0]
    ensures p != [] && q != [] ==> Join(p + q) == Join(p) + "." + Join(q)
  {
    if p != [] && q != [] {
      assert (p + q)[1..] == p[1..] + q;
      if |p| > 1 {
        JoinIs(p[1..], q);
        assert p[0] + ("." + (Join(p[1..]) + "." + Join(q))) == p[0] + ("." + Join(p[1..])) + "." + Join(q);
        assert p[0] + "." + Join(p[1..]) == p[0] + ("." + Join(p[1..]));
      } else {
        assert p[1..] + q == q;
      }
    }
  }

  /** In an exact report a change is listed with n exactly when n > 0 records note it. */
  lemma {:induction false} ListedIff(seen: map<string, Entry>, notes: seq<set<Change>>, c: Change, n: nat)
    requires Aggregates(seen, notes) && KeysUnambiguous(notes)
    requires NotedSomewhere(notes, c) <==> Affected(notes, c) != {}
    ensures Lists(seen, c, n) <==> n > 0 && n == |Affected(notes, c)|
  {
    ReportExactIff(seen, notes);
  }

  lemma NoSelfDifferences(p: Policy)
    ensures Differences(p, p) == {}
  {
  }

  lemma NothingNoted(seen: map<string, Entry>, notes: seq<set<Change>>)
    requires Aggregates(seen, notes) && forall i | 0 <= i < |notes| :: notes[i] == {}
    ensures seen == map[]
  {
  }

  /** An engine compared with itself reports nothing. */
  lemma {:induction false} SelfDiffIsEmpty(seen: map<string, Entry>, w: World, e: EngineCfg, records: seq<Record>)
    requires Aggregates(seen, Replay(w, e, e, records))
    ensures seen == map[]
  {
    var notes := Replay(w, e, e, records);
    forall i | 0 <= i < |notes| ensures notes[i] == {} {
      NoSelfDifferences(PolicyFor(w, e, records[i]));
    }
    NothingNoted(seen, notes);
  }

  /** Split paths: at least one segment, none containing the separator. */
  predicate SplitPath(p: Path) {
    p != [] && forall s | s in p :: '.' !in s
  }

  lemma {:induction false} JoinHasDot(p: Path)
    requires |p| > 1
    ensures '.' in Join(p)
  {
    assert Join(p)[|p[0]|] == '.';
  }

  lemma {:induction false} JoinInjective(p: Path, q: Path)
    requires SplitPath(p) && SplitPath(q) && Join(p) == Join(q)
    ensures p == q
  {
    assert p[0] in p && q[0] in q;
    if |p| > 1 { JoinHasDot(p); }
    if |q| > 1 { JoinHasDot(q); }
    if |p| > 1 {
      assert Join(p) == p[0] + ("." + Join(p[1..])) == q[0] + ("." + Join(q[1..]));
      SameCut(p[0], Join(p[1..]), q[0], Join(q[1..]), '.');
      AppendInjective(p[0], "." + Join(p[1..]), q[0], "." + Join(q[1..]));
      AppendInjective(".", Join(p[1..]), ".", Join(q[1..]));
      JoinInjective(p[1..], q[1..]);
      assert p == [p[0]] + p[1..] && q == [q[0]] + q[1..];
    }
  }

  /** If no entry of the report says that a JSON path stops being redacted, head
      hides every body location that base hides, for every record. */
  lemma {:induction false} NoBlockingMeansNoLoss(seen: map<string, Entry>, w: World, base: EngineCfg, head: EngineCfg,
                              records: seq<Record>, i: nat, l: Location)
    requires Aggregates(seen, Replay(w, base, head, records)) && KeysUnambiguous(Replay(w, base, head, records))
    requires forall k | k in seen :: !seen[k].change.what.StopsPath?
    requires i < |records|
    requires forall p | p in PolicyFor(w, base, records[i]).redactPaths :: SplitPath(p)
    requires forall p | p in PolicyFor(w, head, records[i]).redactPaths :: SplitPath(p)
    ensures Hidden(AddressedByAny(PolicyFor(w, base, records[i]).redactPaths), l) ==>
            Hidden(AddressedByAny(PolicyFor(w, head, records[i]).redactPaths), l)
  {
    var notes, rec := Replay(w, base, head, records), records[i];
    var bp, hp := PolicyFor(w, base, rec).redactPaths, PolicyFor(w, head, rec).redactPaths;
    ReportExactIff(seen, notes);
    forall c: Change | c in notes[i] ensures !c.what.StopsPath? {
      assert NotedSomewhere(notes, c);
      assert Lists(seen, c, |Affected(notes, c)|);
    }
    forall p | p in bp ensures p in hp {
      StopsPathNoted(w, base, head, rec, rec.attrs.httpMethod, RouteOf(rec, PolicyFor(w, head, rec)), Join(p));
      var q :| q in hp && Join(q) == Join(p);
      JoinInjective(p, q);
    }
    assert AddressedByAny(bp) <= AddressedByAny(hp);
  }

  /** A change that a record notes is in the report, so a report without blocking
      entries means no record notes a blocking change. */
  lemma {:induction false} NothingBlockingNoted(seen: map<string, Entry>, notes: seq<set<Change>>, i: nat)
    requires Aggregates(seen, notes) && KeysUnambiguous(notes) && i < |notes|
    requires forall k | k in seen :: !SeverityOf(seen[k].change.what).Blocking?
    ensures forall c | c in notes[i] :: !SeverityOf(c.what).Blocking?
  {
    ReportExactIff(seen, notes);
    forall c | c in notes[i] ensures !SeverityOf(c.what).Blocking? {
      assert NotedSomewhere(notes, c);
      assert Lists(seen, c, |Affected(notes, c)|);
    }
  }

  lemma {:induction false} NothingStops(bp: Policy, hp: Policy)
    requires forall d | d in Differences(bp, hp) :: !SeverityOf(d).Blocking?
    ensures Headers in hp.capture ==> bp.redactHeaders <= hp.redactHeaders
    ensures Query in hp.capture ==> bp.redactQuery <= hp.redactQuery
  {
    forall h | Headers in hp.capture && h in bp.redactHeaders ensures h in hp.redactHeaders {
      assert h !in hp.redactHeaders ==> StopsHeader(h) in Differences(bp, hp);
    }
    forall q | Query in hp.capture && q in bp.redactQuery ensures q in hp.redactQuery {
      assert q !in hp.redactQuery ==> StopsQuery(q) in Differences(bp, hp);
    }
  }

  /** A report without blocking entries: on every record whose headers, or query,
      head captures, head redacts every header and parameter that base redacts. */
  lemma {:induction false} NoBlockingKeepsHeadersAndQuery(seen: map<string, Entry>, w: World, base: EngineCfg,
                                                         head: EngineCfg, records: seq<Record>, i: nat)
    requires Aggregates(seen, Replay(w, base, head, records)) && KeysUnambiguous(Replay(w, base, head, records))
    requires forall k | k in seen :: !SeverityOf(seen[k].change.what).Blocking?
    requires i < |records|
    ensures var bp, hp := PolicyFor(w, base, records[i]), PolicyFor(w, head, records[i]);
            && (Headers in hp.capture ==> bp.redactHeaders <= hp.redactHeaders)
            && (Query in hp.capture ==> bp.redactQuery <= hp.redactQuery)
  {
    var rec := records[i];
    var bp, hp := PolicyFor(w, base, rec), PolicyFor(w, head, rec);
    NothingBlockingNoted(seen, Replay(w, base, head, records), i);
    forall d | d in Differences(bp, hp) ensures !SeverityOf(d).Blocking? {
      assert Change(rec.attrs.httpMethod, RouteOf(rec, hp), d) in ChangesOf(w, base, head, rec);
    }
    NothingStops(bp, hp);
  }
}
