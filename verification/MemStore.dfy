/**
 The in-memory store (examples/memstore/memstore.go): an append-only record list
 that is trimmed and compacted in place, and the per-consumer aggregation that
 erasure has to agree with.
 */
module MemStore {

  /** Times count from the zero time, so the zero time is 0 and earlier ones are negative. */
  datatype Record = Record(
    id: int,
    time: int,
    status: int,
    reqBytes: int,
    respBytes: int,
    duration: real,
    labels: map<string, string>,
    meters: map<string, real>)

  type Filter = Record -> bool

  const UNATTRIBUTED := "(unattributed)"

  function LabelOf(r: Record, name: string): string {
    if name in r.labels then r.labels[name] else ""
  }

  function Kept(rs: seq<Record>, keep: Filter): seq<Record> {
    if rs == [] then []
    else Kept(rs[..|rs| - 1], keep) + if keep(rs[|rs| - 1]) then [rs[|rs| - 1]] else []
  }

  function Count(rs: seq<Record>, p: Filter): nat {
    |Kept(rs, p)|
  }

  function Reversed(rs: seq<Record>): seq<Record> {
    if rs == [] then [] else [rs[|rs| - 1]] + Reversed(rs[..|rs| - 1])
  }

  // ----------------------------------------------------------- aggregation

  datatype Usage = Usage(
    requests: nat, errors: nat, reqBytes: int, respBytes: int, duration: real, meters: map<string, real>)

  const NO_USAGE := Usage(0, 0, 0, 0, 0.0, map[])

  function AddMeters(have: map<string, real>, more: map<string, real>): map<string, real> {
    map k | k in have.Keys + more.Keys :: (if k in have then have[k] else 0.0) + (if k in more then more[k] else 0.0)
  }

  function AddUsage(u: Usage, r: Record): Usage {
    Usage(u.requests + 1, u.errors + (if r.status >= 500 then 1 else 0), u.reqBytes + r.reqBytes,
          u.respBytes + r.respBytes, u.duration + r.duration, AddMeters(u.meters, r.meters))
  }

  function Consumer(r: Record, name: string): string {
    if LabelOf(r, name) == "" then UNATTRIBUTED else LabelOf(r, name)
  }

  /** What the records of one consumer add up to. */
  function UsageOf(rs: seq<Record>, name: string, consumer: string): Usage {
    if rs == [] then NO_USAGE
    else
      var init, r := UsageOf(rs[..|rs| - 1], name, consumer), rs[|rs| - 1];
      if Consumer(r, name) == consumer then AddUsage(init, r) else init
  }

  function AtOrAfter(from: int): Filter {
    (r: Record) => r.time >= from
  }

  /** What `Purge` removes; a zero bound means any time. */
  function Purged(name: string, value: string, before: int): Filter {
    (r: Record) => LabelOf(r, name) == value && (before == 0 || r.time < before)
  }

  function Not(p: Filter): Filter {
    (r: Record) => !p(r)
  }

  datatype PurgeResult = Refused | Removed(n: nat)

  /** One page of matches with the number of all; slicing from a negative offset panics. */
  datatype QueryResult = Panics | Found(hits: seq<Record>, total: nat)

  class Store {
    const maxRecords: int
    var recs: seq<Record>
    var nextID: int

    constructor (maxRecords: int)
      ensures this.maxRecords == maxRecords && recs == [] && nextID == 0 && Valid()
    {
      this.maxRecords := maxRecords;
      recs, nextID := [], 0;
    }

    /** Ids are strictly increasing and never reissued; the bound is kept. */
    ghost predicate Valid()
      reads this
    {
      && Increasing(recs)
      && (forall r | r in recs :: r.id <= nextID)
      && (maxRecords > 0 ==> |recs| <= maxRecords)
    }

    /** Appends a copy under a fresh id and trims the oldest. */
    method Save(rec: Record)
      requires Valid()
      modifies this
      ensures Valid() && nextID == old(nextID) + 1
      ensures var all := old(recs) + [rec.(id := nextID)];
              recs == if maxRecords > 0 && |all| > maxRecords then all[|all| - maxRecords..] else all
    {
      nextID := nextID + 1;
      var copy := rec.(id := nextID);
      AppendKeepsOrder(recs, copy);
      recs := recs + [copy];
      if maxRecords > 0 && |recs| > maxRecords {
        recs := recs[|recs| - maxRecords..];
      }
    }

    /** Newest first, one page, with the number of all matches. */
    method Query(f: Filter, limit: int, offset: int) returns (r: QueryResult)
      ensures r == if offset < 0 then Panics
                   else Found(Page(Reversed(Kept(recs, f)), limit, offset), Count(recs, f))
    {
      var hits: seq<Record> := [];
      var i := |recs| - 1;
      assert recs[..|recs|] == recs;
      while i >= 0
        invariant -1 <= i < |recs|
        invariant hits + Reversed(Kept(recs[..i + 1], f)) == Reversed(Kept(recs, f))
      {
        OneMoreHit(recs, i, f, hits);
        if f(recs[i]) {
          hits := hits + [recs[i]];
        }
        i := i - 1;
      }
      assert hits == Reversed(Kept(recs, f));
      ReversedLength(Kept(recs, f));
      var total := |hits|;
      if offset >= |hits| {
        return Found([], total);
      }
      if offset < 0 {
        return Panics;
      }
      return Found(Page(hits, limit, offset), total);
    }

    /** The compaction that `PruneBefore` and `Purge` share: survivors are moved
        down in the list being read, and the tail is cut. */
    method Compact(remove: Filter) returns (removed: nat)
      requires Valid()
      modifies `recs
      ensures Valid()
      ensures recs == Kept(old(recs), Not(remove))
      ensures removed == Count(old(recs), remove)
    {
      ghost var before := recs;
      var w := 0;
      removed := 0;
      for i := 0 to |recs|
        invariant |recs| == |before| && w <= i
        invariant recs[..w] == Kept(before[..i], Not(remove))
        invariant recs[i..] == before[i..]
        invariant removed == Count(before[..i], remove)
      {
        KeptStep(before, i, Not(remove));
        KeptStep(before, i, remove);
        assert recs[i] == recs[i..][0] == before[i];
        assert recs[i + 1..] == recs[i..][1..] == before[i + 1..];
        if remove(recs[i]) {
          removed := removed + 1;
        } else {
          recs := recs[w := recs[i]];
          w := w + 1;
        }
      }
      recs := recs[..w];
      assert before[..|before|] == before;
      KeptIncreasing(before, Not(remove));
    }

    method Prune(maxRows: int) returns (removed: nat)
      requires Valid()
      modifies `recs
      ensures Valid()
      ensures removed == if 0 < maxRows < |old(recs)| then |old(recs)| - maxRows else 0
      ensures recs == old(recs)[removed..]
    {
      if maxRows <= 0 || |recs| <= maxRows {
        return 0;
      }
      removed := |recs| - maxRows;
      recs := recs[removed..];
    }

    method PruneBefore(cutoff: int) returns (removed: nat)
      requires Valid()
      modifies `recs
      ensures Valid()
      ensures cutoff == 0 ==> recs == old(recs) && removed == 0
      ensures cutoff != 0 ==> recs == Kept(old(recs), AtOrAfter(cutoff)) && removed == |old(recs)| - |recs|
      ensures cutoff != 0 ==> forall r :: r in recs <==> r in old(recs) && r.time >= cutoff
    {
      KeptAre(recs, AtOrAfter(cutoff));
      if cutoff == 0 {
        return 0;
      }
      KeptSame(recs, Not((r: Record) => r.time < cutoff), AtOrAfter(cutoff));
      KeptSplits(recs, (r: Record) => r.time < cutoff);
      removed := Compact((r: Record) => r.time < cutoff);
    }

    method Purge(name: string, value: string, before: int) returns (result: PurgeResult)
      requires Valid()
      modifies `recs
      ensures Valid()
      ensures name == "" || value == "" ==> result == Refused && recs == old(recs)
      ensures name != "" && value != "" ==>
                result == Removed(Count(old(recs), Purged(name, value, before))) &&
                recs == Kept(old(recs), Not(Purged(name, value, before)))
      ensures name != "" && value != "" ==>
                forall r :: r in recs <==> r in old(recs) && !(name in r.labels && r.labels[name] == value &&
                                                              (before == 0 || r.time < before))
    {
      KeptAre(recs, Not(Purged(name, value, before)));
      if name == "" || value == "" {
        return Refused;
      }
      var removed := Compact(Purged(name, value, before));
      result := Removed(removed);
    }

    method UsageByLabel(from: int, name: string) returns (agg: map<string, Usage>)
      ensures forall c :: c in agg <==> HasConsumer(Kept(recs, AtOrAfter(from)), name, c)
      ensures forall c | c in agg :: agg[c] == UsageOf(Kept(recs, AtOrAfter(from)), name, c)
    {
      var window := Since(from);
      agg := map[];
      for i := 0 to |window|
        invariant Aggregated(agg, window[..i], name)
      {
        var r := window[i];
        assert window[..i + 1] == window[..i] + [r];
        AggregatedOneMore(agg, window[..i], name, r);
        var c := Consumer(r, name);
        agg := agg[c := AddUsage(HeldBy(agg, c), r)];
      }
      assert window[..|window|] == window;
      AggregatedMeans(agg, window, name);
    }

    method Since(from: int) returns (out: seq<Record>)
      ensures out == Kept(recs, AtOrAfter(from))
      ensures forall r :: r in out <==> r in recs && r.time >= from
    {
      KeptAre(recs, AtOrAfter(from));
      out := [];
      for i := 0 to |recs|
        invariant out == Kept(recs[..i], AtOrAfter(from))
      {
        assert recs[..i + 1][..i] == recs[..i];
        if recs[i].time >= from {
          out := out + [recs[i]];
        }
      }
      assert recs[..|recs|] == recs;
    }
  }

  /** The page size the store falls back to, and the largest it accepts. */
  const DEFAULT_LIMIT := 50
  const MAX_LIMIT := 500

  function Page(hits: seq<Record>, limit: int, offset: nat): seq<Record> {
    var n := if limit <= 0 || limit > MAX_LIMIT then DEFAULT_LIMIT else limit;
    if offset >= |hits| then []
    else if offset + n < |hits| then hits[offset..offset + n]
    else hits[offset..]
  }

  ghost predicate Increasing(rs: seq<Record>) {
    forall i, j | 0 <= i < j < |rs| :: rs[i].id < rs[j].id
  }

  lemma AppendKeepsOrder(rs: seq<Record>, r: Record)
    requires Increasing(rs) && forall x | x in rs :: x.id < r.id
    ensures Increasing(rs + [r]) && forall x | x in rs + [r] :: x.id <= r.id
  {
  }

  ghost predicate HasConsumer(rs: seq<Record>, name: string, c: string) {
    exists r | r in rs :: Consumer(r, name) == c
  }

  function HeldBy(agg: map<string, Usage>, c: string): Usage {
    if c in agg then agg[c] else NO_USAGE
  }

  /** agg holds exactly the consumers of rs, each with what its records add up to. */
  ghost predicate Aggregated(agg: map<string, Usage>, rs: seq<Record>, name: string) {
    && (forall c :: c in agg <==> HasConsumer(rs, name, c))
    && (forall c :: HeldBy(agg, c) == UsageOf(rs, name, c))
  }

  lemma AggregatedMeans(agg: map<string, Usage>, rs: seq<Record>, name: string)
    requires Aggregated(agg, rs, name)
    ensures forall c :: c in agg <==> HasConsumer(rs, name, c)
    ensures forall c | c in agg :: agg[c] == UsageOf(rs, name, c)
  {
    assert forall c | c in agg :: agg[c] == HeldBy(agg, c);
  }

  lemma {:induction false} HasConsumerAppend(rs: seq<Record>, r: Record, name: string, c: string)
    ensures HasConsumer(rs + [r], name, c) <==> HasConsumer(rs, name, c) || Consumer(r, name) == c
  {
    assert forall x :: x in rs + [r] <==> x in rs || x == r;
    assert r in rs + [r];
  }

  lemma {:induction false} AggregatedOneMore(agg: map<string, Usage>, rs: seq<Record>, name: string, r: Record)
    requires Aggregated(agg, rs, name)
    ensures var c := Consumer(r, name); Aggregated(agg[c := AddUsage(HeldBy(agg, c), r)], rs + [r], name)
  {
    var k := Consumer(r, name);
    var now := agg[k := AddUsage(HeldBy(agg, k), r)];
    forall c
      ensures c in now <==> HasConsumer(rs + [r], name, c)
      ensures HeldBy(now, c) == UsageOf(rs + [r], name, c)
    {
      HasConsumerAppend(rs, r, name, c);
      UsageStep(rs, name, c, r);
    }
  }

  lemma {:induction false} KeptStep(rs: seq<Record>, i: nat, p: Filter)
    requires i < |rs|
    ensures Kept(rs[..i + 1], p) == if p(rs[i]) then Kept(rs[..i], p) + [rs[i]] else Kept(rs[..i], p)
  {
    assert rs[..i + 1][..i] == rs[..i];
  }

  lemma {:induction false} ReversedAppend(rs: seq<Record>, r: Record)
    ensures Reversed(rs + [r]) == [r] + Reversed(rs)
  {
    assert (rs + [r])[..|rs|] == rs;
  }

  lemma {:induction false} OneMoreHit(rs: seq<Record>, i: nat, f: Filter, hits: seq<Record>)
    requires i < |rs|
    ensures hits + Reversed(Kept(rs[..i + 1], f)) ==
            (if f(rs[i]) then hits + [rs[i]] else hits) + Reversed(Kept(rs[..i], f))
  {
    KeptStep(rs, i, f);
    ReversedAppend(Kept(rs[..i], f), rs[i]);
    assert hits + ([rs[i]] + Reversed(Kept(rs[..i], f))) == hits + [rs[i]] + Reversed(Kept(rs[..i], f));
  }

  lemma {:induction false} ReversedLength(rs: seq<Record>)
    ensures |Reversed(rs)| == |rs|
  {
    if rs != [] { ReversedLength(rs[..|rs| - 1]); }
  }

  lemma {:induction false} KeptAre(rs: seq<Record>, p: Filter)
    ensures forall r :: r in Kept(rs, p) <==> r in rs && p(r)
  {
    if rs != [] {
      KeptAre(rs[..|rs| - 1], p);
      assert rs == rs[..|rs| - 1] + [rs[|rs| - 1]];
    }
  }

  lemma {:induction false} KeptSame(rs: seq<Record>, p: Filter, q: Filter)
    requires forall r | r in rs :: p(r) == q(r)
    ensures Kept(rs, p) == Kept(rs, q)
  {
    if rs != [] {
      KeptSame(rs[..|rs| - 1], p, q);
    }
  }

  lemma {:induction false} KeptSplits(rs: seq<Record>, p: Filter)
    ensures Count(rs, p) + Count(rs, Not(p)) == |rs|
  {
    if rs != [] {
      KeptSplits(rs[..|rs| - 1], p);
    }
  }

  lemma {:induction false} KeptIncreasing(rs: seq<Record>, p: Filter)
    requires Increasing(rs)
    ensures Increasing(Kept(rs, p)) && |Kept(rs, p)| <= |rs|
    ensures forall r | r in Kept(rs, p) :: r in rs
  {
    KeptAre(rs, p);
    if rs != [] {
      var init, last := rs[..|rs| - 1], rs[|rs| - 1];
      KeptIncreasing(init, p);
      KeptAre(init, p);
      forall r | r in Kept(init, p) ensures r.id < last.id {
        assert r in init;
      }
    }
  }

  // ------------------------------------------ what the reports and pages are

  function SumOf(rs: seq<Record>, amount: Record -> int): int {
    if rs == [] then 0 else SumOf(rs[..|rs| - 1], amount) + amount(rs[|rs| - 1])
  }

  function RealSumOf(rs: seq<Record>, amount: Record -> real): real {
    if rs == [] then 0.0 else RealSumOf(rs[..|rs| - 1], amount) + amount(rs[|rs| - 1])
  }

  function MeterOf(k: string): Record -> real {
    (r: Record) => if k in r.meters then r.meters[k] else 0.0
  }

  /** The records of one consumer since a time; an empty label value counts as none. */
  function RecordsOf(name: string, consumer: string, from: int): Filter {
    (r: Record) =>
      && r.time >= from
      && (if name in r.labels && r.labels[name] != "" then consumer == r.labels[name]
          else consumer == "(unattributed)")
  }

  ghost predicate AddsUp(u: Usage, rs: seq<Record>) {
    && u.requests == |rs|
    && u.errors == Count(rs, (r: Record) => r.status >= 500)
    && u.reqBytes == SumOf(rs, (r: Record) => r.reqBytes)
    && u.respBytes == SumOf(rs, (r: Record) => r.respBytes)
    && u.duration == RealSumOf(rs, (r: Record) => r.duration)
    && (forall k :: k in u.meters <==> exists r | r in rs :: k in r.meters)
    && (forall k | k in u.meters :: u.meters[k] == RealSumOf(rs, MeterOf(k)))
  }

  lemma {:induction false} NoMeterNoSum(rs: seq<Record>, k: string)
    requires forall r | r in rs :: k !in r.meters
    ensures RealSumOf(rs, MeterOf(k)) == 0.0
  {
    if rs != [] {
      NoMeterNoSum(rs[..|rs| - 1], k);
    }
  }

  lemma {:induction false} SumsAppend(rs: seq<Record>, r: Record, f: Record -> int, g: Record -> real)
    ensures SumOf(rs + [r], f) == SumOf(rs, f) + f(r) && RealSumOf(rs + [r], g) == RealSumOf(rs, g) + g(r)
  {
    assert (rs + [r])[..|rs|] == rs;
  }

  lemma {:induction false} MetersAddUp(u: Usage, rs: seq<Record>, r: Record)
    requires AddsUp(u, rs)
    ensures var m := AddMeters(u.meters, r.meters);
            && (forall k :: k in m <==> exists x | x in rs + [r] :: k in x.meters)
            && (forall k | k in m :: m[k] == RealSumOf(rs + [r], MeterOf(k)))
  {
    var m := AddMeters(u.meters, r.meters);
    forall k ensures k in m <==> exists x | x in rs + [r] :: k in x.meters {
      assert r in rs + [r] && forall x :: x in rs + [r] <==> x in rs || x == r;
    }
    forall k | k in m ensures m[k] == RealSumOf(rs + [r], MeterOf(k)) {
      SumsAppend(rs, r, (x: Record) => 0, MeterOf(k));
      if k !in u.meters {
        NoMeterNoSum(rs, k);
      }
    }
  }

  lemma {:induction false} AddsUpOneMore(u: Usage, rs: seq<Record>, r: Record)
    requires AddsUp(u, rs)
    ensures AddsUp(AddUsage(u, r), rs + [r])
  {
    KeptAppend(rs, r, (x: Record) => x.status >= 500);
    SumsAppend(rs, r, (x: Record) => x.reqBytes, (x: Record) => x.duration);
    SumsAppend(rs, r, (x: Record) => x.respBytes, (x: Record) => x.duration);
    MetersAddUp(u, rs, r);
  }

  /** Every number the report gives for a consumer, as a sum over its records. */
  lemma {:induction false} UsageIs(rs: seq<Record>, name: string, consumer: string, from: int)
    ensures AddsUp(UsageOf(Kept(rs, AtOrAfter(from)), name, consumer), Kept(rs, RecordsOf(name, consumer, from)))
  {
    if rs != [] {
      var init, r := rs[..|rs| - 1], rs[|rs| - 1];
      UsageIs(init, name, consumer, from);
      assert rs == init + [r];
      UsageAppend(init, r, name, consumer, from);
      KeptAppend(init, r, RecordsOf(name, consumer, from));
      if RecordsOf(name, consumer, from)(r) {
        AddsUpOneMore(UsageOf(Kept(init, AtOrAfter(from)), name, consumer),
                      Kept(init, RecordsOf(name, consumer, from)), r);
      }
    }
  }

  function PageSize(limit: int): nat {
    if 1 <= limit <= 500 then limit else 50
  }

  function Newer(r: Record): Filter {
    (x: Record) => x.id > r.id
  }

  function NewerMatches(f: Filter, r: Record): Filter {
    (x: Record) => f(x) && x.id > r.id
  }

  lemma {:induction false} ReversedAt(rs: seq<Record>, i: nat)
    requires i < |rs|
    ensures |Reversed(rs)| == |rs| && Reversed(rs)[i] == rs[|rs| - 1 - i]
  {
    ReversedLength(rs);
    if i > 0 {
      ReversedAt(rs[..|rs| - 1], i - 1);
    }
  }

  lemma {:induction false} KeptOfNewer(rs: seq<Record>, f: Filter, r: Record)
    ensures Kept(rs, NewerMatches(f, r)) == Kept(Kept(rs, f), Newer(r))
  {
    if rs != [] {
      var init, last := rs[..|rs| - 1], rs[|rs| - 1];
      assert rs == init + [last];
      KeptOfNewer(init, f, r);
      KeptAppend(init, last, f);
      KeptAppend(init, last, NewerMatches(f, r));
      KeptAppend(Kept(init, f), last, Newer(r));
    }
  }

  lemma {:induction false} CountNewer(rs: seq<Record>, k: nat, r: Record)
    requires Increasing(rs) && k < |rs| && rs[k] == r
    ensures Count(rs, Newer(r)) == |rs| - 1 - k
  {
    var init := rs[..|rs| - 1];
    if k < |init| {
      CountNewer(init, k, r);
    } else {
      CountZero(rs, Newer(r));
    }
  }

  lemma {:induction false} PageAt(hits: seq<Record>, limit: int, offset: nat)
    ensures var page, n := Page(Reversed(hits), limit, offset), |hits| - offset;
            && |page| == (if n <= 0 then 0 else if n < PageSize(limit) then n else PageSize(limit))
            && forall i | 0 <= i < |page| :: page[i] == hits[n - 1 - i]
  {
    ReversedLength(hits);
    forall i: nat | i < |hits| ensures Reversed(hits)[i] == hits[|hits| - 1 - i] {
      ReversedAt(hits, i);
    }
  }

  /** A page lists the matches from newest to oldest, and a match is on it exactly when
      the number of newer matches falls into the page. */
  lemma {:induction false} PageIs(rs: seq<Record>, f: Filter, limit: int, offset: nat)
    requires Increasing(rs)
    ensures var page, n := Page(Reversed(Kept(rs, f)), limit, offset), PageSize(limit);
            && (forall i, j | 0 <= i < j < |page| :: page[i].id > page[j].id)
            && (forall r :: r in page <==> r in rs && f(r) && offset <= Count(rs, NewerMatches(f, r)) < offset + n)
  {
    var hits, page := Kept(rs, f), Page(Reversed(Kept(rs, f)), limit, offset);
    KeptIncreasing(rs, f);
    KeptAre(rs, f);
    PageAt(hits, limit, offset);
    forall k: nat | k < |hits|
      ensures Count(rs, NewerMatches(f, hits[k])) == |hits| - 1 - k
    {
      KeptOfNewer(rs, f, hits[k]);
      CountNewer(hits, k, hits[k]);
    }
    OnPage(hits, page, rs, f, offset, PageSize(limit));
  }

  lemma {:induction false} OnPage(
      hits: seq<Record>, page: seq<Record>, rs: seq<Record>, f: Filter, offset: nat, size: nat)
    requires forall r :: r in hits <==> r in rs && f(r)
    requires forall k: nat | k < |hits| :: Count(rs, NewerMatches(f, hits[k])) == |hits| - 1 - k
    requires var n := |hits| - offset; |page| == if n <= 0 then 0 else if n < size then n else size
    requires forall i | 0 <= i < |page| :: page[i] == hits[|hits| - offset - 1 - i]
    ensures forall r :: r in page <==> r in rs && f(r) && offset <= Count(rs, NewerMatches(f, r)) < offset + size
  {
    forall r | r in hits && offset <= Count(rs, NewerMatches(f, r)) < offset + size ensures r in page {
      var k: nat :| k < |hits| && hits[k] == r;
      assert page[|hits| - 1 - k - offset] == r;
    }
    forall r | r in page ensures r in hits && offset <= Count(rs, NewerMatches(f, r)) < offset + size {
      var i :| 0 <= i < |page| && page[i] == r;
      assert hits[|hits| - offset - 1 - i] == r;
    }
  }

  // ----------------------------------------------- erasure against usage

  /** The records `UsageByLabel` counts without a label of that name. */
  function Unlabelled(name: string, from: int): Filter {
    (r: Record) => LabelOf(r, name) == "" && r.time >= from
  }

  function LabelledBefore(name: string, value: string, from: int): Filter {
    (r: Record) => LabelOf(r, name) == value && r.time < from
  }

  lemma {:induction false} KeptAppend(rs: seq<Record>, r: Record, p: Filter)
    ensures Kept(rs + [r], p) == if p(r) then Kept(rs, p) + [r] else Kept(rs, p)
    ensures Count(rs + [r], p) == Count(rs, p) + if p(r) then 1 else 0
  {
    assert (rs + [r])[..|rs|] == rs;
  }

  lemma {:induction false} RequestsAppend(rs: seq<Record>, r: Record, name: string, consumer: string, from: int)
    ensures UsageOf(Kept(rs + [r], AtOrAfter(from)), name, consumer).requests ==
            UsageOf(Kept(rs, AtOrAfter(from)), name, consumer).requests +
            if r.time >= from && Consumer(r, name) == consumer then 1 else 0
  {
    KeptAppend(rs, r, AtOrAfter(from));
    UsageStep(Kept(rs, AtOrAfter(from)), name, consumer, r);
  }

  /** The exact relation between what an unbounded purge removes and what the usage
      report says the consumer holds since `from`. */
  lemma {:induction false} PurgeAgainstUsage(rs: seq<Record>, name: string, value: string, from: int)
    requires value != ""
    ensures Count(rs, Purged(name, value, 0)) +
            (if value == UNATTRIBUTED then Count(rs, Unlabelled(name, from)) else 0) ==
            UsageOf(Kept(rs, AtOrAfter(from)), name, value).requests + Count(rs, LabelledBefore(name, value, from))
  {
    if rs != [] {
      var init, r := rs[..|rs| - 1], rs[|rs| - 1];
      assert rs == init + [r];
      PurgeAgainstUsage(init, name, value, from);
      KeptAppend(init, r, Purged(name, value, 0));
      KeptAppend(init, r, Unlabelled(name, from));
      KeptAppend(init, r, LabelledBefore(name, value, from));
      RequestsAppend(init, r, name, value, from);
    }
  }

  lemma {:induction false} UsageStep(rs: seq<Record>, name: string, consumer: string, r: Record)
    ensures UsageOf(rs + [r], name, consumer) ==
            if Consumer(r, name) == consumer then AddUsage(UsageOf(rs, name, consumer), r)
            else UsageOf(rs, name, consumer)
  {
    assert (rs + [r])[..|rs|] == rs;
  }

  lemma {:induction false} CountZero(rs: seq<Record>, p: Filter)
    ensures Count(rs, p) == 0 <==> forall r | r in rs :: !p(r)
  {
    KeptAre(rs, p);
    if Count(rs, p) > 0 {
      assert Kept(rs, p)[0] in Kept(rs, p);
    }
    forall r | r in rs && p(r) ensures Count(rs, p) > 0 {
      assert r in Kept(rs, p);
    }
  }

  /** For a real consumer the purge removes exactly the reported number of requests
      if and only if no record of it predates the report. */
  lemma {:induction false} PurgeMatchesUsageIff(rs: seq<Record>, name: string, value: string, from: int)
    requires value != "" && value != UNATTRIBUTED
    ensures Count(rs, Purged(name, value, 0)) == UsageOf(Kept(rs, AtOrAfter(from)), name, value).requests <==>
            forall r | r in rs && LabelOf(r, name) == value :: r.time >= from
  {
    PurgeAgainstUsage(rs, name, value, from);
    CountZero(rs, LabelledBefore(name, value, from));
  }

  /** For the bucket name, with nothing before the report, it does so if and only
      if every record carries the label. */
  lemma {:induction false} PurgeOfBucketNameIff(rs: seq<Record>, name: string, from: int)
    requires forall r | r in rs :: r.time >= from
    ensures Count(rs, Purged(name, UNATTRIBUTED, 0)) ==
            UsageOf(Kept(rs, AtOrAfter(from)), name, UNATTRIBUTED).requests <==>
            forall r | r in rs :: LabelOf(r, name) != ""
  {
    PurgeAgainstUsage(rs, name, UNATTRIBUTED, from);
    CountZero(rs, LabelledBefore(name, UNATTRIBUTED, from));
    CountZero(rs, Unlabelled(name, from));
  }

  /** A single record without the label: the report shows one request under the bucket
      name, and purging that name removes nothing. */
  lemma {:induction false} BucketIsNotPurged(r: Record, name: string, from: int)
    requires LabelOf(r, name) == "" && r.time >= from
    ensures Count([r], Purged(name, UNATTRIBUTED, 0)) == 0
    ensures UsageOf(Kept([r], AtOrAfter(from)), name, UNATTRIBUTED).requests == 1
  {
    assert [r] == [] + [r];
    KeptAppend([], r, Purged(name, UNATTRIBUTED, 0));
    RequestsAppend([], r, name, UNATTRIBUTED, from);
  }

  /** No other consumer's totals change, under any label and since any time. */
  lemma {:induction false} PurgeSparesOthers(rs: seq<Record>, name: string, value: string, before: int, from: int,
                                             consumer: string)
    requires value != "" && consumer != value
    ensures UsageOf(Kept(Kept(rs, Not(Purged(name, value, before))), AtOrAfter(from)), name, consumer) ==
            UsageOf(Kept(rs, AtOrAfter(from)), name, consumer)
  {
    if rs != [] {
      var init, r := rs[..|rs| - 1], rs[|rs| - 1];
      assert rs == init + [r];
      PurgeSparesOthers(init, name, value, before, from, consumer);
      var keep := Not(Purged(name, value, before));
      KeptAppend(init, r, keep);
      UsageAppend(Kept(init, keep), r, name, consumer, from);
      UsageAppend(init, r, name, consumer, from);
      assert !keep(r) ==> Consumer(r, name) != consumer;
    }
  }

  lemma {:induction false} UsageAppend(rs: seq<Record>, r: Record, name: string, consumer: string, from: int)
    ensures UsageOf(Kept(rs + [r], AtOrAfter(from)), name, consumer) ==
            if r.time >= from && Consumer(r, name) == consumer
            then AddUsage(UsageOf(Kept(rs, AtOrAfter(from)), name, consumer), r)
            else UsageOf(Kept(rs, AtOrAfter(from)), name, consumer)
  {
    KeptAppend(rs, r, AtOrAfter(from));
    UsageStep(Kept(rs, AtOrAfter(from)), name, consumer, r);
  }

  /** After an unbounded purge no query for the erased label value finds anything. */
  lemma {:induction false} ErasedIsNotFound(rs: seq<Record>, name: string, value: string, f: Filter)
    requires forall r | f(r) :: LabelOf(r, name) == value
    ensures Count(Kept(rs, Not(Purged(name, value, 0))), f) == 0
  {
    KeptAre(rs, Not(Purged(name, value, 0)));
    CountZero(Kept(rs, Not(Purged(name, value, 0))), f);
  }
}
