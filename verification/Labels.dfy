/**
 Label and body-criterion lookup (`FirstString`, internal/engine/redact.go).
 Go visits map entries in an unspecified order, so the lookup is a relation
 between a document and the results some order can produce.
 */
module Labels {
  import opened Json
  import opened Redaction

  /** Strings, numbers and booleans are rendered; `fmt` is the number format. */
  function Rendered(j: Json, fmt: real -> string): Option<string> {
    match j
    case Str(s) => Some(s)
    case Num(n) => Some(fmt(n))
    case Bool(b) => Some(if b then "true" else "false")
    case _ => None
  }

  /** r is a result of the lookup under some iteration order. */
  ghost predicate CanReturn(j: Json, path: Path, fmt: real -> string, r: Option<string>)
    decreases j, |path|
  {
    if path == [] then r == Rendered(j, fmt)
    else
      match j
      case Obj(fields) =>
        var seg, rest := path[0], path[1..];
        if seg == ANY_DEPTH then
          || (r.Some? && |rest| > 0 && CanReturn(j, rest, fmt, r))
          || (&& (|rest| > 0 ==> CanReturn(j, rest, fmt, None))
              && (if r.Some? then exists k | k in fields :: CanReturn(fields[k], path, fmt, r)
                  else forall k | k in fields :: CanReturn(fields[k], path, fmt, None)))
        else if seg == ANY_KEY then
          if r.Some? then exists k | k in fields :: CanReturn(fields[k], rest, fmt, r)
          else forall k | k in fields :: CanReturn(fields[k], rest, fmt, None)
        else
          if seg in fields then CanReturn(fields[seg], rest, fmt, r) else r == None
      case Arr(items) =>
        if r.Some? then
          exists i | 0 <= i < |items| ::
            && CanReturn(items[i], path, fmt, r)
            && forall i' | 0 <= i' < i :: CanReturn(items[i'], path, fmt, None)
        else forall i | 0 <= i < |items| :: CanReturn(items[i], path, fmt, None)
      case _ => r == None
  }

  /** The lookup itself; the map loops take the entries in any order. */
  method FirstString(j: Json, path: Path, fmt: real -> string) returns (r: Option<string>)
    ensures CanReturn(j, path, fmt, r)
    decreases j, |path|
  {
    if path == [] {
      return Rendered(j, fmt);
    }
    match j
    case Obj(fields) =>
      var seg, rest := path[0], path[1..];
      if seg == ANY_DEPTH {
        if |rest| > 0 {
          r := FirstString(j, rest, fmt);
          if r.Some? { return; }
        }
        var todo := fields.Keys;
        while todo != {}
          invariant todo <= fields.Keys
          invariant forall k | k in fields.Keys - todo :: CanReturn(fields[k], path, fmt, None)
          decreases |todo|
        {
          var k :| k in todo;
          r := FirstString(fields[k], path, fmt);
          if r.Some? { return; }
          todo := todo - {k};
        }
        return None;
      }
      if seg == ANY_KEY {
        var todo := fields.Keys;
        while todo != {}
          invariant todo <= fields.Keys
          invariant forall k | k in fields.Keys - todo :: CanReturn(fields[k], rest, fmt, None)
          decreases |todo|
        {
          var k :| k in todo;
          r := FirstString(fields[k], rest, fmt);
          if r.Some? { return; }
          todo := todo - {k};
        }
        return None;
      }
      if seg !in fields {
        return None;
      }
      r := FirstString(fields[seg], rest, fmt);
    case Arr(items) =>
      for n := 0 to |items|
        invariant forall i | 0 <= i < n :: CanReturn(items[i], path, fmt, None)
      {
        r := FirstString(items[n], path, fmt);
        if r.Some? { return; }
      }
      return None;
    case _ =>
      return None;
  }

  /** The rendering found at a location the path addresses. */
  ghost predicate FoundAt(j: Json, path: Path, fmt: real -> string, l: Location, s: string) {
    Has(j, l) && Addresses(path, l) && Rendered(At(j, l), fmt) == Some(s)
  }

  /** Whatever is returned stands at an addressed location. */
  lemma {:induction false} ReturnedIsAddressed(j: Json, path: Path, fmt: real -> string, s: string)
    returns (l: Location)
    requires CanReturn(j, path, fmt, Some(s))
    ensures FoundAt(j, path, fmt, l, s)
    decreases j, |path|
  {
    if path == [] {
      return [];
    }
    match j
    case Obj(fields) =>
      var seg, rest := path[0], path[1..];
      if seg == ANY_DEPTH {
        if |rest| > 0 && CanReturn(j, rest, fmt, Some(s)) {
          l := ReturnedIsAddressed(j, rest, fmt, s);
          AnyDepthHere(path, l);
        } else {
          var k :| k in fields && CanReturn(fields[k], path, fmt, Some(s));
          var t := ReturnedIsAddressed(fields[k], path, fmt, s);
          l := [Key(k)] + t;
        }
      } else {
        var k :| k in fields && (seg == ANY_KEY || seg == k) && CanReturn(fields[k], rest, fmt, Some(s));
        var t := ReturnedIsAddressed(fields[k], rest, fmt, s);
        l := [Key(k)] + t;
      }
    case Arr(items) =>
      var i: nat :| i < |items| && CanReturn(items[i], path, fmt, Some(s));
      var t := ReturnedIsAddressed(items[i], path, fmt, s);
      l := [Index(i)] + t;
    case _ =>
  }

  /** If "**" may stand for nothing at an object, it may do so at any location of it. */
  lemma {:induction false} AnyDepthHere(path: Path, l: Location)
    requires |path| > 1 && path[0] == ANY_DEPTH && Addresses(path[1..], l)
    ensures Addresses(path, l)
  {
    if l != [] && l[0].Index? {
      AnyDepthHere(path, l[1..]);
    }
  }

  /** When nothing is returned, no addressed location holds a scalar. */
  lemma {:induction false} NoneMeansNothing(j: Json, path: Path, fmt: real -> string, l: Location, s: string)
    requires CanReturn(j, path, fmt, None)
    ensures !FoundAt(j, path, fmt, l, s)
    decreases |l|, |path|
  {
    if FoundAt(j, path, fmt, l, s) && l != [] && path != [] {
      match l[0]
      case Index(i) =>
        NoneMeansNothing(j.items[i], path, fmt, l[1..], s);
      case Key(k) =>
        if path[0] != ANY_DEPTH {
          NoneMeansNothing(j.fields[k], path[1..], fmt, l[1..], s);
        } else if |path| > 1 && Addresses(path[1..], l) {
          NoneMeansNothing(j, path[1..], fmt, l, s);
        } else {
          NoneMeansNothing(j.fields[k], path, fmt, l[1..], s);
        }
    }
  }

  /** When nothing cannot be returned, an addressed location holds a scalar. */
  lemma {:induction false} SomethingIsFound(j: Json, path: Path, fmt: real -> string) returns (l: Location, s: string)
    requires !CanReturn(j, path, fmt, None)
    ensures FoundAt(j, path, fmt, l, s)
    decreases j, |path|
  {
    if path == [] {
      return [], Rendered(j, fmt).value;
    }
    match j
    case Obj(fields) =>
      var rest := path[1..];
      if path[0] == ANY_DEPTH && |rest| > 0 && !CanReturn(j, rest, fmt, None) {
        l, s := SomethingIsFound(j, rest, fmt);
        AnyDepthHere(path, l);
      } else if path[0] == ANY_DEPTH {
        var k :| k in fields && !CanReturn(fields[k], path, fmt, None);
        var t, u := SomethingIsFound(fields[k], path, fmt);
        l, s := [Key(k)] + t, u;
      } else {
        var k :| k in fields && (path[0] == ANY_KEY || path[0] == k) && !CanReturn(fields[k], rest, fmt, None);
        var t, u := SomethingIsFound(fields[k], rest, fmt);
        l, s := [Key(k)] + t, u;
      }
    case Arr(items) =>
      var i: nat :| i < |items| && !CanReturn(items[i], path, fmt, None);
      var t, u := SomethingIsFound(items[i], path, fmt);
      l, s := [Index(i)] + t, u;
    case _ =>
  }

  /** Nothing is returned exactly when no addressed location holds a scalar. */
  lemma {:induction false} NoneIff(j: Json, path: Path, fmt: real -> string)
    ensures CanReturn(j, path, fmt, None) <==> forall l, s :: !FoundAt(j, path, fmt, l, s)
  {
    if CanReturn(j, path, fmt, None) {
      forall l, s ensures !FoundAt(j, path, fmt, l, s) { NoneMeansNothing(j, path, fmt, l, s); }
    } else {
      var l, s := SomethingIsFound(j, path, fmt);
    }
  }

  // Without wildcards there is one result: that of the first location in array order.

  predicate Plain(path: Path) {
    forall i | 0 <= i < |path| :: path[i] != ANY_KEY && path[i] != ANY_DEPTH
  }

  /** l parts from m at an array, in an earlier element. */
  predicate Before(l: Location, m: Location) {
    l != [] && m != [] &&
    ((l[0].Index? && m[0].Index? && l[0].i < m[0].i) || (l[0] == m[0] && Before(l[1..], m[1..])))
  }

  ghost predicate FirstFound(j: Json, path: Path, fmt: real -> string, l: Location, s: string) {
    FoundAt(j, path, fmt, l, s) && forall m, t | FoundAt(j, path, fmt, m, t) :: !Before(m, l)
  }

  /** The lookup along a path without wildcards returns the first scalar in array order. */
  lemma {:induction false} PlainReturnsFirst(j: Json, path: Path, fmt: real -> string, s: string) returns (l: Location)
    requires Plain(path) && CanReturn(j, path, fmt, Some(s))
    ensures FirstFound(j, path, fmt, l, s)
    decreases j, |path|
  {
    if path == [] {
      return [];
    }
    match j
    case Obj(fields) =>
      var k := path[0];
      var t := PlainReturnsFirst(fields[k], path[1..], fmt, s);
      l := [Key(k)] + t;
      forall m: Location, u: string | FoundAt(j, path, fmt, m, u) ensures !Before(m, l) {
        assert FoundAt(fields[k], path[1..], fmt, m[1..], u) && l[1..] == t;
      }
    case Arr(items) =>
      var i: nat :| i < |items| && CanReturn(items[i], path, fmt, Some(s)) &&
                    forall n | 0 <= n < i :: CanReturn(items[n], path, fmt, None);
      var t := PlainReturnsFirst(items[i], path, fmt, s);
      l := [Index(i)] + t;
      forall m: Location, u: string | FoundAt(j, path, fmt, m, u) ensures !Before(m, l) {
        assert FoundAt(items[m[0].i], path, fmt, m[1..], u) && l[1..] == t;
        if m[0].i < i {
          NoneMeansNothing(items[m[0].i], path, fmt, m[1..], u);
        }
      }
    case _ =>
  }

  /** Two places that such a path finds are the same, or one comes before the other. */
  lemma {:induction false} PlainOrdered(j: Json, path: Path, l: Location, m: Location)
    requires Plain(path) && Has(j, l) && Has(j, m) && Addresses(path, l) && Addresses(path, m)
    ensures l == m || Before(l, m) || Before(m, l)
    decreases |l|, |path|
  {
    if path != [] {
      if l[0].Key? {
        PlainOrdered(Child(j, l[0]), path[1..], l[1..], m[1..]);
      } else if l[0] == m[0] {
        PlainOrdered(Child(j, l[0]), path, l[1..], m[1..]);
      }
      assert l == [l[0]] + l[1..] && m == [m[0]] + m[1..];
    }
  }

  /** So a label without wildcards does not depend on the order of iteration. */
  lemma {:induction false} PlainIsDeterministic(
      j: Json, path: Path, fmt: real -> string, r: Option<string>, q: Option<string>)
    requires Plain(path) && CanReturn(j, path, fmt, r) && CanReturn(j, path, fmt, q)
    ensures r == q
  {
    if r.Some? && q.Some? {
      var l := PlainReturnsFirst(j, path, fmt, r.value);
      var m := PlainReturnsFirst(j, path, fmt, q.value);
      PlainOrdered(j, path, l, m);
    } else if r.Some? {
      var l := PlainReturnsFirst(j, path, fmt, r.value);
      NoneMeansNothing(j, path, fmt, l, r.value);
    } else if q.Some? {
      var l := PlainReturnsFirst(j, path, fmt, q.value);
      NoneMeansNothing(j, path, fmt, l, q.value);
    }
  }

  /** What the rest of a path after "**" finds from an object on goes before whatever lies
      below it. */
  lemma {:induction false} AnyDepthFromHereFirst(j: Json, path: Path, fmt: real -> string, s: string)
    returns (l: Location)
    requires j.Obj? && |path| > 1 && path[0] == ANY_DEPTH && CanReturn(j, path, fmt, Some(s))
    requires exists m, t :: FoundAt(j, path[1..], fmt, m, t)
    ensures FoundAt(j, path[1..], fmt, l, s)
  {
    NoneIff(j, path[1..], fmt);
    l := ReturnedIsAddressed(j, path[1..], fmt, s);
  }

  /** What is found: strings as they are, numbers in their format, true and false. */
  lemma {:induction false} FoundTextIs(j: Json, path: Path, fmt: real -> string, l: Location, s: string)
    ensures FoundAt(j, path, fmt, l, s) <==>
            && Has(j, l) && Addresses(path, l)
            && (|| At(j, l) == Str(s)
                || (At(j, l).Num? && s == fmt(At(j, l).n))
                || (At(j, l) == Bool(true) && s == "true")
                || (At(j, l) == Bool(false) && s == "false"))
  {
    if Has(j, l) && At(j, l).Bool? {
      assert At(j, l) == Bool(At(j, l).b);
    }
  }

  /** Under every iteration order a label read from a redacted document is the
      placeholder, or the original value of a location that no listed path
      addresses or covers. */
  lemma {:induction false} LabelsRevealNothing(doc: Json, paths: seq<Path>, source: Path, fmt: real -> string,
                                               s: string)
    requires CanReturn(RedactAll(doc, paths), source, fmt, Some(s))
    ensures s == PLACEHOLDER ||
            exists l :: FoundAt(doc, source, fmt, l, s) && !Hidden(AddressedByAny(paths), l)
  {
    var l := ReturnedIsAddressed(RedactAll(doc, paths), source, fmt, s);
    RedactAllIsMasking(doc, paths);
    MaskAtLocation(doc, AddressedByAny(paths), l);
    if s != PLACEHOLDER {
      assert FoundAt(doc, source, fmt, l, s);
    }
  }

  /** A label whose own path is redacted yields the placeholder or nothing.
      (A split path always has a segment.) */
  lemma {:induction false} RedactedLabelIsPlaceholder(doc: Json, paths: seq<Path>, source: Path, fmt: real -> string,
                                                  s: string)
    requires source in paths && source != []
    requires CanReturn(RedactAll(doc, paths), source, fmt, Some(s))
    ensures s == PLACEHOLDER
  {
    var l := ReturnedIsAddressed(RedactAll(doc, paths), source, fmt, s);
    RedactAllIsMasking(doc, paths);
    MaskAtLocation(doc, AddressedByAny(paths), l);
    assert l in AddressedByAny(paths);
  }

  // ------------------------------------- exactly when a label reveals nothing

  const SECRET := "secret"

  /** A document that holds one string, at l, or copies of it in the elements of the
      arrays on the way. */
  function DocAt(l: Location): Json {
    if l == [] then Str(SECRET)
    else
      match l[0]
      case Key(k) => Obj(map[k := DocAt(l[1..])])
      case Index(i) => Arr(seq(i + 1, n requires 0 <= n <= i => DocAt(l[1..])))
  }

  /** Array elements are entered without consuming a segment, so an index on the way
      makes no difference, and none stands at the end. */
  ghost predicate Transparent(A: iset<Location>) {
    forall before: Location, i: nat, after: Location ::
      before + [Index(i)] + after in A <==> after != [] && before + after in A
  }

  lemma {:induction false} IndexIsSkipped(path: Path, before: Location, i: nat, after: Location)
    ensures Addresses(path, before + [Index(i)] + after) <==> after != [] && Addresses(path, before + after)
    decreases |before|, |path|
  {
    var l := before + [Index(i)] + after;
    if before == [] {
      assert l[0] == Index(i) && l[1..] == after && before + after == after;
    } else {
      var m := before + after;
      assert l[0] == before[0] == m[0] && m[1..] == before[1..] + after;
      assert l[1..] == before[1..] + [Index(i)] + after;
      if path != [] {
        if before[0].Index? || path[0] == ANY_DEPTH { IndexIsSkipped(path, before[1..], i, after); }
        if before[0].Key? { IndexIsSkippedLater(path, before, i, after); }
      }
    }
  }

  lemma {:induction false} IndexIsSkippedLater(path: Path, before: Location, i: nat, after: Location)
    requires path != [] && before != []
    ensures Addresses(path[1..], before + [Index(i)] + after) <==> after != [] && Addresses(path[1..], before + after)
    ensures Addresses(path[1..], before[1..] + [Index(i)] + after) <==>
            after != [] && Addresses(path[1..], before[1..] + after)
    decreases |before|, |path|, 0
  {
    IndexIsSkipped(path[1..], before, i, after);
    IndexIsSkipped(path[1..], before[1..], i, after);
  }

  lemma {:induction false} AddressedTransparent(paths: seq<Path>)
    ensures Transparent(AddressedByAny(paths))
  {
    forall before: Location, i: nat, after: Location
      ensures before + [Index(i)] + after in AddressedByAny(paths) <==>
              after != [] && before + after in AddressedByAny(paths)
    {
      forall p | p in paths
        ensures Addresses(p, before + [Index(i)] + after) <==> after != [] && Addresses(p, before + after)
      {
        IndexIsSkipped(p, before, i, after);
      }
    }
  }

  lemma {:induction false} UnderTransparent(A: iset<Location>, s: Step)
    requires Transparent(A)
    ensures Transparent(Under(A, s))
  {
    forall before: Location, i: nat, after: Location
      ensures before + [Index(i)] + after in Under(A, s) <==> after != [] && before + after in Under(A, s)
    {
      assert [s] + (before + [Index(i)] + after) == ([s] + before) + [Index(i)] + after;
      assert [s] + (before + after) == ([s] + before) + after;
    }
  }

  lemma {:induction false} UnderAnyIndex(A: iset<Location>, i: nat, j: nat)
    requires Transparent(A)
    ensures Under(A, Index(i)) == Under(A, Index(j)) && [] !in Under(A, Index(i))
  {
    forall l: Location ensures [Index(i)] + l in A <==> [Index(j)] + l in A {
      assert [] + [Index(i)] + l == [Index(i)] + l && [] + [Index(j)] + l == [Index(j)] + l;
    }
    assert [] + [Index(i)] + [] == [Index(i)] + [];
  }

  /** A document made for l is left alone by whatever does not hide l. */
  lemma {:induction false} DocUntouched(l: Location, A: iset<Location>)
    requires Transparent(A) && !Hidden(A, l)
    ensures MaskAt(DocAt(l), A) == DocAt(l)
    decreases |l|
  {
    if l != [] {
      BelowStep(A, l);
      assert [l[0]] + l[1..] == l && [l[0]] + [] == [l[0]];
      UnderTransparent(A, l[0]);
      DocUntouched(l[1..], Under(A, l[0]));
      if l[0].Index? {
        forall n: nat | n <= l[0].i ensures MaskChild(DocAt(l[1..]), Under(A, Index(n))) == DocAt(l[1..]) {
          UnderAnyIndex(A, n, l[0].i);
        }
      }
    }
  }

  /** A path that does not address l finds nothing in the document made for l. */
  lemma {:induction false} DocMisses(l: Location, source: Path, fmt: real -> string)
    requires !Addresses(source, l)
    ensures CanReturn(DocAt(l), source, fmt, None)
    decreases |l|, |source|
  {
    if l != [] && source != [] {
      match l[0]
      case Index(_) => DocMisses(l[1..], source, fmt);
      case Key(k) =>
        if source[0] == ANY_DEPTH {
          DocMisses(l[1..], source, fmt);
          if |source| > 1 { DocMisses(l, source[1..], fmt); }
        } else if source[0] == ANY_KEY || source[0] == k {
          DocMisses(l[1..], source[1..], fmt);
        }
    }
  }

  /** A path that addresses l finds the string in it. */
  lemma {:induction false} DocReveals(l: Location, source: Path, fmt: real -> string)
    requires Addresses(source, l)
    ensures CanReturn(DocAt(l), source, fmt, Some(SECRET))
    decreases |l|, |source|
  {
    if l != [] {
      match l[0]
      case Index(_) =>
        DocReveals(l[1..], source, fmt);
        assert DocAt(l).items[0] == DocAt(l[1..]);
      case Key(k) =>
        assert k in DocAt(l).fields && DocAt(l).fields[k] == DocAt(l[1..]);
        if source[0] != ANY_DEPTH {
          DocReveals(l[1..], source[1..], fmt);
        } else if |source| > 1 && Addresses(source[1..], l) {
          DocReveals(l, source[1..], fmt);
        } else {
          DocReveals(l[1..], source, fmt);
          if |source| > 1 { DocMisses(l, source[1..], fmt); }
        }
    }
  }

  /** The label never gets anything but the placeholder from a document so redacted. */
  ghost predicate LabelCovered(paths: seq<Path>, source: Path, fmt: real -> string) {
    forall doc, s | CanReturn(RedactAll(doc, paths), source, fmt, Some(s)) :: s == PLACEHOLDER
  }

  /** A label reveals nothing of any document, under every iteration order, if and
      only if every location its path addresses is redacted by the list that governed
      the document, or lies below one that is. */
  lemma {:induction false} LabelCoveredIff(paths: seq<Path>, source: Path, fmt: real -> string)
    ensures LabelCovered(paths, source, fmt) <==>
            forall l | Addresses(source, l) :: Hidden(AddressedByAny(paths), l)
  {
    var A := AddressedByAny(paths);
    if forall l | Addresses(source, l) :: Hidden(A, l) {
      forall doc, s | CanReturn(RedactAll(doc, paths), source, fmt, Some(s)) ensures s == PLACEHOLDER {
        var l := ReturnedIsAddressed(RedactAll(doc, paths), source, fmt, s);
        RedactAllIsMasking(doc, paths);
        MaskAtLocation(doc, A, l);
      }
    }
    if l :| Addresses(source, l) && !Hidden(A, l) {
      AddressedTransparent(paths);
      DocUntouched(l, A);
      RedactAllIsMasking(DocAt(l), paths);
      DocReveals(l, source, fmt);
      assert CanReturn(RedactAll(DocAt(l), paths), source, fmt, Some(SECRET));
    }
  }
}
