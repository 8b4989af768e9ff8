/**
 Redaction (internal/engine/redact.go): the masking walker as the code runs it,
 a declarative account of what masking means, and the proof that they agree.
 */
module Redaction {
  import opened Json

  const PLACEHOLDER: string := "[REDACTED]"

  /** Reference semantics: every child whose location is in A becomes the
      placeholder, everything else is kept and searched further. The root itself
      is never replaced. */
  ghost function MaskAt(j: Json, A: iset<Location>): Json
    decreases j, 0
  {
    match j
    case Obj(fields) => Obj(map k | k in fields :: MaskChild(fields[k], Under(A, Key(k))))
    case Arr(items) => Arr(seq(|items|, i requires 0 <= i < |items| => MaskChild(items[i], Under(A, Index(i)))))
    case _ => j
  }

  ghost function MaskChild(c: Json, A: iset<Location>): Json
    decreases c, 1
  {
    if [] in A then Str(PLACEHOLDER) else MaskAt(c, A)
  }

  /** The walker. In the "**" case the remainder is first applied to this node,
      and only then are the (already rewritten) children visited. */
  function Redact(j: Json, path: Path): (r: Json)
    ensures j.Obj? ==> r.Obj? && r.fields.Keys == j.fields.Keys
    ensures Height(r) <= Height(j)
    decreases Height(j), |path|
  {
    if path == [] then j
    else
      match j
      case Obj(fields) =>
        var seg, rest := path[0], path[1..];
        if seg == ANY_DEPTH then
          var here := if |rest| > 0 then Redact(j, rest) else j;
          FieldsAreLower(here);
          var r := Obj(map k | k in here.fields :: Redact(here.fields[k], path));
          NoHigherHeight(r, here);
          r
        else
          FieldsAreLower(j);
          var r := Obj(map k | k in fields ::
              if seg != ANY_KEY && seg != k then fields[k]
              else if rest == [] then Str(PLACEHOLDER)
              else Redact(fields[k], rest));
          NoHigherHeight(r, j);
          r
      case Arr(items) =>
        ItemsAreLower(j);
        var r := Arr(seq(|items|, i requires 0 <= i < |items| => Redact(items[i], path)));
        NoHigherHeight(r, j);
        r
      case _ => j
  }


  // ---------------------------------------------------------------- exactness

  /** Masking by A and then by B is masking by the union. */
  lemma {:induction false} MaskTwice(j: Json, A: iset<Location>, B: iset<Location>)
    ensures MaskAt(MaskAt(j, A), B) == MaskAt(j, A + B)
    decreases j, 0
  {
    match j
    case Obj(fields) =>
      forall k | k in fields
        ensures MaskChild(MaskChild(fields[k], Under(A, Key(k))), Under(B, Key(k))) ==
                MaskChild(fields[k], Under(A + B, Key(k)))
      {
        UnderUnion(A, B, Key(k));
        MaskChildTwice(fields[k], Under(A, Key(k)), Under(B, Key(k)));
      }
    case Arr(items) =>
      forall i: nat | i < |items|
        ensures MaskChild(MaskChild(items[i], Under(A, Index(i))), Under(B, Index(i))) ==
                MaskChild(items[i], Under(A + B, Index(i)))
      {
        UnderUnion(A, B, Index(i));
        MaskChildTwice(items[i], Under(A, Index(i)), Under(B, Index(i)));
      }
    case _ =>
  }

  lemma {:induction false} MaskChildTwice(c: Json, A: iset<Location>, B: iset<Location>)
    ensures MaskChild(MaskChild(c, A), B) == MaskChild(c, A + B)
    decreases c, 1
  {
    if [] !in A {
      MaskTwice(c, A, B);
    }
  }

  lemma {:induction false} MaskNothing(j: Json, A: iset<Location>)
    requires forall l | l in A :: l == []
    ensures MaskAt(j, A) == j
  {
    match j
    case Obj(fields) =>
      forall k | k in fields ensures MaskChild(fields[k], Under(A, Key(k))) == fields[k] {
        MaskNothing(fields[k], Under(A, Key(k)));
      }
    case Arr(items) =>
      forall i: nat | i < |items| ensures MaskChild(items[i], Under(A, Index(i))) == items[i] {
        MaskNothing(items[i], Under(A, Index(i)));
      }
    case _ =>
  }

  /** The walker masks exactly the shallowest locations its path addresses. */
  lemma {:induction false} RedactIsMasking(j: Json, path: Path)
    ensures Redact(j, path) == MaskAt(j, Addressed(path))
    decreases Height(j), |path|
  {
    if path == [] {
      MaskNothing(j, Addressed(path));
    } else {
      match j
      case Obj(fields) =>
        if path[0] == ANY_DEPTH {
          RedactAnyDepthIsMasking(j, path);
        } else {
          RedactKeyIsMasking(j, path);
        }
      case Arr(items) =>
        ItemsAreLower(j);
        forall i: nat | i < |items|
          ensures Redact(items[i], path) == MaskChild(items[i], Under(Addressed(path), Index(i)))
        {
          AddressedUnderIndex(path, i);
          RedactIsMasking(items[i], path);
        }
      case _ =>
    }
  }

  lemma {:induction false} RedactAnyDepthIsMasking(j: Json, path: Path)
    requires j.Obj? && path != [] && path[0] == ANY_DEPTH
    ensures Redact(j, path) == MaskAt(j, Addressed(path))
    decreases Height(j), |path|, 0
  {
    var rest := path[1..];
    var here := if |rest| > 0 then Redact(j, rest) else j;
    var A := if |path| > 1 then Addressed(rest) else iset{};
    assert here == MaskAt(j, A) by {
      if |rest| > 0 { RedactIsMasking(j, rest); } else { MaskNothing(j, A); }
    }
    AnyDepthUnfolds(j, path, here);
    FieldsAreLower(here);
    forall k | k in here.fields
      ensures Redact(here.fields[k], path) == MaskAt(here.fields[k], Addressed(path))
    {
      RedactIsMasking(here.fields[k], path);
    }
    forall k: string ensures Under(Addressed(path), Key(k)) == Under(A, Key(k)) + Addressed(path) {
      AddressedUnderAnyDepth(path, k);
    }
    DescentIsMasking(j, A, Addressed(path), Redact(j, path));
  }

  /** Masking the children by B after masking the node by A, when B is also what
      lies below every key of B itself, is masking the node by B. */
  lemma {:induction false} DescentIsMasking(j: Json, A: iset<Location>, B: iset<Location>, r: Json)
    requires j.Obj? && [] !in B
    requires forall k: string :: Under(B, Key(k)) == Under(A, Key(k)) + B
    requires r.Obj? && r.fields.Keys == j.fields.Keys
    requires forall k | k in j.fields :: r.fields[k] == MaskAt(MaskAt(j, A).fields[k], B)
    ensures r == MaskAt(j, B)
  {
    forall k | k in j.fields ensures r.fields[k] == MaskChild(j.fields[k], Under(B, Key(k))) {
      MaskedThenMasked(j.fields[k], Under(A, Key(k)), B, Under(B, Key(k)));
      assert MaskAt(j, A).fields[k] == MaskChild(j.fields[k], Under(A, Key(k)));
    }
    FieldwiseMask(j, B, r);
  }

  lemma {:induction false} MaskedThenMasked(c: Json, A: iset<Location>, B: iset<Location>, C: iset<Location>)
    requires [] !in B && C == A + B
    ensures MaskAt(MaskChild(c, A), B) == MaskChild(c, C)
  {
    MaskChildTwice(c, A, B);
  }

  lemma {:induction false} FieldwiseMask(j: Json, A: iset<Location>, r: Json)
    requires j.Obj? && r.Obj? && r.fields.Keys == j.fields.Keys
    requires forall k | k in j.fields :: r.fields[k] == MaskChild(j.fields[k], Under(A, Key(k)))
    ensures r == MaskAt(j, A)
  {
  }

  lemma {:induction false} AnyDepthUnfolds(j: Json, path: Path, here: Json)
    requires j.Obj? && path != [] && path[0] == ANY_DEPTH
    requires here == if |path[1..]| > 0 then Redact(j, path[1..]) else j
    ensures here.Obj? && here.fields.Keys == j.fields.Keys
    ensures Redact(j, path) == Obj(map k | k in here.fields :: Redact(here.fields[k], path))
  {
  }

  lemma {:induction false} RedactKeyIsMasking(j: Json, path: Path)
    requires j.Obj? && path != [] && path[0] != ANY_DEPTH
    ensures Redact(j, path) == MaskAt(j, Addressed(path))
    decreases Height(j), |path|, 0
  {
    var rest := path[1..];
    FieldsAreLower(j);
    forall k | k in j.fields
      ensures Redact(j, path).fields[k] == MaskChild(j.fields[k], Under(Addressed(path), Key(k)))
    {
      AddressedUnderKey(path, k);
      if path[0] != ANY_KEY && path[0] != k {
        MaskNothing(j.fields[k], iset{});
      } else if rest != [] {
        RedactIsMasking(j.fields[k], rest);
      }
    }
  }

  /** l lies strictly below a location of A, so masking by A removes it. */
  ghost predicate Below(A: iset<Location>, l: Location) {
    exists n :: 0 < n < |l| && l[..n] in A
  }

  /** l is a location of A or lies below one: masking by A hides its value. */
  ghost predicate Hidden(A: iset<Location>, l: Location) {
    (l != [] && l in A) || Below(A, l)
  }

  /** Same scalar, same key set, or same number of elements. */
  ghost predicate SameOutline(a: Json, b: Json) {
    match (a, b)
    case (Obj(f), Obj(g)) => f.Keys == g.Keys
    case (Arr(x), Arr(y)) => |x| == |y|
    case _ => a == b
  }

  lemma {:induction false} BelowStep(A: iset<Location>, l: Location)
    requires l != []
    ensures Below(A, l) <==> |l| > 1 && ([l[0]] in A || Below(Under(A, l[0]), l[1..]))
  {
    var s, t := l[0], l[1..];
    if Below(A, l) {
      var n :| 0 < n < |l| && l[..n] in A;
      assert [s] + t[..n - 1] == l[..n];
      if n == 1 { assert l[..n] == [s]; }
      if n > 1 { assert t[..n - 1] in Under(A, s); }
    }
    if |l| > 1 && [s] in A {
      assert l[..1] == [s];
    }
    if Below(Under(A, s), t) {
      var n :| 0 < n < |t| && t[..n] in Under(A, s);
      assert [s] + t[..n] == l[..n + 1];
    }
  }

  /** What masking does at every location of every document. */
  lemma {:induction false} MaskAtLocation(j: Json, A: iset<Location>, l: Location)
    ensures Has(MaskAt(j, A), l) <==> Has(j, l) && !Below(A, l)
    ensures Has(j, l) && !Below(A, l) ==>
              if l != [] && l in A then At(MaskAt(j, A), l) == Str(PLACEHOLDER)
              else SameOutline(At(MaskAt(j, A), l), At(j, l))
    decreases |l|
  {
    if l != [] && HasChild(j, l[0]) {
      var s, t, m := l[0], l[1..], MaskAt(j, A);
      var c, B := Child(j, s), Under(A, s);
      BelowStep(A, l);
      assert HasChild(m, s) && Child(m, s) == MaskChild(c, B);
      assert [s] + t == l && [s] + [] == [s];
      if [] !in B {
        MaskAtLocation(c, B, t);
      }
    } else if l != [] {
      assert !HasChild(MaskAt(j, A), l[0]);
    }
  }

  /** Redaction is exact. A location survives `Redact(j, path)` unless it lies
      below an addressed one; an addressed location reads the placeholder; every
      other survivor keeps its scalar value, key set or array length. */
  lemma {:induction false} RedactionIsExact(j: Json, path: Path, l: Location)
    ensures Has(Redact(j, path), l) <==> Has(j, l) && !Below(Addressed(path), l)
    ensures Has(j, l) && !Below(Addressed(path), l) ==>
              if l != [] && Addresses(path, l) then At(Redact(j, path), l) == Str(PLACEHOLDER)
              else SameOutline(At(Redact(j, path), l), At(j, l))
  {
    RedactIsMasking(j, path);
    MaskAtLocation(j, Addressed(path), l);
  }

  // --------------------------------------------------------- lists of paths

  /** `RedactJSONBody` applies the policy's paths one after the other. */
  function RedactAll(j: Json, paths: seq<Path>): Json
    decreases |paths|
  {
    if paths == [] then j else RedactAll(Redact(j, paths[0]), paths[1..])
  }

  lemma {:induction false} RedactAllIsMasking(j: Json, paths: seq<Path>)
    ensures RedactAll(j, paths) == MaskAt(j, AddressedByAny(paths))
    decreases |paths|
  {
    if paths == [] {
      MaskNothing(j, AddressedByAny(paths));
    } else {
      var p, rest := paths[0], paths[1..];
      RedactIsMasking(j, p);
      RedactAllIsMasking(Redact(j, p), rest);
      MaskTwice(j, Addressed(p), AddressedByAny(rest));
      assert paths == [p] + rest;
      assert AddressedByAny(paths) == Addressed(p) + AddressedByAny(rest);
    }
  }

  /** Only the set of paths matters: order and repetition do not. */
  lemma {:induction false} RedactionListsAreSets(j: Json, ps: seq<Path>, qs: seq<Path>)
    requires forall p :: p in ps <==> p in qs
    ensures RedactAll(j, ps) == RedactAll(j, qs)
  {
    RedactAllIsMasking(j, ps);
    RedactAllIsMasking(j, qs);
    assert AddressedByAny(ps) == AddressedByAny(qs);
  }

  /** Redacting twice, with the lists in either order, is redacting once with
      both lists; with equal lists this is idempotence. */
  lemma {:induction false} RedactTwice(j: Json, ps: seq<Path>, qs: seq<Path>)
    ensures RedactAll(RedactAll(j, ps), qs) == RedactAll(j, ps + qs)
    ensures RedactAll(RedactAll(j, ps), qs) == RedactAll(RedactAll(j, qs), ps)
    ensures RedactAll(RedactAll(j, ps), ps) == RedactAll(j, ps)
  {
    RedactAllIsMasking(j, ps);
    RedactAllIsMasking(j, qs);
    RedactAllIsMasking(RedactAll(j, ps), qs);
    RedactAllIsMasking(RedactAll(j, qs), ps);
    RedactAllIsMasking(RedactAll(j, ps), ps);
    RedactAllIsMasking(j, ps + qs);
    var A, B := AddressedByAny(ps), AddressedByAny(qs);
    MaskTwice(j, A, B);
    MaskTwice(j, B, A);
    MaskTwice(j, A, A);
    assert AddressedByAny(ps + qs) == A + B == B + A;
    assert A + A == A;
  }

  /** A longer list hides at least as much: a location it leaves readable is
      readable under the shorter list too, with the same outline as in the original. */
  lemma {:induction false} MorePathsHideMore(j: Json, ps: seq<Path>, qs: seq<Path>, l: Location)
    requires forall p | p in ps :: p in qs
    ensures Hidden(AddressedByAny(ps), l) ==> Hidden(AddressedByAny(qs), l)
    ensures Has(RedactAll(j, qs), l) ==> Has(RedactAll(j, ps), l) && Has(j, l)
    ensures Has(RedactAll(j, qs), l) && Hidden(AddressedByAny(ps), l) ==>
              At(RedactAll(j, qs), l) == At(RedactAll(j, ps), l) == Str(PLACEHOLDER)
    ensures Has(RedactAll(j, qs), l) && !Hidden(AddressedByAny(qs), l) ==>
              SameOutline(At(RedactAll(j, qs), l), At(j, l)) && SameOutline(At(RedactAll(j, ps), l), At(j, l))
  {
    RedactAllIsMasking(j, ps);
    RedactAllIsMasking(j, qs);
    MaskAtLocation(j, AddressedByAny(ps), l);
    MaskAtLocation(j, AddressedByAny(qs), l);
    assert AddressedByAny(ps) <= AddressedByAny(qs);
  }
}
