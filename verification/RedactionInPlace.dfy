/**
 `redactPath` (internal/engine/redact.go) on the heap: objects and arrays are
 overwritten in place, and the "**" case relies on that by discarding the result
 of its first call. The method below is the walker statement by statement; its
 contract is the functional walker of module Redaction.
 */
module RedactionInPlace {
  import opened Json
  import opened Redaction

  /** A decoded value: scalars by value, objects and arrays by reference. */
  datatype Node =
    | NullNode
    | BoolNode(b: bool)
    | NumNode(n: real)
    | StrNode(s: string)
    | ArrNode(a: array<Node>)
    | ObjNode(o: Object)

  class Object {
    var fields: map<string, Node>

    constructor (fields: map<string, Node>)
      ensures this.fields == fields
    {
      this.fields := fields;
    }
  }

  /** Where the references of a document sit: each reference with the region of
      the heap that it and everything below it occupy. */
  datatype Shape =
    | Leaf
    | ArrShape(a: array<Node>, elems: seq<Shape>, region: set<object>)
    | ObjShape(o: Object, kids: map<string, Shape>, region: set<object>)

  ghost function Footprint(sh: Shape): set<object> {
    if sh.Leaf? then {} else sh.region
  }

  /** No reference occurs twice: decoding builds a tree. */
  ghost predicate Tree(sh: Shape) {
    match sh
    case Leaf => true
    case ArrShape(a, elems, region) =>
      && (a as object) in region
      && (forall i | 0 <= i < |elems| :: Tree(elems[i]) && Footprint(elems[i]) <= region - {a as object})
      && (forall i, i' | 0 <= i < i' < |elems| :: Footprint(elems[i]) !! Footprint(elems[i']))
    case ObjShape(o, kids, region) =>
      && (o as object) in region
      && (forall k | k in kids :: Tree(kids[k]) && Footprint(kids[k]) <= region - {o as object})
      && (forall k, k' | k in kids && k' in kids && k != k' :: Footprint(kids[k]) !! Footprint(kids[k']))
  }

  /** In the current heap, v is the document j laid out as sh. */
  ghost predicate Holds(v: Node, sh: Shape, j: Json)
    requires Tree(sh)
    reads Footprint(sh)
    decreases sh
  {
    match sh
    case Leaf =>
      (match j
       case Null => v == NullNode
       case Bool(b) => v == BoolNode(b)
       case Num(n) => v == NumNode(n)
       case Str(s) => v == StrNode(s)
       case _ => false)
    case ArrShape(a, elems, _) =>
      && v == ArrNode(a) && j.Arr? && a.Length == |elems| == |j.items|
      && forall i | 0 <= i < |elems| :: Holds(a[i], elems[i], j.items[i])
    case ObjShape(o, kids, _) =>
      && v == ObjNode(o) && j.Obj? && o.fields.Keys == kids.Keys == j.fields.Keys
      && forall k | k in kids :: Holds(o.fields[k], kids[k], j.fields[k])
  }

  /** The value a matched child is overwritten with. */
  function Replacement(c: Json, down: Path): Json {
    if down == [] then Str(PLACEHOLDER) else Redact(c, down)
  }

  /** Holds, except possibly for the entry k. */
  ghost predicate HoldsBut(v: Node, sh: Shape, j: Json, k: string)
    requires Tree(sh) && sh.ObjShape?
    reads Footprint(sh)
  {
    && v == ObjNode(sh.o) && j.Obj? && sh.o.fields.Keys == sh.kids.Keys == j.fields.Keys
    && forall k' | k' in sh.kids && k' != k :: Holds(sh.o.fields[k'], sh.kids[k'], j.fields[k'])
  }

  lemma TreeWithKid(sh: Shape, k: string, s: Shape)
    requires Tree(sh) && sh.ObjShape? && k in sh.kids
    requires Tree(s) && Footprint(s) <= Footprint(sh.kids[k])
    ensures Tree(sh.(kids := sh.kids[k := s]))
  {
  }

  method StoreField(v: Node, k: string, c: Node, ghost s: Shape, ghost r: Json, ghost sh: Shape, ghost j: Json)
    returns (ghost sh': Shape)
    requires Tree(sh) && sh.ObjShape? && k in sh.kids && HoldsBut(v, sh, j, k)
    requires Tree(s) && Footprint(s) <= Footprint(sh.kids[k]) && Holds(c, s, r)
    modifies sh.o
    ensures Tree(sh') && Footprint(sh') == Footprint(sh)
    ensures Holds(v, sh', Obj(j.fields[k := r]))
  {
    var o := v.o;
    o.fields := o.fields[k := c];
    TreeWithKid(sh, k, s);
    sh' := sh.(kids := sh.kids[k := s]);
    assert HoldsBut(v, sh, j, k) && Holds(c, s, r);
    KidStored(v, k, s, r, sh, j);
  }

  lemma KidStored(v: Node, k: string, s: Shape, r: Json, sh: Shape, j: Json)
    requires Tree(sh) && sh.ObjShape? && k in sh.kids && HoldsBut(v, sh, j, k)
    requires Tree(s) && Holds(sh.o.fields[k], s, r)
    requires Tree(sh.(kids := sh.kids[k := s]))
    ensures Holds(v, sh.(kids := sh.kids[k := s]), Obj(j.fields[k := r]))
  {
  }

  method ReplaceChild(v: Node, k: string, down: Path, ghost sh: Shape, ghost j: Json) returns (c: Node, ghost s: Shape)
    requires Tree(sh) && Holds(v, sh, j) && j.Obj? && k in j.fields
    modifies Footprint(sh.kids[k])
    ensures Tree(s) && Footprint(s) <= Footprint(sh.kids[k])
    ensures Holds(c, s, Replacement(j.fields[k], down))
    ensures HoldsBut(v, sh, j, k)
    decreases Height(j.fields[k]), |down|, 3
  {
    if down == [] {
      c, s := StrNode(PLACEHOLDER), Leaf;
    } else {
      c, s := RedactPath(v.o.fields[k], down, sh.kids[k], j.fields[k]);
    }
  }

  /** The update `v[key] = redactPath(child, down)`, or the placeholder. */
  method RedactField(v: Node, k: string, down: Path, ghost sh: Shape, ghost j: Json) returns (ghost sh': Shape)
    requires Tree(sh) && Holds(v, sh, j) && j.Obj? && k in j.fields
    modifies Footprint(sh)
    ensures Tree(sh') && Footprint(sh') <= Footprint(sh)
    ensures Holds(v, sh', Obj(j.fields[k := Replacement(j.fields[k], down)]))
    decreases Height(j.fields[k]), |down|, 4
  {
    var c;
    ghost var s;
    c, s := ReplaceChild(v, k, down, sh, j);
    sh' := StoreField(v, k, c, s, Replacement(j.fields[k], down), sh, j);
  }

  ghost function PartlyReplaced(fields: map<string, Json>, down: Path, todo: set<string>): map<string, Json> {
    map k | k in fields :: if k in todo then fields[k] else Replacement(fields[k], down)
  }

  lemma OneMoreReplaced(fields: map<string, Json>, down: Path, todo: set<string>, k: string)
    requires k in todo && k in fields
    ensures var now := PartlyReplaced(fields, down, todo);
            k in now && now[k] == fields[k] &&
            PartlyReplaced(fields, down, todo - {k}) == now[k := Replacement(fields[k], down)]
  {
  }

  /** The loop over a map's entries, in any order. */
  method RedactEveryField(v: Node, down: Path, ghost sh: Shape, ghost j: Json) returns (ghost sh': Shape)
    requires Tree(sh) && Holds(v, sh, j) && j.Obj?
    modifies Footprint(sh)
    ensures Tree(sh') && Footprint(sh') <= Footprint(sh)
    ensures Holds(v, sh', Obj(PartlyReplaced(j.fields, down, {})))
    decreases Height(j), |down|, 0
  {
    sh' := sh;
    var todo := v.o.fields.Keys;
    FieldsAreLower(j);
    ghost var now := PartlyReplaced(j.fields, down, todo);
    assert now == j.fields;
    while todo != {}
      invariant todo <= j.fields.Keys
      invariant now == PartlyReplaced(j.fields, down, todo)
      invariant Tree(sh') && Footprint(sh') <= Footprint(sh)
      invariant Holds(v, sh', Obj(now))
      decreases todo
    {
      var k :| k in todo;
      OneMoreReplaced(j.fields, down, todo, k);
      sh' := RedactField(v, k, down, sh', Obj(now));
      now := now[k := Replacement(j.fields[k], down)];
      todo := todo - {k};
    }
  }

  ghost function PartlyRedacted(items: seq<Json>, path: Path, n: nat): seq<Json>
    requires n <= |items|
  {
    seq(|items|, i requires 0 <= i < |items| => if i < n then Redact(items[i], path) else items[i])
  }

  /** Holds, except possibly for the slot n. */
  ghost predicate HoldsButSlot(v: Node, sh: Shape, j: Json, n: nat)
    requires Tree(sh) && sh.ArrShape?
    reads Footprint(sh)
  {
    && v == ArrNode(sh.a) && j.Arr? && sh.a.Length == |sh.elems| == |j.items|
    && forall i | 0 <= i < |sh.elems| && i != n :: Holds(sh.a[i], sh.elems[i], j.items[i])
  }

  lemma TreeWithElement(sh: Shape, n: nat, s: Shape)
    requires Tree(sh) && sh.ArrShape? && n < |sh.elems|
    requires Tree(s) && Footprint(s) <= Footprint(sh.elems[n])
    ensures Tree(sh.(elems := sh.elems[n := s]))
  {
  }

  lemma ElementStored(v: Node, n: nat, s: Shape, r: Json, sh: Shape, j: Json)
    requires Tree(sh) && sh.ArrShape? && n < |sh.elems| && HoldsButSlot(v, sh, j, n)
    requires Tree(s) && Holds(sh.a[n], s, r)
    requires Tree(sh.(elems := sh.elems[n := s]))
    ensures Holds(v, sh.(elems := sh.elems[n := s]), Arr(j.items[n := r]))
  {
  }

  method StoreElement(v: Node, n: nat, c: Node, ghost s: Shape, ghost r: Json, ghost sh: Shape, ghost j: Json)
    returns (ghost sh': Shape)
    requires Tree(sh) && sh.ArrShape? && n < |sh.elems| && HoldsButSlot(v, sh, j, n)
    requires Tree(s) && Footprint(s) <= Footprint(sh.elems[n]) && Holds(c, s, r)
    modifies sh.a
    ensures Tree(sh') && Footprint(sh') == Footprint(sh)
    ensures Holds(v, sh', Arr(j.items[n := r]))
  {
    var a := v.a;
    a[n] := c;
    TreeWithElement(sh, n, s);
    sh' := sh.(elems := sh.elems[n := s]);
    assert HoldsButSlot(v, sh, j, n) && Holds(c, s, r);
    ElementStored(v, n, s, r, sh, j);
  }

  /** The update `v[i] = redactPath(child, path)`. */
  method RedactElement(v: Node, n: nat, path: Path, ghost sh: Shape, ghost j: Json) returns (ghost sh': Shape)
    requires j.Arr? && n < |j.items| && Tree(sh) && Holds(v, sh, j)
    modifies Footprint(sh)
    ensures Tree(sh') && Footprint(sh') <= Footprint(sh)
    ensures Holds(v, sh', Arr(j.items[n := Redact(j.items[n], path)]))
    decreases Height(j.items[n]), |path|, 3
  {
    var c, s := RedactPath(v.a[n], path, sh.elems[n], j.items[n]);
    assert HoldsButSlot(v, sh, j, n);
    sh' := StoreElement(v, n, c, s, Redact(j.items[n], path), sh, j);
  }

  /** The loop over an array's slots. */
  method RedactEveryElement(v: Node, path: Path, ghost sh: Shape, ghost j: Json) returns (ghost sh': Shape)
    requires j.Arr? && Tree(sh) && Holds(v, sh, j)
    modifies Footprint(sh)
    ensures Tree(sh') && Footprint(sh') <= Footprint(sh)
    ensures Holds(v, sh', Arr(PartlyRedacted(j.items, path, |j.items|)))
    decreases Height(j), |path|, 0
  {
    sh' := sh;
    ItemsAreLower(j);
    ghost var now := PartlyRedacted(j.items, path, 0);
    assert now == j.items;
    for n := 0 to v.a.Length
      invariant now == PartlyRedacted(j.items, path, n)
      invariant Tree(sh') && Footprint(sh') <= Footprint(sh) && Holds(v, sh', Arr(now))
    {
      assert now[n] == j.items[n];
      sh' := RedactElement(v, n, path, sh', Arr(now));
      now := now[n := Redact(j.items[n], path)];
    }
  }

  lemma {:induction false} ObjectResults(j: Json, path: Path)
    requires j.Obj? && path != [] && path[0] != ANY_DEPTH
    ensures path[0] == ANY_KEY ==> Redact(j, path) == Obj(PartlyReplaced(j.fields, path[1..], {}))
    ensures path[0] != ANY_KEY && path[0] in j.fields ==>
              Redact(j, path) == Obj(j.fields[path[0] := Replacement(j.fields[path[0]], path[1..])])
    ensures path[0] != ANY_KEY && path[0] !in j.fields ==> Redact(j, path) == j
  {
    var r := Redact(j, path).fields;
    if path[0] == ANY_KEY {
      assert r == PartlyReplaced(j.fields, path[1..], {});
    } else if path[0] in j.fields {
      assert r == j.fields[path[0] := Replacement(j.fields[path[0]], path[1..])];
    } else {
      assert r == j.fields;
    }
  }

  lemma {:induction false} AnyDepthResult(j: Json, path: Path, here: Json)
    requires j.Obj? && path != [] && path[0] == ANY_DEPTH
    requires here == if |path[1..]| > 0 then Redact(j, path[1..]) else j
    ensures here.Obj? && Height(here) <= Height(j)
    ensures Redact(j, path) == Obj(PartlyReplaced(here.fields, path, {}))
  {
    AnyDepthUnfolds(j, path, here);
    EveryFieldReplaced(here.fields, path);
  }

  lemma {:induction false} EveryFieldReplaced(fields: map<string, Json>, down: Path)
    requires down != []
    ensures PartlyReplaced(fields, down, {}) == map k | k in fields :: Redact(fields[k], down)
  {
  }

  /** The walker on the heap computes `Redact`, and objects and arrays keep
      their identity: the root that was passed in is the root that comes back. */
  method RedactPath(v: Node, path: Path, ghost sh: Shape, ghost j: Json) returns (r: Node, ghost sh': Shape)
    requires Tree(sh) && Holds(v, sh, j)
    modifies Footprint(sh)
    ensures Tree(sh') && Footprint(sh') <= Footprint(sh)
    ensures Holds(r, sh', Redact(j, path))
    ensures v.ObjNode? || v.ArrNode? ==> r == v
    decreases Height(j), |path|, 2
  {
    r, sh' := v, sh;
    if path == [] {
      return;
    }
    match v
    case ObjNode(o) =>
      sh' := RedactObject(v, path, sh, j);
    case ArrNode(_) =>
      sh' := RedactEveryElement(v, path, sh, j);
      assert Redact(j, path) == Arr(PartlyRedacted(j.items, path, |j.items|));
    case _ =>
  }

  method RedactObject(v: Node, path: Path, ghost sh: Shape, ghost j: Json) returns (ghost sh': Shape)
    requires path != [] && v.ObjNode? && Tree(sh) && Holds(v, sh, j)
    modifies Footprint(sh)
    ensures Tree(sh') && Footprint(sh') <= Footprint(sh)
    ensures Holds(v, sh', Redact(j, path))
    decreases Height(j), |path|, 1
  {
    sh' := sh;
    var seg, rest := path[0], path[1..];
    if seg == ANY_DEPTH {
      ghost var here := if |rest| > 0 then Redact(j, rest) else j;
      if |rest| > 0 {
        var _, sh1 := RedactPath(v, rest, sh, j);
        sh' := sh1;
      }
      AnyDepthResult(j, path, here);
      sh' := RedactEveryField(v, path, sh', here);
    } else {
      ObjectResults(j, path);
      FieldsAreLower(j);
      if seg == ANY_KEY {
        sh' := RedactEveryField(v, rest, sh, j);
      } else if seg in v.o.fields {
        sh' := RedactField(v, seg, rest, sh, j);
      }
    }
  }

  /** The loop of `RedactJSONBody`: one walk per listed path. */
  method RedactDocument(v: Node, paths: seq<Path>, ghost sh: Shape, ghost j: Json) returns (r: Node, ghost sh': Shape)
    requires Tree(sh) && Holds(v, sh, j)
    modifies Footprint(sh)
    ensures Tree(sh') && Holds(r, sh', MaskAt(j, AddressedByAny(paths)))
  {
    r, sh' := v, sh;
    ghost var now := j;
    for n := 0 to |paths|
      invariant Tree(sh') && Footprint(sh') <= Footprint(sh) && Holds(r, sh', now)
      invariant RedactAll(now, paths[n..]) == RedactAll(j, paths)
    {
      r, sh' := RedactPath(r, paths[n], sh', now);
      assert paths[n..][1..] == paths[n + 1..];
      now := Redact(now, paths[n]);
    }
    RedactAllIsMasking(j, paths);
  }
}
