/**
 JSON documents (section 3 of RFC 8259), the locations inside them, and the
 path grammar that redaction, metering and labelling share.
 */
module Json {

  datatype Option<+T> = None | Some(value: T)

  datatype Json =
    | Null
    | Bool(b: bool)
    | Num(n: real)
    | Str(s: string)
    | Arr(items: seq<Json>)
    | Obj(fields: map<string, Json>)

  /** One step from a node to a child of it. */
  datatype Step = Key(k: string) | Index(i: nat)

  type Location = seq<Step>

  /** A dotted path, already split: "$.a.*.b" is ["a", "*", "b"]. */
  type Path = seq<string>

  const ANY_KEY := "*"
  const ANY_DEPTH := "**"

  predicate HasChild(j: Json, s: Step) {
    match s
    case Key(k) => j.Obj? && k in j.fields
    case Index(i) => j.Arr? && i < |j.items|
  }

  function Child(j: Json, s: Step): (c: Json)
    requires HasChild(j, s)
    ensures c < j
  {
    match s
    case Key(k) => j.fields[k]
    case Index(i) => j.items[i]
  }

  predicate Has(j: Json, l: Location) {
    l == [] || (HasChild(j, l[0]) && Has(Child(j, l[0]), l[1..]))
  }

  function At(j: Json, l: Location): Json
    requires Has(j, l)
  {
    if l == [] then j else At(Child(j, l[0]), l[1..])
  }

  /** The path grammar, declaratively: a literal segment takes that key, "*" any
      key, "**" any number of keys provided something follows it, and array
      elements are entered without consuming a segment. */
  predicate Addresses(path: Path, l: Location)
    decreases |l|, |path|
  {
    if l == [] || path == [] then
      l == [] && path == []
    else if l[0].Index? then
      Addresses(path, l[1..])
    else if path[0] == ANY_DEPTH then
      (|path| > 1 && Addresses(path[1..], l)) || Addresses(path, l[1..])
    else
      (path[0] == ANY_KEY || path[0] == l[0].k) && Addresses(path[1..], l[1..])
  }

  ghost function Addressed(path: Path): iset<Location> {
    iset l: Location | Addresses(path, l)
  }

  ghost function AddressedByAny(paths: seq<Path>): iset<Location> {
    iset l: Location, p: Path | p in paths && Addresses(p, l) :: l
  }

  /** The locations of A below the child reached by s, relative to that child. */
  ghost function Under(A: iset<Location>, s: Step): iset<Location> {
    iset l: Location | [s] + l in A
  }

  ghost function MaxOf(s: set<nat>): (m: nat)
    ensures forall x | x in s :: x <= m
    ensures s == {} || m in s
  {
    if s == {} then 0
    else
      var x :| x in s;
      var m := MaxOf(s - {x});
      assert forall y | y in s :: y == x || y in s - {x};
      if x < m then m else x
  }

  /** Nesting depth: the measure under which recursive descent terminates. */
  ghost function Height(j: Json): nat {
    match j
    case Obj(fields) => 1 + MaxOf(set k | k in fields :: Height(fields[k]))
    case Arr(items) => 1 + MaxOf(set i | 0 <= i < |items| :: Height(items[i]))
    case _ => 0
  }

  lemma {:induction false} FieldsAreLower(j: Json)
    requires j.Obj?
    ensures forall k | k in j.fields :: Height(j.fields[k]) < Height(j)
  {
    var hs: set<nat> := set k | k in j.fields :: Height(j.fields[k]);
    assert Height(j) == 1 + MaxOf(hs);
    assert forall k | k in j.fields :: Height(j.fields[k]) in hs;
  }

  lemma {:induction false} ItemsAreLower(j: Json)
    requires j.Arr?
    ensures forall i | 0 <= i < |j.items| :: Height(j.items[i]) < Height(j)
  {
    var hs: set<nat> := set i | 0 <= i < |j.items| :: Height(j.items[i]);
    assert Height(j) == 1 + MaxOf(hs);
    assert forall i | 0 <= i < |j.items| :: Height(j.items[i]) in hs;
  }

  /** r has no child that j lacks, and none that is higher than j's. */
  ghost predicate NoHigher(r: Json, j: Json) {
    && (r.Obj? ==> j.Obj? && forall k | k in r.fields :: k in j.fields && Height(r.fields[k]) <= Height(j.fields[k]))
    && (r.Arr? ==> j.Arr? && |r.items| == |j.items| &&
                   forall i | 0 <= i < |r.items| :: Height(r.items[i]) <= Height(j.items[i]))
  }

  lemma {:induction false} NoHigherHeight(r: Json, j: Json)
    requires NoHigher(r, j)
    ensures Height(r) <= Height(j)
  {
    if r.Obj? {
      FieldsAreLower(j);
    } else if r.Arr? {
      ItemsAreLower(j);
    }
  }

  lemma UnderUnion(A: iset<Location>, B: iset<Location>, s: Step)
    ensures Under(A + B, s) == Under(A, s) + Under(B, s)
  {
  }

  // How the addressed set decomposes along one step; these four facts are all
  // that the walkers need to know about the grammar.

  lemma {:induction false} AddressedUnderIndex(path: Path, i: nat)
    requires path != []
    ensures Under(Addressed(path), Index(i)) == Addressed(path)
  {
    StepForms(path, Index(i));
  }

  lemma {:induction false} AddressedUnderKey(path: Path, k: string)
    requires path != [] && path[0] != ANY_DEPTH
    ensures Under(Addressed(path), Key(k)) ==
            if path[0] == ANY_KEY || path[0] == k then Addressed(path[1..]) else iset{}
  {
    StepForms(path, Key(k));
  }

  lemma {:induction false} AddressedUnderAnyDepth(path: Path, k: string)
    requires path != [] && path[0] == ANY_DEPTH
    ensures Under(Addressed(path), Key(k)) ==
            (if |path| > 1 then Under(Addressed(path[1..]), Key(k)) else iset{}) + Addressed(path)
  {
    StepForms(path, Key(k));
  }

  lemma StepForms(path: Path, s: Step)
    ensures forall l: Location :: ([s] + l)[0] == s && ([s] + l)[1..] == l
  {
  }
}
