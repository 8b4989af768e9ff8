/**
 Schemas learnt from traffic (internal/spec/infer.go): the schema of one value,
 the merge of two, and what the fold over many values remembers of them.
 */
module Schemas {
  import opened Json

  datatype Ref = NoRef | Local(name: string) | Foreign

  /** The types of JSON Schema that are inferred; the empty type stands for both
      "not known yet" and "mixed". */
  datatype Type = Any | Object | Array | String | Integer | Number | Boolean

  datatype Schema = Schema(
    ref: Ref,
    typ: Type,
    nullable: bool,
    example: Option<Json>,
    props: Props,
    required: set<string>,
    items: Items)

  datatype Props = NoProps | Props(fields: map<string, Schema>)

  datatype Items = NoItems | Items(schema: Schema)

  const BLANK := Schema(NoRef, Any, false, None, NoProps, {}, NoItems)

  /** Values nested deeper than this are not looked into. */
  const MAX_DEPTH := 12

  function MergeTypes(a: Type, b: Type): Type {
    if a == b then a
    else if a == Any then b
    else if b == Any then a
    else if (a == Integer && b == Number) || (a == Number && b == Integer) then Number
    else Any
  }

  function FieldsOf(s: Schema): map<string, Schema> {
    if s.props.Props? then s.props.fields else map[]
  }

  function MergeSchemas(a: Schema, b: Schema): Schema
    decreases a
  {
    var merged := a.props.Props? || b.props.Props?;
    Schema(
      NoRef,
      MergeTypes(a.typ, b.typ),
      a.nullable || b.nullable,
      if a.example.Some? then a.example else b.example,
      if merged then
        var (f, g) := (FieldsOf(a), FieldsOf(b));
        Props(map k | k in f.Keys + g.Keys ::
          if k !in g then f[k] else if k !in f then g[k] else MergeSchemas(f[k], g[k]))
      else NoProps,
      if merged then a.required * b.required else {},
      if a.items.NoItems? then b.items
      else if b.items.NoItems? then a.items
      else Items(MergeSchemas(a.items.schema, b.items.schema)))
  }

  function Merge(a: Option<Schema>, b: Option<Schema>): Option<Schema> {
    if a.None? then b else if b.None? then a else Some(MergeSchemas(a.value, b.value))
  }

  predicate IsInteger(n: real) {
    n == n.Floor as real && -1000000000000000.0 < n < 1000000000000000.0
  }

  function SchemaOf(v: Json, depth: nat): Schema
    decreases v, 1
  {
    if depth > MAX_DEPTH then BLANK
    else
      match v
      case Obj(fields) =>
        BLANK.(typ := Object, required := fields.Keys,
               props := Props(map k | k in fields :: SchemaOf(fields[k], depth + 1)))
      case Arr(items) =>
        var elem := ItemsSchema(items, depth + 1);
        BLANK.(typ := Array, items := Items(if elem.Some? then elem.value else BLANK))
      case Str(s) =>
        BLANK.(typ := String, example := if s != "" && s != "[REDACTED]" then Some(v) else None)
      case Num(n) => BLANK.(typ := if IsInteger(n) then Integer else Number, example := Some(v))
      case Bool(_) => BLANK.(typ := Boolean)
      case Null => BLANK.(nullable := true)
  }

  function ItemsSchema(items: seq<Json>, depth: nat): Option<Schema>
    decreases items, 0
  {
    if items == [] then None
    else Merge(ItemsSchema(items[..|items| - 1], depth), Some(SchemaOf(items[|items| - 1], depth)))
  }

  /** The schema an operation accumulates over the bodies it has seen. */
  function FoldSchemas(bodies: seq<Json>): Option<Schema> {
    ItemsSchema(bodies, 0)
  }

  // ------------------------------------------------------------- positions

  /** A step in a schema: into a property, or into the elements of an array. */
  datatype Move = Prop(k: string) | Elem

  type Position = seq<Move>

  function Below(s: Option<Schema>, m: Move): Option<Schema> {
    if s.None? then None
    else
      match m
      case Prop(k) => if k in FieldsOf(s.value) then Some(FieldsOf(s.value)[k]) else None
      case Elem => if s.value.items.Items? then Some(s.value.items.schema) else None
  }

  function SchemaAt(s: Option<Schema>, pos: Position): Option<Schema>
    decreases |pos|
  {
    if pos == [] then s else SchemaAt(Below(s, pos[0]), pos[1..])
  }

  /** Merging works position by position. */
  lemma {:induction false} MergeAt(a: Option<Schema>, b: Option<Schema>, pos: Position)
    ensures SchemaAt(Merge(a, b), pos) == Merge(SchemaAt(a, pos), SchemaAt(b, pos))
    decreases |pos|
  {
    if pos != [] {
      assert Below(Merge(a, b), pos[0]) == Merge(Below(a, pos[0]), Below(b, pos[0]));
      MergeAt(Below(a, pos[0]), Below(b, pos[0]), pos[1..]);
    }
  }

  /** What one value shows at a position: the values there, or None where the
      value is cut off by depth. An empty array shows an unknown element. */
  function Observed(v: Json, pos: Position, depth: nat): set<Option<Json>>
    decreases v, 1
  {
    if depth > MAX_DEPTH then if pos == [] then {None} else {}
    else if pos == [] then {Some(v)}
    else if pos[0].Prop? then
      if v.Obj? && pos[0].k in v.fields then Observed(v.fields[pos[0].k], pos[1..], depth + 1) else {}
    else if v.Arr? then
      if v.items == [] then if |pos| == 1 then {None} else {}
      else ObservedIn(v.items, pos[1..], depth + 1)
    else {}
  }

  function ObservedIn(bodies: seq<Json>, pos: Position, depth: nat): set<Option<Json>>
    decreases bodies, 0
  {
    set i, x | 0 <= i < |bodies| && x in Observed(bodies[i], pos, depth) :: x
  }

  predicate ShowsKey(x: Option<Json>, k: string) {
    x.Some? && x.value.Obj? && k in x.value.fields
  }

  /** s remembers exactly this of the observations: which keys some object had,
      which keys every observation had (a non-object has none), and whether there
      was an object or an array at all. */
  ghost predicate Remembers(s: Option<Schema>, O: set<Option<Json>>) {
    && (s.Some? <==> O != {})
    && (s.Some? ==>
          && (s.value.props.Props? <==> exists x | x in O :: x.Some? && x.value.Obj?)
          && (s.value.items.Items? <==> exists x | x in O :: x.Some? && x.value.Arr?)
          && (forall k :: k in FieldsOf(s.value) <==> exists x | x in O :: ShowsKey(x, k))
          && (forall k :: k in s.value.required <==> forall x | x in O :: ShowsKey(x, k)))
  }

  lemma {:induction false} MergeRemembers(a: Option<Schema>, A: set<Option<Json>>, b: Option<Schema>,
                                          B: set<Option<Json>>)
    requires Remembers(a, A) && Remembers(b, B)
    ensures Remembers(Merge(a, b), A + B)
  {
    if a.None? {
      assert A + B == B;
    } else if b.None? {
      assert A + B == A;
    } else {
      var x :| x in A;
      var y :| y in B;
      assert x in A + B && y in A + B;
      var s := Merge(a, b);
      forall k ensures k in s.value.required <==> forall z | z in A + B :: ShowsKey(z, k) {
        if k in s.value.required {
          assert forall z | z in A + B :: z in A || z in B;
        }
      }
    }
  }

  lemma {:induction false} ValueRemembers(v: Json, pos: Position, depth: nat)
    ensures Remembers(SchemaAt(Some(SchemaOf(v, depth)), pos), Observed(v, pos, depth))
    decreases v, 1
  {
    if depth > MAX_DEPTH {
      if pos != [] { NothingBelow(pos[1..]); }
    } else if pos != [] {
      match pos[0]
      case Prop(k) =>
        if v.Obj? && k in v.fields {
          ValueRemembers(v.fields[k], pos[1..], depth + 1);
        } else {
          NothingBelow(pos[1..]);
        }
      case Elem =>
        if v.Arr? && v.items != [] {
          ItemsRemember(v.items, pos[1..], depth + 1);
        } else {
          NothingBelow(pos[1..]);
          if |pos| > 1 { NothingBelow(pos[2..]); }
        }
    }
  }

  lemma {:induction false} NothingBelow(pos: Position)
    ensures SchemaAt(None, pos) == None
  {
    if pos != [] { NothingBelow(pos[1..]); }
  }

  lemma {:induction false} ItemsRemember(items: seq<Json>, pos: Position, depth: nat)
    ensures Remembers(SchemaAt(ItemsSchema(items, depth), pos), ObservedIn(items, pos, depth))
    decreases items, 0
  {
    if items == [] {
      NothingBelow(pos);
    } else {
      var n := |items| - 1;
      var init, last := items[..n], items[n];
      ItemsRemember(init, pos, depth);
      ValueRemembers(last, pos, depth);
      MergeAt(ItemsSchema(init, depth), Some(SchemaOf(last, depth)), pos);
      MergeRemembers(SchemaAt(ItemsSchema(init, depth), pos), ObservedIn(init, pos, depth),
                     SchemaAt(Some(SchemaOf(last, depth)), pos), Observed(last, pos, depth));
      OneMoreItem(items, pos, depth);
    }
  }

  lemma {:induction false} OneMoreItem(items: seq<Json>, pos: Position, depth: nat)
    requires items != []
    ensures var n := |items| - 1;
            ObservedIn(items, pos, depth) == ObservedIn(items[..n], pos, depth) + Observed(items[n], pos, depth)
  {
    var n := |items| - 1;
    assert forall i | 0 <= i < n :: items[..n][i] == items[i];
  }

  /** Folding over any sequence of bodies: at every position the properties are the
      union, and `required` the intersection, of the keys observed there. */
  lemma {:induction false} FoldRemembers(bodies: seq<Json>, pos: Position)
    ensures Remembers(SchemaAt(FoldSchemas(bodies), pos), ObservedIn(bodies, pos, 0))
  {
    ItemsRemember(bodies, pos, 0);
  }

  // ------------------------------------------------- null values and examples

  /** What may serve as an example: a number, or a string that is neither empty nor the
      placeholder of redaction. */
  predicate Exemplary(v: Json) {
    v.Num? || (v.Str? && v.s != "" && v.s != "[REDACTED]")
  }

  /** s says whether null was observed, and gives an observed example if there is one. */
  ghost predicate RemembersScalars(s: Option<Schema>, O: set<Option<Json>>) {
    && (s.Some? <==> O != {})
    && (s.Some? ==>
          && (s.value.nullable <==> Some(Null) in O)
          && (s.value.example.Some? ==> Some(s.value.example.value) in O && Exemplary(s.value.example.value))
          && (s.value.example.None? ==> forall x | x in O :: !(x.Some? && Exemplary(x.value))))
  }

  lemma {:induction false} MergeRemembersScalars(a: Option<Schema>, A: set<Option<Json>>, b: Option<Schema>,
                                                 B: set<Option<Json>>)
    requires RemembersScalars(a, A) && RemembersScalars(b, B)
    ensures RemembersScalars(Merge(a, b), A + B)
  {
    if a.None? {
      assert A + B == B;
    } else if b.None? {
      assert A + B == A;
    } else {
      var x :| x in A;
      assert x in A + B;
    }
  }

  lemma {:induction false} ValueRemembersScalars(v: Json, pos: Position, depth: nat)
    ensures RemembersScalars(SchemaAt(Some(SchemaOf(v, depth)), pos), Observed(v, pos, depth))
    decreases v, 1
  {
    if depth > MAX_DEPTH {
      if pos != [] { NothingBelow(pos[1..]); }
    } else if pos == [] {
      assert Observed(v, pos, depth) == {Some(v)};
    } else {
      match pos[0]
      case Prop(k) =>
        if v.Obj? && k in v.fields {
          ValueRemembersScalars(v.fields[k], pos[1..], depth + 1);
        } else {
          NothingBelow(pos[1..]);
        }
      case Elem =>
        if v.Arr? && v.items != [] {
          ItemsRememberScalars(v.items, pos[1..], depth + 1);
        } else {
          NothingBelow(pos[1..]);
          if |pos| > 1 { NothingBelow(pos[2..]); }
        }
    }
  }

  lemma {:induction false} ItemsRememberScalars(items: seq<Json>, pos: Position, depth: nat)
    ensures RemembersScalars(SchemaAt(ItemsSchema(items, depth), pos), ObservedIn(items, pos, depth))
    decreases items, 0
  {
    if items == [] {
      NothingBelow(pos);
    } else {
      var n := |items| - 1;
      var init, last := items[..n], items[n];
      ItemsRememberScalars(init, pos, depth);
      ValueRemembersScalars(last, pos, depth);
      MergeAt(ItemsSchema(init, depth), Some(SchemaOf(last, depth)), pos);
      MergeRemembersScalars(SchemaAt(ItemsSchema(init, depth), pos), ObservedIn(init, pos, depth),
                            SchemaAt(Some(SchemaOf(last, depth)), pos), Observed(last, pos, depth));
      OneMoreItem(items, pos, depth);
    }
  }

  /** Folding over any sequence of bodies: a position is nullable exactly if null was
      observed there, and has an example exactly if something fit for one was; the
      example is an observed value, never the placeholder of redaction. */
  lemma {:induction false} FoldRemembersScalars(bodies: seq<Json>, pos: Position)
    ensures RemembersScalars(SchemaAt(FoldSchemas(bodies), pos), ObservedIn(bodies, pos, 0))
  {
    ItemsRememberScalars(bodies, pos, 0);
  }

  function FirstOf<T>(xs: seq<Option<T>>): Option<T> {
    if xs == [] then None else if xs[0].Some? then xs[0] else FirstOf(xs[1..])
  }

  lemma {:induction false} FirstOfAppend<T>(xs: seq<Option<T>>, x: Option<T>)
    ensures FirstOf(xs + [x]) == if FirstOf(xs).Some? then FirstOf(xs) else x
  {
    if xs != [] {
      assert (xs + [x])[1..] == xs[1..] + [x];
      FirstOfAppend(xs[1..], x);
    } else {
      assert xs + [x] == [x] && [x][1..] == [];
    }
  }

  function ExampleAt(s: Option<Schema>, pos: Position): Option<Json> {
    var t := SchemaAt(s, pos);
    if t.Some? then t.value.example else None
  }

  function ExamplesIn(bodies: seq<Json>, pos: Position): seq<Option<Json>> {
    seq(|bodies|, i requires 0 <= i < |bodies| => ExampleAt(Some(SchemaOf(bodies[i], 0)), pos))
  }

  /** The example is that of the first body that offers one there. */
  lemma {:induction false} ExampleIsFirst(bodies: seq<Json>, pos: Position)
    ensures ExampleAt(FoldSchemas(bodies), pos) == FirstOf(ExamplesIn(bodies, pos))
  {
    if bodies == [] {
      NothingBelow(pos);
    } else {
      var n := |bodies| - 1;
      ExampleIsFirst(bodies[..n], pos);
      MergeAt(FoldSchemas(bodies[..n]), Some(SchemaOf(bodies[n], 0)), pos);
      assert ExamplesIn(bodies, pos) == ExamplesIn(bodies[..n], pos) + [ExampleAt(Some(SchemaOf(bodies[n], 0)), pos)];
      FirstOfAppend(ExamplesIn(bodies[..n], pos), ExampleAt(Some(SchemaOf(bodies[n], 0)), pos));
    }
  }

  /** Hence neither depends on the order of the bodies, nor on repetitions. */
  lemma {:induction false} FoldOrderIndependent(bodies: seq<Json>, bodies': seq<Json>, pos: Position)
    requires forall v :: v in bodies <==> v in bodies'
    ensures var s, s' := SchemaAt(FoldSchemas(bodies), pos), SchemaAt(FoldSchemas(bodies'), pos);
            (s.Some? <==> s'.Some?) &&
            (s.Some? ==> FieldsOf(s.value).Keys == FieldsOf(s'.value).Keys && s.value.required == s'.value.required)
  {
    FoldRemembers(bodies, pos);
    FoldRemembers(bodies', pos);
    assert ObservedIn(bodies, pos, 0) == ObservedIn(bodies', pos, 0) by {
      forall x | x in ObservedIn(bodies, pos, 0) ensures x in ObservedIn(bodies', pos, 0) {
        var i :| 0 <= i < |bodies| && x in Observed(bodies[i], pos, 0);
        assert bodies[i] in bodies';
      }
      forall x | x in ObservedIn(bodies', pos, 0) ensures x in ObservedIn(bodies, pos, 0) {
        var i :| 0 <= i < |bodies'| && x in Observed(bodies'[i], pos, 0);
        assert bodies'[i] in bodies;
      }
    }
  }
}
