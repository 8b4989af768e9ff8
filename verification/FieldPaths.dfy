/**
 Dotted field paths, the unit in which a spec and traffic are compared: the
 flattening of a schema (internal/spec/model.go) and of a body
 (internal/spec/check.go), and what the first of an inferred schema has in common
 with the second of the bodies it was inferred from.
 */
module FieldPaths {
  import opened Json
  import opened Schemas

  type Components = map<string, Schema>

  /** Follows a local reference chain, at most this many links. */
  function Resolve(c: Components, s: Schema, links: nat): Schema
    decreases links
  {
    if links > 0 && s.ref.Local? && s.ref.name in c then Resolve(c, c[s.ref.name], links - 1) else s
  }

  const MAX_LINKS := 10

  function Dotted(prefix: string, k: string): string {
    if prefix == "" then k else prefix + "." + k
  }

  /** `walkFields`: elements are entered only where there are no properties. */
  function SchemaFields(c: Components, s: Option<Schema>, prefix: string, depth: nat): set<string>
    decreases MAX_DEPTH + 1 - depth, 2
  {
    if s.None? || depth > MAX_DEPTH then {}
    else
      var r := Resolve(c, s.value, MAX_LINKS);
      if FieldsOf(r) != map[] then
        PropertiesFields(c, FieldsOf(r), FieldsOf(r).Keys, prefix, depth)
      else if r.items.Items? then SchemaFields(c, Some(r.items.schema), prefix, depth + 1)
      else {}
  }

  function PropertiesFields(c: Components, fields: map<string, Schema>, done: set<string>, prefix: string,
                            depth: nat): set<string>
    requires depth <= MAX_DEPTH
    decreases MAX_DEPTH + 1 - depth, 1
  {
    set k, f | k in done && k in fields && f in PropertyFields(c, fields[k], Dotted(prefix, k), depth) :: f
  }

  function PropertyFields(c: Components, s: Schema, p: string, depth: nat): set<string>
    requires depth <= MAX_DEPTH
    decreases MAX_DEPTH + 1 - depth, 0
  {
    {p} + SchemaFields(c, Some(s), p, depth + 1)
  }

  /** The same, as the code fills its output set. */
  method WalkFields(c: Components, s: Option<Schema>, prefix: string, into: set<string>, depth: nat)
    returns (out: set<string>)
    ensures out == into + SchemaFields(c, s, prefix, depth)
    decreases MAX_DEPTH + 1 - depth, 1
  {
    if s.None? || depth > MAX_DEPTH {
      return into;
    }
    var r := Resolve(c, s.value, MAX_LINKS);
    if FieldsOf(r) != map[] {
      out := WalkProperties(c, FieldsOf(r), prefix, into, depth);
    } else if r.items.Items? {
      out := WalkFields(c, Some(r.items.schema), prefix, into, depth + 1);
    } else {
      out := into;
    }
  }

  method WalkProperties(c: Components, fields: map<string, Schema>, prefix: string, into: set<string>, depth: nat)
    returns (out: set<string>)
    requires depth <= MAX_DEPTH
    ensures out == into + PropertiesFields(c, fields, fields.Keys, prefix, depth)
    decreases MAX_DEPTH + 1 - depth, 0
  {
    out := into;
    var todo := fields.Keys;
    ghost var done: set<string> := {};
    while todo != {}
      invariant done + todo == fields.Keys
      invariant out == into + PropertiesFields(c, fields, done, prefix, depth)
      decreases todo
    {
      var k :| k in todo;
      var p := Dotted(prefix, k);
      OneMoreProperty(c, fields, done, k, prefix, depth);
      out := WalkFields(c, Some(fields[k]), p, out + {p}, depth + 1);
      done, todo := done + {k}, todo - {k};
    }
    assert done == fields.Keys;
  }

  /** `walkJSONFields`: every key of every object down to the depth limit. */
  function JsonFields(v: Json, prefix: string, depth: nat): set<string>
    decreases v, 1
  {
    if depth > MAX_DEPTH then {}
    else
      match v
      case Obj(fields) => EntriesFields(v, fields.Keys, prefix, depth)
      case Arr(items) => ElementsFields(v, |items|, prefix, depth)
      case _ => {}
  }

  function EntriesFields(v: Json, done: set<string>, prefix: string, depth: nat): set<string>
    requires v.Obj?
    decreases v, 0
  {
    set k, f | k in done && k in v.fields && f in EntryFields(v.fields[k], Dotted(prefix, k), depth) :: f
  }

  function ElementsFields(v: Json, n: nat, prefix: string, depth: nat): set<string>
    requires v.Arr? && n <= |v.items|
    decreases v, 0
  {
    set i, f | 0 <= i < n && f in ElementFields(v.items[i], prefix, depth) :: f
  }

  function EntryFields(v: Json, p: string, depth: nat): set<string>
    decreases v, 2
  {
    {p} + JsonFields(v, p, depth + 1)
  }

  function ElementFields(v: Json, prefix: string, depth: nat): set<string>
    decreases v, 2
  {
    JsonFields(v, prefix, depth + 1)
  }

  method WalkJsonFields(v: Json, prefix: string, into: set<string>, depth: nat) returns (out: set<string>)
    ensures out == into + JsonFields(v, prefix, depth)
    decreases v, 1
  {
    if depth > MAX_DEPTH {
      return into;
    }
    match v
    case Obj(_) => out := WalkEntries(v, prefix, into, depth);
    case Arr(_) => out := WalkElements(v, prefix, into, depth);
    case _ => out := into;
  }

  method WalkEntries(v: Json, prefix: string, into: set<string>, depth: nat) returns (out: set<string>)
    requires v.Obj?
    ensures out == into + EntriesFields(v, v.fields.Keys, prefix, depth)
    decreases v, 0
  {
    out := into;
    var todo := v.fields.Keys;
    while todo != {}
      invariant todo <= v.fields.Keys
      invariant out == into + EntriesFields(v, v.fields.Keys - todo, prefix, depth)
      decreases todo
    {
      var k :| k in todo;
      var p := Dotted(prefix, k);
      out := WalkJsonFields(v.fields[k], p, out + {p}, depth + 1);
      OneMoreEntry(v, v.fields.Keys - todo, k, prefix, depth);
      assert v.fields.Keys - (todo - {k}) == v.fields.Keys - todo + {k};
      todo := todo - {k};
    }
    assert v.fields.Keys - todo == v.fields.Keys;
  }

  method WalkElements(v: Json, prefix: string, into: set<string>, depth: nat) returns (out: set<string>)
    requires v.Arr?
    ensures out == into + ElementsFields(v, |v.items|, prefix, depth)
    decreases v, 0
  {
    out := into;
    for n := 0 to |v.items|
      invariant out == into + ElementsFields(v, n, prefix, depth)
    {
      out := WalkJsonFields(v.items[n], prefix, out, depth + 1);
      OneMoreElement(v, n, prefix, depth);
    }
  }

  lemma OneMoreProperty(c: Components, fields: map<string, Schema>, done: set<string>, k: string, prefix: string,
                        depth: nat)
    requires depth <= MAX_DEPTH && k in fields
    ensures PropertiesFields(c, fields, done + {k}, prefix, depth) ==
            PropertiesFields(c, fields, done, prefix, depth) + PropertyFields(c, fields[k], Dotted(prefix, k), depth)
  {
  }

  lemma OneMoreEntry(v: Json, done: set<string>, k: string, prefix: string, depth: nat)
    requires v.Obj? && k in v.fields
    ensures EntriesFields(v, done + {k}, prefix, depth) ==
            EntriesFields(v, done, prefix, depth) + EntryFields(v.fields[k], Dotted(prefix, k), depth)
  {
  }

  lemma OneMoreElement(v: Json, n: nat, prefix: string, depth: nat)
    requires v.Arr? && n < |v.items|
    ensures ElementsFields(v, n + 1, prefix, depth) ==
            ElementsFields(v, n, prefix, depth) + ElementFields(v.items[n], prefix, depth)
  {
  }

  // ------------------------------------------------- fields and positions

  /** The dotted path of a position; array elements add nothing to it. */
  function PathText(prefix: string, pos: Position): string
    decreases |pos|
  {
    if pos == [] then prefix
    else PathText(if pos[0].Prop? then Dotted(prefix, pos[0].k) else prefix, pos[1..])
  }

  function Names(pos: Position): seq<string> {
    if pos == [] then [] else (if pos[0].Prop? then [pos[0].k] else []) + Names(pos[1..])
  }

  function DropLeadingEmpty(ks: seq<string>): seq<string> {
    if ks != [] && ks[0] == "" then DropLeadingEmpty(ks[1..]) else ks
  }

  function EachAfterDot(ks: seq<string>): string {
    if ks == [] then "" else "." + ks[0] + EachAfterDot(ks[1..])
  }

  function Joined(ks: seq<string>): string {
    if ks == [] then "" else ks[0] + EachAfterDot(ks[1..])
  }

  lemma DotsRegroup(a: string, b: string, c: string)
    ensures a + "." + b + c == a + ("." + b + c)
  {
  }

  lemma {:induction false} TextAfter(prefix: string, pos: Position)
    requires prefix != ""
    ensures PathText(prefix, pos) == prefix + EachAfterDot(Names(pos))
    decreases |pos|
  {
    if pos != [] {
      if pos[0].Prop? {
        TextAfter(Dotted(prefix, pos[0].k), pos[1..]);
        assert Names(pos)[1..] == Names(pos[1..]);
        DotsRegroup(prefix, pos[0].k, EachAfterDot(Names(pos[1..])));
      } else {
        TextAfter(prefix, pos[1..]);
        assert Names(pos) == Names(pos[1..]);
      }
    }
  }

  /** A position's text is the names on the way, joined by dots; empty names before the
      first other one are lost. */
  lemma {:induction false} PathTextIs(pos: Position)
    ensures PathText("", pos) == Joined(DropLeadingEmpty(Names(pos)))
    decreases |pos|
  {
    if pos != [] {
      if pos[0].Prop? && pos[0].k != "" {
        TextAfter(pos[0].k, pos[1..]);
        assert Names(pos)[1..] == Names(pos[1..]);
      } else {
        PathTextIs(pos[1..]);
        assert pos[0].Elem? ==> Names(pos) == Names(pos[1..]);
        assert pos[0].Prop? ==> Names(pos)[1..] == Names(pos[1..]);
      }
    }
  }

  lemma {:induction false} TextOfField(prefix: string, pos: Position, k: string)
    ensures PathText(prefix, pos + [Prop(k)]) == Dotted(PathText(prefix, pos), k)
    ensures Names(pos + [Prop(k)]) == Names(pos) + [k]
    decreases |pos|
  {
    if pos != [] {
      assert (pos + [Prop(k)])[1..] == pos[1..] + [Prop(k)];
      TextOfField(if pos[0].Prop? then Dotted(prefix, pos[0].k) else prefix, pos[1..], k);
    }
  }

  lemma {:induction false} FieldTextIs(pos: Position, k: string)
    ensures Dotted(PathText("", pos), k) == Joined(DropLeadingEmpty(Names(pos) + [k]))
  {
    TextOfField("", pos, k);
    PathTextIs(pos + [Prop(k)]);
  }

  predicate LinksTo(c: Components, s: Schema, t: Schema) {
    s.ref.Local? && s.ref.name in c && t == c[s.ref.name]
  }

  /** Links are followed while there is one that leads somewhere, ten at most. */
  lemma {:induction false} ResolveFollows(c: Components, s: Schema, links: nat) returns (chain: seq<Schema>)
    ensures 1 <= |chain| <= links + 1 && chain[0] == s && chain[|chain| - 1] == Resolve(c, s, links)
    ensures forall i | 0 <= i < |chain| - 1 :: LinksTo(c, chain[i], chain[i + 1])
    ensures |chain| == links + 1 || forall t :: !LinksTo(c, Resolve(c, s, links), t)
    decreases links
  {
    if links > 0 && s.ref.Local? && s.ref.name in c {
      var rest := ResolveFollows(c, c[s.ref.name], links - 1);
      chain := [s] + rest;
    } else {
      chain := [s];
    }
  }

  ghost predicate Shown(O: set<Option<Json>>, k: string) {
    exists x | x in O :: ShowsKey(x, k)
  }

  /** The field k of the object at this position of v, seen from depth d. */
  ghost predicate JsonHas(v: Json, pos: Position, k: string, depth: nat) {
    Shown(Observed(v, pos, depth), k)
  }

  /** A body's field paths are the texts of the fields it shows. */
  lemma {:induction false} JsonFieldIsShown(v: Json, prefix: string, depth: nat, f: string)
    returns (pos: Position, k: string)
    requires f in JsonFields(v, prefix, depth)
    ensures JsonHas(v, pos, k, depth) && f == Dotted(PathText(prefix, pos), k)
    decreases v
  {
    match v
    case Obj(fields) =>
      k :| k in fields && f in EntryFields(fields[k], Dotted(prefix, k), depth);
      if f == Dotted(prefix, k) {
        pos := [];
        assert ShowsKey(Some(v), k) && Some(v) in Observed(v, [], depth);
      } else {
        var t, k' := JsonFieldIsShown(fields[k], Dotted(prefix, k), depth + 1, f);
        pos := [Prop(k)] + t;
        assert pos[1..] == t;
        assert Observed(v, pos, depth) == Observed(fields[k], t, depth + 1);
        k := k';
      }
    case Arr(items) =>
      var i :| 0 <= i < |items| && f in ElementFields(items[i], prefix, depth);
      var t, k' := JsonFieldIsShown(items[i], prefix, depth + 1, f);
      pos, k := [Elem] + t, k';
      assert pos[1..] == t;
      var x :| x in Observed(items[i], t, depth + 1) && ShowsKey(x, k);
      assert x in ObservedIn(items, t, depth + 1);
    case _ =>
  }

  lemma {:induction false} ShownIsJsonField(v: Json, prefix: string, depth: nat, pos: Position, k: string)
    requires JsonHas(v, pos, k, depth)
    ensures Dotted(PathText(prefix, pos), k) in JsonFields(v, prefix, depth)
    decreases v
  {
    var f := Dotted(PathText(prefix, pos), k);
    var x :| x in Observed(v, pos, depth) && ShowsKey(x, k);
    if pos == [] {
      assert f in EntryFields(v.fields[k], Dotted(prefix, k), depth);
    } else if pos[0].Prop? {
      var k' := pos[0].k;
      ShownIsJsonField(v.fields[k'], Dotted(prefix, k'), depth + 1, pos[1..], k);
      assert f in EntryFields(v.fields[k'], Dotted(prefix, k'), depth);
    } else {
      assert x in ObservedIn(v.items, pos[1..], depth + 1);
      var i :| 0 <= i < |v.items| && x in Observed(v.items[i], pos[1..], depth + 1);
      assert JsonHas(v.items[i], pos[1..], k, depth + 1);
      ShownIsJsonField(v.items[i], prefix, depth + 1, pos[1..], k);
      assert f in ElementFields(v.items[i], prefix, depth);
    }
  }

  /** No reference anywhere in s, as in every inferred schema. */
  ghost predicate Plain(s: Schema) {
    && s.ref == NoRef
    && (forall k | k in FieldsOf(s) :: Plain(FieldsOf(s)[k]))
    && (s.items.Items? ==> Plain(s.items.schema))
  }

  lemma {:induction false} MergePlain(a: Schema, b: Schema)
    requires Plain(a) && Plain(b)
    ensures Plain(MergeSchemas(a, b))
    decreases a
  {
    var m := MergeSchemas(a, b);
    forall k | k in FieldsOf(m) ensures Plain(FieldsOf(m)[k]) {
      if k in FieldsOf(a) && k in FieldsOf(b) {
        MergePlain(FieldsOf(a)[k], FieldsOf(b)[k]);
      }
    }
    if a.items.Items? && b.items.Items? {
      MergePlain(a.items.schema, b.items.schema);
    }
  }

  lemma {:induction false} SchemaOfPlain(v: Json, depth: nat)
    ensures Plain(SchemaOf(v, depth))
    decreases v, 1
  {
    if depth <= MAX_DEPTH {
      match v
      case Obj(fields) =>
        forall k | k in fields ensures Plain(SchemaOf(fields[k], depth + 1)) {
          SchemaOfPlain(fields[k], depth + 1);
        }
      case Arr(items) => ItemsPlain(items, depth + 1);
      case _ =>
    }
  }

  lemma {:induction false} ItemsPlain(items: seq<Json>, depth: nat)
    ensures ItemsSchema(items, depth).Some? ==> Plain(ItemsSchema(items, depth).value)
    decreases items, 0
  {
    if items != [] {
      var n := |items| - 1;
      ItemsPlain(items[..n], depth);
      SchemaOfPlain(items[n], depth);
      if n > 0 {
        MergePlain(ItemsSchema(items[..n], depth).value, SchemaOf(items[n], depth));
      }
    }
  }

  function KeysOf(s: Option<Schema>): set<string> {
    if s.Some? then FieldsOf(s.value).Keys else {}
  }

  /** Elements along the position are entered only where there are no properties. */
  ghost predicate Reached(s: Option<Schema>, pos: Position) {
    forall n | 0 <= n < |pos| && pos[n].Elem? :: KeysOf(SchemaAt(s, pos[..n])) == {}
  }

  lemma {:induction false} ReachedStep(s: Option<Schema>, pos: Position)
    requires pos != []
    ensures Reached(s, pos) <==> (pos[0].Elem? ==> KeysOf(s) == {}) && Reached(Below(s, pos[0]), pos[1..])
  {
    var t := pos[1..];
    assert forall n | 0 < n <= |pos| :: pos[..n][1..] == t[..n - 1] && pos[..n][0] == pos[0];
    if Reached(s, pos) {
      if pos[0].Elem? { assert pos[..0] == []; }
      forall n | 0 <= n < |t| && t[n].Elem? ensures KeysOf(SchemaAt(Below(s, pos[0]), t[..n])) == {} {
        assert pos[n + 1].Elem?;
        assert pos[..n + 1][1..] == t[..n];
      }
    }
    if (pos[0].Elem? ==> KeysOf(s) == {}) && Reached(Below(s, pos[0]), t) {
      forall n | 0 <= n < |pos| && pos[n].Elem? ensures KeysOf(SchemaAt(s, pos[..n])) == {} {
        if n > 0 {
          assert t[n - 1].Elem?;
        }
      }
    }
  }

  /** A schema's field paths are the texts of the properties it reaches. */
  lemma {:induction false} SchemaFieldIsReached(c: Components, s: Schema, prefix: string, depth: nat, f: string)
    returns (pos: Position, k: string)
    requires Plain(s) && f in SchemaFields(c, Some(s), prefix, depth)
    ensures Reached(Some(s), pos) && depth + |pos| <= MAX_DEPTH
    ensures k in KeysOf(SchemaAt(Some(s), pos)) && f == Dotted(PathText(prefix, pos), k)
    decreases MAX_DEPTH + 1 - depth
  {
    if FieldsOf(s) != map[] {
      k :| k in FieldsOf(s) && f in PropertyFields(c, FieldsOf(s)[k], Dotted(prefix, k), depth);
      if f == Dotted(prefix, k) {
        pos := [];
      } else {
        var t, k' := SchemaFieldIsReached(c, FieldsOf(s)[k], Dotted(prefix, k), depth + 1, f);
        pos := [Prop(k)] + t;
        assert pos[1..] == t;
        ReachedStep(Some(s), pos);
        k := k';
      }
    } else {
      var t, k' := SchemaFieldIsReached(c, s.items.schema, prefix, depth + 1, f);
      pos, k := [Elem] + t, k';
      assert pos[1..] == t;
      ReachedStep(Some(s), pos);
    }
  }

  lemma {:induction false} ReachedIsSchemaField(c: Components, s: Option<Schema>, prefix: string, depth: nat,
                                                pos: Position, k: string)
    requires s.Some? ==> Plain(s.value)
    requires Reached(s, pos) && depth + |pos| <= MAX_DEPTH && k in KeysOf(SchemaAt(s, pos))
    ensures Dotted(PathText(prefix, pos), k) in SchemaFields(c, s, prefix, depth)
    decreases |pos|
  {
    var f := Dotted(PathText(prefix, pos), k);
    if pos == [] {
      assert f in PropertyFields(c, FieldsOf(s.value)[k], Dotted(prefix, k), depth);
    } else {
      ReachedStep(s, pos);
      var b := Below(s, pos[0]);
      if b.None? { NothingBelow(pos[1..]); }
      var inner := if pos[0].Prop? then Dotted(prefix, pos[0].k) else prefix;
      ReachedIsSchemaField(c, b, inner, depth + 1, pos[1..], k);
      FieldBelow(c, s, prefix, depth, pos[0], f);
    }
  }

  /** What a child contributes, its parent has. */
  lemma {:induction false} FieldBelow(c: Components, s: Option<Schema>, prefix: string, depth: nat, m: Move, f: string)
    requires s.Some? && Plain(s.value) && depth <= MAX_DEPTH && Below(s, m).Some?
    requires m.Elem? ==> KeysOf(s) == {}
    requires f in SchemaFields(c, Below(s, m), if m.Prop? then Dotted(prefix, m.k) else prefix, depth + 1)
    ensures f in SchemaFields(c, s, prefix, depth)
  {
    if m.Prop? {
      assert f in PropertyFields(c, FieldsOf(s.value)[m.k], Dotted(prefix, m.k), depth);
    }
  }

  // --------------------------------------------- inferred against observed

  function BodiesFields(bodies: seq<Json>): set<string> {
    set i, f | 0 <= i < |bodies| && f in JsonFields(bodies[i], "", 0) :: f
  }

  /** Some body shows the field k at this position. */
  ghost predicate ShownIn(bodies: seq<Json>, pos: Position, k: string) {
    Shown(ObservedIn(bodies, pos, 0), k)
  }

  /** No array on the way shares its position with an object that has fields. */
  ghost predicate Unobscured(bodies: seq<Json>, pos: Position) {
    forall n, k | 0 <= n < |pos| && pos[n].Elem? :: !ShownIn(bodies, pos[..n], k)
  }

  /** No position is seen both as an object with fields and as an array. */
  ghost predicate NoClash(bodies: seq<Json>) {
    forall pos, k | ShownIn(bodies, pos, k) ::
      forall x | x in ObservedIn(bodies, pos, 0) :: !(x.Some? && x.value.Arr?)
  }

  /** f is the text of a field that some body shows. */
  ghost predicate ShownAs(bodies: seq<Json>, f: string) {
    exists pos, k :: ShownIn(bodies, pos, k) && f == Dotted(PathText("", pos), k)
  }

  /** The same, at a position that no object with fields obscures. */
  ghost predicate PlainlyShownAs(bodies: seq<Json>, f: string) {
    exists pos, k :: ShownIn(bodies, pos, k) && Unobscured(bodies, pos) && f == Dotted(PathText("", pos), k)
  }

  lemma {:induction false} ShownIsShallow(v: Json, pos: Position, k: string, depth: nat)
    requires JsonHas(v, pos, k, depth)
    ensures depth + |pos| <= MAX_DEPTH
    decreases |pos|
  {
    var x :| x in Observed(v, pos, depth) && ShowsKey(x, k);
    if pos != [] {
      if pos[0].Prop? {
        ShownIsShallow(v.fields[pos[0].k], pos[1..], k, depth + 1);
      } else {
        assert x in ObservedIn(v.items, pos[1..], depth + 1);
        var i :| 0 <= i < |v.items| && x in Observed(v.items[i], pos[1..], depth + 1);
        ShownIsShallow(v.items[i], pos[1..], k, depth + 1);
      }
    }
  }

  lemma {:induction false} ShownInSome(bodies: seq<Json>, pos: Position, k: string) returns (i: nat)
    requires ShownIn(bodies, pos, k)
    ensures i < |bodies| && JsonHas(bodies[i], pos, k, 0)
  {
    var x :| x in ObservedIn(bodies, pos, 0) && ShowsKey(x, k);
    i :| i < |bodies| && x in Observed(bodies[i], pos, 0);
  }

  lemma {:induction false} KeysAreShown(bodies: seq<Json>, pos: Position, k: string)
    ensures k in KeysOf(SchemaAt(FoldSchemas(bodies), pos)) <==> ShownIn(bodies, pos, k)
  {
    FoldRemembers(bodies, pos);
  }

  lemma {:induction false} ReachedIsUnobscured(bodies: seq<Json>, pos: Position)
    ensures Reached(FoldSchemas(bodies), pos) <==> Unobscured(bodies, pos)
  {
    forall n, k | 0 <= n < |pos| && pos[n].Elem?
      ensures k in KeysOf(SchemaAt(FoldSchemas(bodies), pos[..n])) <==> ShownIn(bodies, pos[..n], k)
    {
      KeysAreShown(bodies, pos[..n], k);
    }
  }

  /** The field paths observed in the bodies. */
  lemma {:induction false} ObservedFieldsAre(bodies: seq<Json>, f: string)
    ensures f in BodiesFields(bodies) <==> ShownAs(bodies, f)
  {
    if f in BodiesFields(bodies) {
      var i :| 0 <= i < |bodies| && f in JsonFields(bodies[i], "", 0);
      var pos, k := JsonFieldIsShown(bodies[i], "", 0, f);
      var x :| x in Observed(bodies[i], pos, 0) && ShowsKey(x, k);
      assert x in ObservedIn(bodies, pos, 0);
      assert ShownIn(bodies, pos, k);
    }
    if pos, k :| ShownIn(bodies, pos, k) && f == Dotted(PathText("", pos), k) {
      var i := ShownInSome(bodies, pos, k);
      ShownIsJsonField(bodies[i], "", 0, pos, k);
    }
  }

  /** The field paths of the inferred schema: the observed ones, except those
      found only inside arrays that share a position with an object with fields. */
  lemma {:induction false} InferredFieldsAre(c: Components, bodies: seq<Json>, f: string)
    ensures f in SchemaFields(c, FoldSchemas(bodies), "", 0) <==> PlainlyShownAs(bodies, f)
  {
    var s := FoldSchemas(bodies);
    ItemsPlain(bodies, 0);
    if f in SchemaFields(c, s, "", 0) {
      var pos, k := SchemaFieldIsReached(c, s.value, "", 0, f);
      ReachedIsUnobscured(bodies, pos);
      KeysAreShown(bodies, pos, k);
      assert ShownIn(bodies, pos, k);
    }
    if pos, k :| ShownIn(bodies, pos, k) && Unobscured(bodies, pos) && f == Dotted(PathText("", pos), k) {
      ReachedIsUnobscured(bodies, pos);
      KeysAreShown(bodies, pos, k);
      var i := ShownInSome(bodies, pos, k);
      ShownIsShallow(bodies[i], pos, k, 0);
      ReachedIsSchemaField(c, s, "", 0, pos, k);
    }
  }

  /** An inferred schema documents everything it was inferred from if and only if
      no field path occurs solely behind an obscured array. */
  lemma {:induction false} InferenceCoversIff(c: Components, bodies: seq<Json>)
    ensures BodiesFields(bodies) <= SchemaFields(c, FoldSchemas(bodies), "", 0) <==>
            forall f | ShownAs(bodies, f) :: PlainlyShownAs(bodies, f)
  {
    forall f
      ensures f in BodiesFields(bodies) <==> ShownAs(bodies, f)
      ensures f in SchemaFields(c, FoldSchemas(bodies), "", 0) <==> PlainlyShownAs(bodies, f)
    {
      ObservedFieldsAre(bodies, f);
      InferredFieldsAre(c, bodies, f);
    }
  }

  /** Behind every element step there is an array to step into. */
  lemma {:induction false} ElementsComeFromArrays(v: Json, pos: Position, depth: nat, n: nat)
    requires Observed(v, pos, depth) != {} && n < |pos| && pos[n].Elem?
    ensures exists x | x in Observed(v, pos[..n], depth) :: x.Some? && x.value.Arr?
    decreases |pos|
  {
    if n == 0 {
      assert pos[..0] == [];
      assert Some(v) in Observed(v, [], depth);
    } else {
      assert pos[..n][1..] == pos[1..][..n - 1];
      if pos[0].Prop? {
        ElementsComeFromArrays(v.fields[pos[0].k], pos[1..], depth + 1, n - 1);
      } else {
        var x :| x in ObservedIn(v.items, pos[1..], depth + 1);
        var i :| 0 <= i < |v.items| && x in Observed(v.items[i], pos[1..], depth + 1);
        ElementsComeFromArrays(v.items[i], pos[1..], depth + 1, n - 1);
        var y :| y in Observed(v.items[i], pos[1..][..n - 1], depth + 1) && y.Some? && y.value.Arr?;
        assert y in ObservedIn(v.items, pos[..n][1..], depth + 1);
      }
    }
  }

  lemma {:induction false} NoClashUnobscured(bodies: seq<Json>, pos: Position, k: string)
    requires NoClash(bodies) && ShownIn(bodies, pos, k)
    ensures Unobscured(bodies, pos)
  {
    var i := ShownInSome(bodies, pos, k);
    forall n, k' | 0 <= n < |pos| && pos[n].Elem? ensures !ShownIn(bodies, pos[..n], k') {
      ElementsComeFromArrays(bodies[i], pos, 0, n);
      var x :| x in Observed(bodies[i], pos[..n], 0) && x.Some? && x.value.Arr?;
      assert x in ObservedIn(bodies, pos[..n], 0);
    }
  }

  /** In particular nothing is lost when objects and arrays do not clash. */
  lemma {:induction false} NoClashCovers(c: Components, bodies: seq<Json>)
    requires NoClash(bodies)
    ensures BodiesFields(bodies) <= SchemaFields(c, FoldSchemas(bodies), "", 0)
  {
    forall f | ShownAs(bodies, f) ensures PlainlyShownAs(bodies, f) {
      var pos, k :| ShownIn(bodies, pos, k) && f == Dotted(PathText("", pos), k);
      NoClashUnobscured(bodies, pos, k);
    }
    InferenceCoversIff(c, bodies);
  }

  /** A clash does lose fields: an object body and an array body on one position. */
  lemma {:induction false} ClashLosesFields(c: Components)
    ensures var bodies := [Obj(map["x" := Null]), Arr([Obj(map["y" := Null])])];
            "y" in BodiesFields(bodies) && "y" !in SchemaFields(c, FoldSchemas(bodies), "", 0)
  {
    var a, inner := Obj(map["x" := Null]), Obj(map["y" := Null]);
    var b := Arr([inner]);
    var bodies := [a, b];
    assert "y" in inner.fields && inner.fields["y"] == Null;
    assert "y" in EntryFields(inner.fields["y"], Dotted("", "y"), 1);
    assert "y" in EntriesFields(inner, inner.fields.Keys, "", 1);
    assert "y" in JsonFields(inner, "", 1);
    assert "y" in ElementFields(b.items[0], "", 0);
    assert "y" in JsonFields(bodies[1], "", 0);
    assert bodies[..1] == [a] && [a][..0] == [];
    assert ItemsSchema([a], 0) == Some(SchemaOf(a, 0));
    var s := FoldSchemas(bodies).value;
    assert s == MergeSchemas(SchemaOf(a, 0), SchemaOf(b, 0));
    assert FieldsOf(s) == map["x" := SchemaOf(Null, 1)];
    assert SchemaFields(c, Some(SchemaOf(Null, 1)), "x", 1) == {};
    assert PropertyFields(c, SchemaOf(Null, 1), "x", 0) == {"x"};
    assert "x" in FieldsOf(s) && FieldsOf(s).Keys == {"x"};
    assert Resolve(c, s, MAX_LINKS) == s;
    assert SchemaFields(c, Some(s), "", 0) == PropertiesFields(c, FieldsOf(s), {"x"}, "", 0);
  }
}
