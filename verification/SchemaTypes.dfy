/**
 The types in an inferred schema (`mergeSchemas`, internal/spec/infer.go). Unlike
 properties and `required`, a type can depend on the order of the traffic, because
 "mixed" and "unknown" are the same type. This module says exactly when it does.
 */
module SchemaTypes {
  import opened Json
  import opened Schemas

  /** The types of successive observations, merged one after the other. */
  function FoldTypes(ts: seq<Type>): Type {
    if ts == [] then Any else MergeTypes(FoldTypes(ts[..|ts| - 1]), ts[|ts| - 1])
  }

  lemma FoldTypesAppend(ts: seq<Type>, t: Type)
    ensures FoldTypes(ts + [t]) == MergeTypes(FoldTypes(ts), t)
  {
    assert (ts + [t])[..|ts|] == ts;
  }

  /** Two types that merge into a type: equal, or the two numeric ones. */
  predicate Compatible(a: Type, b: Type) {
    a == b || (a == Integer && b == Number) || (a == Number && b == Integer)
  }

  // A condition on the observed types, as a bag: either all known types are
  // compatible, or no two are and they are even in number.

  ghost predicate Agreeing(m: multiset<Type>) {
    forall t, u | t in m && u in m && t != Any && u != Any :: Compatible(t, u)
  }

  ghost predicate Clashing(m: multiset<Type>) {
    && (forall t | t in m && t != Any :: m[t] == 1)
    && (forall t, u | t in m && u in m && t != Any && u != Any && t != u :: !Compatible(t, u))
  }

  ghost function Known(m: multiset<Type>): int {
    |m| - m[Any]
  }

  ghost predicate OrderFree(m: multiset<Type>) {
    Agreeing(m) || (Clashing(m) && Known(m) % 2 == 0)
  }

  ghost predicate OrderIndependent(ts: seq<Type>) {
    forall us | multiset(us) == multiset(ts) :: FoldTypes(us) == FoldTypes(ts)
  }

  /** The bag of a sequence with one more observation. */
  lemma BagAppend(ts: seq<Type>, t: Type)
    ensures multiset(ts + [t]) == multiset(ts) + multiset{t}
    ensures Known(multiset(ts + [t])) == Known(multiset(ts)) + if t == Any then 0 else 1
  {
  }

  // ---------------------------------------------------------- it is sufficient

  /** t is the widest of the observed types, all of them compatible. */
  ghost predicate Widest(m: multiset<Type>, t: Type) {
    && (t == Any ==> forall u | u in m :: u == Any)
    && (t != Any ==> t in m)
    && (Number in m ==> t == Number)
  }

  lemma WidestStep(m: multiset<Type>, t: Type, u: Type)
    requires Agreeing(m + multiset{u}) && Widest(m, t)
    ensures Agreeing(m) && Widest(m + multiset{u}, MergeTypes(t, u))
  {
    AgreeingPart(m, u);
    assert t in m && t != Any && u != Any ==> t in m + multiset{u} && Compatible(t, u);
  }

  /** Compatible observations give the widest of them. */
  lemma {:induction false} AgreeingFold(ts: seq<Type>)
    requires Agreeing(multiset(ts))
    ensures Widest(multiset(ts), FoldTypes(ts))
  {
    if ts != [] {
      var n := |ts| - 1;
      assert ts == ts[..n] + [ts[n]];
      BagAppend(ts[..n], ts[n]);
      AgreeingPart(multiset(ts[..n]), ts[n]);
      AgreeingFold(ts[..n]);
      WidestStep(multiset(ts[..n]), FoldTypes(ts[..n]), ts[n]);
    }
  }

  lemma AgreeingPart(m: multiset<Type>, u: Type)
    requires Agreeing(m + multiset{u})
    ensures Agreeing(m)
  {
    assert forall x | x in m :: x in m + multiset{u};
  }

  lemma ClashingPart(m: multiset<Type>, t: Type)
    requires Clashing(m + multiset{t})
    ensures Clashing(m)
    ensures t != Any ==> t !in m && forall u | u in m && u != Any :: !Compatible(u, t)
  {
    var all := m + multiset{t};
    assert t in all && forall u | u in m :: u in all && m[u] <= all[u];
    assert all[t] == m[t] + 1;
  }

  /** What pairwise clashing observations leave: nothing, or one of them. */
  ghost predicate Left(m: multiset<Type>, t: Type) {
    (t == Any <==> Known(m) % 2 == 0) && (t != Any ==> t in m)
  }

  lemma LeftStep(m: multiset<Type>, t: Type, u: Type)
    requires Clashing(m + multiset{u}) && Left(m, t)
    ensures Left(m + multiset{u}, MergeTypes(t, u))
  {
    ClashingPart(m, u);
  }

  /** Observations of which no two agree cancel each other in pairs. */
  lemma {:induction false} ClashingFold(ts: seq<Type>)
    requires Clashing(multiset(ts))
    ensures Left(multiset(ts), FoldTypes(ts))
  {
    if ts != [] {
      var n := |ts| - 1;
      assert ts == ts[..n] + [ts[n]];
      BagAppend(ts[..n], ts[n]);
      ClashingPart(multiset(ts[..n]), ts[n]);
      ClashingFold(ts[..n]);
      LeftStep(multiset(ts[..n]), FoldTypes(ts[..n]), ts[n]);
    }
  }

  lemma {:induction false} OrderFreeSuffices(ts: seq<Type>, us: seq<Type>)
    requires OrderFree(multiset(ts)) && multiset(us) == multiset(ts)
    ensures FoldTypes(us) == FoldTypes(ts)
  {
    assert forall t :: t in us <==> t in multiset(us);
    assert forall t :: t in ts <==> t in multiset(ts);
    if Agreeing(multiset(ts)) {
      AgreeingFold(ts);
      AgreeingFold(us);
    } else {
      ClashingFold(ts);
      ClashingFold(us);
    }
  }

  // ----------------------------------------------------------- it is necessary

  lemma {:induction false} SeqOf(m: multiset<Type>) returns (ts: seq<Type>)
    ensures multiset(ts) == m
    decreases |m|
  {
    if m == multiset{} {
      ts := [];
    } else {
      var t :| t in m;
      var rest := SeqOf(m - multiset{t});
      ts := rest + [t];
    }
  }

  /** Two compatible observations and a third that clashes with them, last or first:
      whatever came before, one order forgets the type and the other does not. */
  lemma {:induction false} TwoOrders(r: seq<Type>, x: Type, y: Type, z: Type)
    requires x != Any && y != Any && z != Any && Compatible(x, y) && !Compatible(x, z) && !Compatible(y, z)
    ensures FoldTypes(r + [x, y, z]) == Any && FoldTypes(r + [z, x, y]) != Any
  {
    FoldThree(r, x, y, z);
    FoldThree(r, z, x, y);
  }

  lemma {:induction false} FoldThree(r: seq<Type>, x: Type, y: Type, z: Type)
    ensures FoldTypes(r + [x, y, z]) == MergeTypes(MergeTypes(MergeTypes(FoldTypes(r), x), y), z)
  {
    var rx := r + [x];
    var rxy := rx + [y];
    assert r + [x, y, z] == rxy + [z];
    FoldTypesAppend(rxy, z);
    FoldTypesAppend(rx, y);
    FoldTypesAppend(r, x);
  }

  /** Two compatible observations, or one made twice. */
  lemma {:induction false} TwoAlike(m: multiset<Type>) returns (x: Type, y: Type)
    requires !Clashing(m)
    ensures x != Any && y != Any && Compatible(x, y)
    ensures x in m && y in m && (x == y ==> m[x] >= 2)
  {
    if t :| t in m && t != Any && m[t] != 1 {
      x, y := t, t;
    } else {
      x, y :| x in m && y in m && x != Any && y != Any && x != y && Compatible(x, y);
    }
  }

  /** Not all compatible, yet some two are: there are three observations as above. */
  lemma {:induction false} ThreeToReorder(m: multiset<Type>) returns (x: Type, y: Type, z: Type)
    requires !Agreeing(m) && !Clashing(m)
    ensures x != Any && y != Any && z != Any && Compatible(x, y) && !Compatible(x, z) && !Compatible(y, z)
    ensures multiset{x, y, z} <= m
  {
    x, y := TwoAlike(m);
    z := OneUnlike(m, x);
    ThreeFit(m, x, y, z);
  }

  lemma {:induction false} OneUnlike(m: multiset<Type>, x: Type) returns (z: Type)
    requires !Agreeing(m)
    ensures z in m && z != Any && !Compatible(x, z)
  {
    var a: Type, b: Type :| a in m && b in m && a != Any && b != Any && !Compatible(a, b);
    z := if Compatible(x, a) then b else a;
  }

  lemma ThreeFit(m: multiset<Type>, x: Type, y: Type, z: Type)
    requires x in m && y in m && z in m && (x == y ==> m[x] >= 2) && z != x && z != y
    ensures multiset{x, y, z} <= m
  {
  }

  lemma BagOfThree(r: seq<Type>, x: Type, y: Type, z: Type)
    ensures multiset(r + [x, y, z]) == multiset(r) + multiset{x, y, z}
  {
    assert multiset(r + [x, y, z]) == multiset(r) + multiset([x, y, z]);
  }

  lemma TwoOrdersSameBag(r: seq<Type>, x: Type, y: Type, z: Type)
    ensures multiset(r + [z, x, y]) == multiset(r + [x, y, z])
  {
    BagOfThree(r, x, y, z);
    BagOfThree(r, z, x, y);
    assert multiset{z, x, y} == multiset{x, y, z};
  }

  lemma {:induction false} TwoOrdersOf(m: multiset<Type>, x: Type, y: Type, z: Type)
    returns (us: seq<Type>, vs: seq<Type>)
    requires multiset{x, y, z} <= m
    requires x != Any && y != Any && z != Any && Compatible(x, y) && !Compatible(x, z) && !Compatible(y, z)
    ensures multiset(us) == m && multiset(vs) == m && FoldTypes(us) != FoldTypes(vs)
  {
    var r := SeqOf(m - multiset{x, y, z});
    us, vs := r + [x, y, z], r + [z, x, y];
    BagOfThree(r, x, y, z);
    TwoOrdersSameBag(r, x, y, z);
    TwoOrders(r, x, y, z);
  }

  lemma {:induction false} MixedIsDependent(ts: seq<Type>)
    requires !Agreeing(multiset(ts)) && !Clashing(multiset(ts))
    ensures !OrderIndependent(ts)
  {
    var x, y, z := ThreeToReorder(multiset(ts));
    var us, vs := TwoOrdersOf(multiset(ts), x, y, z);
  }

  /** An odd number of clashing observations leaves the last one. */
  lemma {:induction false} LastOneWins(m: multiset<Type>, a: Type) returns (us: seq<Type>)
    requires Clashing(m) && Known(m) % 2 != 0 && a in m && a != Any
    ensures multiset(us) == m && FoldTypes(us) == a
  {
    var rest := m - multiset{a};
    assert m == rest + multiset{a};
    var r := SeqOf(rest);
    us := r + [a];
    OthersCancel(r, a);
    FoldTypesAppend(r, a);
  }

  lemma {:induction false} OthersCancel(r: seq<Type>, a: Type)
    requires Clashing(multiset(r) + multiset{a}) && Known(multiset(r) + multiset{a}) % 2 != 0 && a != Any
    ensures FoldTypes(r) == Any
  {
    BagAppend(r, a);
    ClashingPart(multiset(r), a);
    ClashingFold(r);
  }

  lemma {:induction false} OddIsDependent(ts: seq<Type>)
    requires !Agreeing(multiset(ts)) && Clashing(multiset(ts)) && Known(multiset(ts)) % 2 != 0
    ensures !OrderIndependent(ts)
  {
    var m := multiset(ts);
    var a: Type, b: Type :| a in m && b in m && a != Any && b != Any && !Compatible(a, b);
    var us := LastOneWins(m, a);
    var vs := LastOneWins(m, b);
  }

  /** The merged type is the same in every order if and only if the observed types
      all agree, or clash pairwise and are even in number. */
  lemma {:induction false} OrderIndependentIff(ts: seq<Type>)
    ensures OrderIndependent(ts) <==> OrderFree(multiset(ts))
  {
    if OrderFree(multiset(ts)) {
      forall us | multiset(us) == multiset(ts) ensures FoldTypes(us) == FoldTypes(ts) {
        OrderFreeSuffices(ts, us);
      }
    }
    if !OrderFree(multiset(ts)) {
      if Clashing(multiset(ts)) {
        OddIsDependent(ts);
      } else {
        MixedIsDependent(ts);
      }
    }
  }

  // ---------------------------------------------- the same for inferred schemas

  function TypeOf(s: Option<Schema>): Type {
    if s.Some? then s.value.typ else Any
  }

  /** The type of a single value, within the depth limit. A number is an integer if it is
      one and below ten to the fifteenth. */
  lemma {:induction false} TypeOfValueIs(v: Json, depth: nat)
    requires depth <= MAX_DEPTH
    ensures var t := SchemaOf(v, depth).typ;
            && (t == Object <==> v.Obj?)
            && (t == Array <==> v.Arr?)
            && (t == String <==> v.Str?)
            && (t == Boolean <==> v.Bool?)
            && (t == Integer || t == Number <==> v.Num?)
            && (t == Integer <==> v.Num? && v.n.Floor as real == v.n && -1.0e15 < v.n < 1.0e15)
            && (t == Any <==> v.Null?)
  {
  }

  /** The type that one body alone shows at a position. */
  function TypeIn(v: Json, pos: Position): Type {
    TypeOf(SchemaAt(Some(SchemaOf(v, 0)), pos))
  }

  function TypesIn(bodies: seq<Json>, pos: Position): seq<Type> {
    seq(|bodies|, i requires 0 <= i < |bodies| => TypeIn(bodies[i], pos))
  }

  /** The inferred type at a position is the fold of what the bodies show there. */
  lemma {:induction false} InferredTypeIs(bodies: seq<Json>, pos: Position)
    ensures TypeOf(SchemaAt(FoldSchemas(bodies), pos)) == FoldTypes(TypesIn(bodies, pos))
  {
    if bodies == [] {
      NothingBelow(pos);
    } else {
      var n := |bodies| - 1;
      InferredTypeIs(bodies[..n], pos);
      MergeAt(FoldSchemas(bodies[..n]), Some(SchemaOf(bodies[n], 0)), pos);
      assert TypesIn(bodies, pos)[..n] == TypesIn(bodies[..n], pos);
    }
  }

  function Without<T>(s: seq<T>, i: nat): seq<T>
    requires i < |s|
  {
    s[..i] + s[i + 1..]
  }

  lemma BagWithout<T>(s: seq<T>, i: nat)
    requires i < |s|
    ensures multiset(s) == multiset(Without(s, i)) + multiset{s[i]}
  {
    assert s == s[..i] + [s[i]] + s[i + 1..];
  }

  lemma BagCancel<T>(a: multiset<T>, b: multiset<T>, x: T)
    requires a + multiset{x} == b + multiset{x}
    ensures a == b
  {
    assert a == a + multiset{x} - multiset{x} == b;
  }

  lemma {:induction false} BagEmpty<T>(s: seq<T>)
    requires multiset(s) == multiset{}
    ensures s == []
  {
    assert |multiset(s)| == |s|;
  }

  lemma TypesWithout(bodies: seq<Json>, pos: Position, i: nat)
    requires i < |bodies|
    ensures TypesIn(Without(bodies, i), pos) == Without(TypesIn(bodies, pos), i)
  {
  }

  /** Reordered bodies show reordered types. */
  lemma {:induction false} TypesReordered(bodies: seq<Json>, bodies': seq<Json>, pos: Position)
    requires multiset(bodies) == multiset(bodies')
    ensures multiset(TypesIn(bodies, pos)) == multiset(TypesIn(bodies', pos))
    decreases |bodies|
  {
    if bodies == [] {
      BagEmpty(bodies');
    } else {
      assert bodies[0] in multiset(bodies');
      var i :| 0 <= i < |bodies'| && bodies'[i] == bodies[0];
      BagWithout(bodies, 0);
      BagWithout(bodies', i);
      BagCancel(multiset(Without(bodies, 0)), multiset(Without(bodies', i)), bodies[0]);
      TypesReordered(Without(bodies, 0), Without(bodies', i), pos);
      TypesWithout(bodies, pos, 0);
      TypesWithout(bodies', pos, i);
      BagWithout(TypesIn(bodies, pos), 0);
      BagWithout(TypesIn(bodies', pos), i);
    }
  }

  /** Every order of the types is shown by some order of the bodies. */
  lemma {:induction false} BodiesReordered(bodies: seq<Json>, pos: Position, us: seq<Type>) returns (bodies': seq<Json>)
    requires multiset(us) == multiset(TypesIn(bodies, pos))
    ensures multiset(bodies') == multiset(bodies) && TypesIn(bodies', pos) == us
    decreases |us|
  {
    if us == [] {
      BagEmpty(TypesIn(bodies, pos));
      bodies' := bodies;
    } else {
      var i := BodyShowing(bodies, pos, us);
      var rest := BodiesReordered(Without(bodies, i), pos, us[1..]);
      bodies' := [bodies[i]] + rest;
      BodyInFront(bodies, i, rest);
      TypeInFront(bodies[i], rest, pos);
      assert us == [us[0]] + us[1..];
    }
  }

  lemma BodyInFront<T>(bodies: seq<T>, i: nat, rest: seq<T>)
    requires i < |bodies| && multiset(rest) == multiset(Without(bodies, i))
    ensures multiset([bodies[i]] + rest) == multiset(bodies)
  {
    BagWithout(bodies, i);
  }

  lemma TypeInFront(v: Json, rest: seq<Json>, pos: Position)
    ensures TypesIn([v] + rest, pos) == [TypeIn(v, pos)] + TypesIn(rest, pos)
  {
  }

  /** Some body shows the first of the types, and the others show the rest. */
  lemma {:induction false} BodyShowing(bodies: seq<Json>, pos: Position, us: seq<Type>) returns (i: nat)
    requires us != [] && multiset(us) == multiset(TypesIn(bodies, pos))
    ensures i < |bodies| && TypeIn(bodies[i], pos) == us[0]
    ensures multiset(us[1..]) == multiset(TypesIn(Without(bodies, i), pos))
  {
    var ts := TypesIn(bodies, pos);
    assert us[0] in multiset(ts);
    i :| i < |ts| && ts[i] == us[0];
    BagWithout(us, 0);
    BagWithout(ts, i);
    BagCancel(multiset(Without(us, 0)), multiset(Without(ts, i)), us[0]);
    TypesWithout(bodies, pos, i);
    assert Without(us, 0) == us[1..];
  }

  /** No order of the bodies changes the inferred type at this position. */
  ghost predicate TypeIsStable(bodies: seq<Json>, pos: Position) {
    forall bodies' | multiset(bodies') == multiset(bodies) ::
      TypeOf(SchemaAt(FoldSchemas(bodies'), pos)) == TypeOf(SchemaAt(FoldSchemas(bodies), pos))
  }

  /** The inferred type at a position is independent of the order of the traffic if
      and only if the types the bodies show there agree, or clash pairwise and are
      even in number. */
  lemma {:induction false} TypeIsStableIff(bodies: seq<Json>, pos: Position)
    ensures TypeIsStable(bodies, pos) <==> OrderFree(multiset(TypesIn(bodies, pos)))
  {
    var ts := TypesIn(bodies, pos);
    OrderIndependentIff(ts);
    InferredTypeIs(bodies, pos);
    if OrderIndependent(ts) {
      forall bodies' | multiset(bodies') == multiset(bodies)
        ensures TypeOf(SchemaAt(FoldSchemas(bodies'), pos)) == TypeOf(SchemaAt(FoldSchemas(bodies), pos))
      {
        TypesReordered(bodies, bodies', pos);
        InferredTypeIs(bodies', pos);
      }
    }
    if TypeIsStable(bodies, pos) {
      forall us | multiset(us) == multiset(ts) ensures FoldTypes(us) == FoldTypes(ts) {
        var bodies' := BodiesReordered(bodies, pos, us);
        InferredTypeIs(bodies', pos);
      }
    }
  }

  function Field(k: string, v: Json): Json {
    Obj(map[k := v])
  }

  lemma FieldTypeIs(k: string, v: Json)
    ensures TypeIn(Field(k, v), [Prop(k)]) == SchemaOf(v, 1).typ
  {
    assert SchemaAt(Some(SchemaOf(Field(k, v), 0)), [Prop(k)]) == Some(SchemaOf(v, 1));
  }

  lemma {:induction false} ThreeTypes(a: Json, b: Json, c: Json, pos: Position)
    ensures TypesIn([a, b, c], pos) == [TypeIn(a, pos), TypeIn(b, pos), TypeIn(c, pos)]
    ensures TypeOf(SchemaAt(FoldSchemas([a, b, c]), pos)) ==
            MergeTypes(MergeTypes(TypeIn(a, pos), TypeIn(b, pos)), TypeIn(c, pos))
  {
    InferredTypeIs([a, b, c], pos);
    FoldThree([], TypeIn(a, pos), TypeIn(b, pos), TypeIn(c, pos));
    assert TypesIn([a, b, c], pos) == [] + [TypeIn(a, pos), TypeIn(b, pos), TypeIn(c, pos)];
  }

  /** A field seen once as a string and twice as a boolean: its type is "boolean" or
      unknown, depending on whether the string came first or last. */
  lemma {:induction false} TypesDependOnOrder(k: string, s: string, b: bool, b': bool)
    ensures var text, yes, no := Field(k, Str(s)), Field(k, Bool(b)), Field(k, Bool(b'));
            && TypeOf(SchemaAt(FoldSchemas([text, yes, no]), [Prop(k)])) == Boolean
            && TypeOf(SchemaAt(FoldSchemas([yes, no, text]), [Prop(k)])) == Any
            && !TypeIsStable([text, yes, no], [Prop(k)])
  {
    var text, yes, no := Field(k, Str(s)), Field(k, Bool(b)), Field(k, Bool(b'));
    FieldTypeIs(k, Str(s));
    FieldTypeIs(k, Bool(b));
    FieldTypeIs(k, Bool(b'));
    ThreeTypes(text, yes, no, [Prop(k)]);
    ThreeTypes(yes, no, text, [Prop(k)]);
    LastFirst(text, yes, no);
  }

  lemma LastFirst<T>(a: T, b: T, c: T)
    ensures multiset([b, c, a]) == multiset([a, b, c])
  {
  }
}
