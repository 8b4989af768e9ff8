/**
 Usage metering (`sumNumeric`, internal/engine/redact.go): the numbers at the
 addressed locations are added up. Meter values are exact reals here.
 */
module Meters {
  import opened Json

  /** How many ways a path can be read so that it ends at l. The walker visits a
      location once for each of them. */
  function Ways(path: Path, l: Location): nat
    decreases |l|, |path|
  {
    if l == [] || path == [] then
      if l == [] && path == [] then 1 else 0
    else if l[0].Index? then
      Ways(path, l[1..])
    else if path[0] == ANY_DEPTH then
      (if |path| > 1 then Ways(path[1..], l) else 0) + Ways(path, l[1..])
    else if path[0] == ANY_KEY || path[0] == l[0].k then
      Ways(path[1..], l[1..])
    else 0
  }

  lemma {:induction false} WaysAreAddresses(path: Path, l: Location)
    ensures Ways(path, l) > 0 <==> Addresses(path, l)
    decreases |l|, |path|
  {
    if l != [] && path != [] {
      if l[0].Index? {
        WaysAreAddresses(path, l[1..]);
      } else if path[0] == ANY_DEPTH {
        WaysAreAddresses(path, l[1..]);
        if |path| > 1 { WaysAreAddresses(path[1..], l); }
      } else {
        WaysAreAddresses(path[1..], l[1..]);
      }
    }
  }

  // ------------------------------------------------------------ finite sums

  ghost function Sum<T(!new)>(S: set<T>, f: T -> real): real {
    if S == {} then 0.0 else var x :| x in S; f(x) + Sum(S - {x}, f)
  }

  lemma {:induction false} SumRemove<T(!new)>(S: set<T>, f: T -> real, x: T)
    requires x in S
    ensures Sum(S, f) == f(x) + Sum(S - {x}, f)
    decreases |S|
  {
    var y :| y in S && Sum(S, f) == f(y) + Sum(S - {y}, f);
    if y != x {
      SumRemove(S - {y}, f, x);
      SumRemove(S - {x}, f, y);
      assert S - {y} - {x} == S - {x} - {y};
    }
  }

  lemma {:induction false} SumUnion<T(!new)>(S: set<T>, T': set<T>, f: T -> real)
    requires S !! T'
    ensures Sum(S + T', f) == Sum(S, f) + Sum(T', f)
    decreases |S|
  {
    if S == {} {
      assert S + T' == T';
    } else {
      var x :| x in S;
      SumRemove(S, f, x);
      SumRemove(S + T', f, x);
      SumUnion(S - {x}, T', f);
      assert S + T' - {x} == (S - {x}) + T';
    }
  }

  /** Pointwise sums add up. */
  lemma {:induction false} SumPlus<T(!new)>(S: set<T>, f: T -> real, g: T -> real, h: T -> real)
    requires forall x | x in S :: f(x) == g(x) + h(x)
    ensures Sum(S, f) == Sum(S, g) + Sum(S, h)
    decreases |S|
  {
    if S != {} {
      var x :| x in S;
      SumRemove(S, f, x);
      SumRemove(S, g, x);
      SumRemove(S, h, x);
      SumPlus(S - {x}, f, g, h);
    }
  }

  /** Only the non-zero terms count. */
  lemma {:induction false} SumSupport<T(!new)>(S: set<T>, R: set<T>, f: T -> real, g: T -> real)
    requires R <= S
    requires forall x | x in S :: f(x) == if x in R then g(x) else 0.0
    ensures Sum(S, f) == Sum(R, g)
    decreases |S|
  {
    if S == {} {
      assert R == {};
    } else {
      var x :| x in S;
      SumRemove(S, f, x);
      if x in R { SumRemove(R, g, x); }
      SumSupport(S - {x}, R - {x}, f, g);
      assert x !in R ==> R - {x} == R;
    }
  }

  ghost function Prefixed(s: Step, S: set<Location>): set<Location> {
    set l | l in S :: [s] + l
  }

  lemma {:induction false} SumPrefixed(s: Step, S: set<Location>, f: Location -> real, g: Location -> real)
    requires forall l | l in S :: f([s] + l) == g(l)
    ensures Sum(Prefixed(s, S), f) == Sum(S, g)
    decreases |S|
  {
    if S == {} {
      assert Prefixed(s, S) == {};
    } else {
      var l :| l in S;
      assert [s] + l in Prefixed(s, S);
      SumRemove(Prefixed(s, S), f, [s] + l);
      SumRemove(S, g, l);
      SumPrefixed(s, S - {l}, f, g);
      assert Prefixed(s, S) - {[s] + l} == Prefixed(s, S - {l}) by {
        assert forall t | t in S :: ([s] + t)[1..] == t;
      }
    }
  }

  // ------------------------------------------------------ sums over locations

  /** The locations of the numbers in a document. */
  ghost function NumberLocations(j: Json): set<Location> {
    match j
    case Num(_) => {[]}
    case Obj(fields) => set k, l | k in fields && l in NumberLocations(fields[k]) :: [Key(k)] + l
    case Arr(items) => set i, l | 0 <= i < |items| && l in NumberLocations(items[i]) :: [Index(i)] + l
    case _ => {}
  }

  lemma {:induction false} NumberLocationsAre(j: Json, l: Location)
    ensures l in NumberLocations(j) <==> Has(j, l) && At(j, l).Num?
    decreases |l|
  {
    if l != [] {
      if HasChild(j, l[0]) {
        NumberLocationsAre(Child(j, l[0]), l[1..]);
        assert l == [l[0]] + l[1..];
      }
      if l in NumberLocations(j) {
        match j
        case Obj(fields) =>
          var k, t :| k in fields && t in NumberLocations(fields[k]) && l == [Key(k)] + t;
          assert l[0] == Key(k) && l[1..] == t;
        case Arr(items) =>
          var i: nat, t :| i < |items| && t in NumberLocations(items[i]) && l == [Index(i)] + t;
          assert l[0] == Index(i) && l[1..] == t;
        case _ =>
      }
    }
  }

  function Value(j: Json, l: Location): real {
    if Has(j, l) && At(j, l).Num? then At(j, l).n else 0.0
  }

  /** v added up w times. */
  function Times(w: nat, v: real): real {
    if w == 0 then 0.0 else v + Times(w - 1, v)
  }

  lemma {:induction false} TimesPlus(a: nat, b: nat, v: real)
    ensures Times(a + b, v) == Times(a, v) + Times(b, v)
  {
    if a > 0 { TimesPlus(a - 1, b, v); }
  }

  ghost function ValueOf(j: Json): Location -> real {
    l => Value(j, l)
  }

  ghost function Weight(j: Json, path: Path): Location -> real {
    l => Times(Ways(path, l), Value(j, l))
  }

  /** The walker's sum over the locations S: each counts once per reading. */
  ghost function Total(j: Json, path: Path, S: set<Location>): real {
    Sum(S, Weight(j, path))
  }

  /** The numbers a path addresses. */
  ghost function AddressedNumbers(j: Json, path: Path): set<Location> {
    set l | l in NumberLocations(j) && Addresses(path, l)
  }

  /** What a meter should report: each addressed number once. */
  ghost function MeterSum(j: Json, path: Path): real {
    Sum(AddressedNumbers(j, path), ValueOf(j))
  }

  /** Entering a child without a "**": the child's total under the path carried down. */
  lemma {:induction false} TotalBelow(j: Json, path: Path, s: Step, down: Path, S: set<Location>)
    requires HasChild(j, s)
    requires forall l: Location :: Ways(path, [s] + l) == Ways(down, l)
    ensures Total(j, path, Prefixed(s, S)) == Total(Child(j, s), down, S)
  {
    ValueBelow(j, s);
    SumPrefixed(s, S, Weight(j, path), Weight(Child(j, s), down));
  }

  /** The readings of a location in which a leading "**" takes its first step. */
  ghost function Deeper(j: Json, path: Path): Location -> real {
    l => if l == [] then 0.0 else Times(Ways(path, l[1..]), Value(j, l))
  }

  /** The readings in which a leading "**" stops here, if more segments follow. */
  function WaysHere(path: Path, l: Location): nat {
    if |path| > 1 then Ways(path[1..], l) else 0
  }

  lemma WaysAnyDepth(path: Path, l: Location)
    requires path != [] && path[0] == ANY_DEPTH && l != [] && l[0].Key?
    ensures Ways(path, l) == Ways(path, l[1..]) + WaysHere(path, l)
  {
  }

  lemma TimesSplit(w: nat, a: nat, b: nat, v: real)
    requires w == a + b
    ensures Times(w, v) == Times(a, v) + Times(b, v)
  {
    TimesPlus(a, b, v);
  }

  ghost function Here(j: Json, path: Path): Location -> real {
    l => Times(WaysHere(path, l), Value(j, l))
  }

  lemma {:induction false} DeeperSplits(j: Json, path: Path, l: Location)
    requires path != [] && path[0] == ANY_DEPTH && l != [] && l[0].Key?
    ensures Weight(j, path)(l) == Deeper(j, path)(l) + Here(j, path)(l)
  {
    WaysAnyDepth(path, l);
    TimesSplit(Ways(path, l), Ways(path, l[1..]), WaysHere(path, l), Value(j, l));
  }

  lemma {:induction false} HereTotal(j: Json, path: Path, S: set<Location>)
    requires path != []
    ensures Sum(S, Here(j, path)) == RestTotal(j, path, S)
  {
    if |path| > 1 {
      SumSupport(S, S, Here(j, path), Weight(j, path[1..]));
    } else {
      SumSupport(S, {}, Here(j, path), ValueOf(j));
    }
  }

  /** Entering a child under a "**" that may also stop here. */
  lemma {:induction false} TotalBelowAnyDepth(j: Json, path: Path, k: string, S: set<Location>)
    requires j.Obj? && k in j.fields && path != [] && path[0] == ANY_DEPTH
    ensures Total(j, path, Prefixed(Key(k), S)) ==
            Total(j.fields[k], path, S) + RestTotal(j, path, Prefixed(Key(k), S))
  {
    var s := Key(k);
    var P, f, below := Prefixed(s, S), Weight(j, path), Deeper(j, path);
    assert Sum(P, below) == Total(j.fields[k], path, S) by {
      ValueBelow(j, s);
      assert forall l: Location :: ([s] + l)[1..] == l;
      SumPrefixed(s, S, below, Weight(j.fields[k], path));
    }
    forall x | x in P ensures f(x) == below(x) + Here(j, path)(x) {
      DeeperSplits(j, path, x);
    }
    SumPlus(P, f, below, Here(j, path));
    HereTotal(j, path, P);
  }

  lemma {:induction false} ValueBelow(j: Json, s: Step)
    requires HasChild(j, s)
    ensures forall l: Location :: Value(j, [s] + l) == Value(Child(j, s), l)
  {
    forall l: Location ensures Value(j, [s] + l) == Value(Child(j, s), l) {
      assert ([s] + l)[0] == s && ([s] + l)[1..] == l;
    }
  }

  // ------------------------------------------------------------- the walker

  /** The steps to the children of a node. */
  function Steps(j: Json): set<Step> {
    match j
    case Obj(fields) => set k | k in fields :: Key(k)
    case Arr(items) => set i: nat | i < |items| :: Index(i)
    case _ => {}
  }

  lemma StepsAre(j: Json)
    ensures forall s: Step :: s in Steps(j) <==> HasChild(j, s)
  {
  }

  /** The numbers below the given children. */
  ghost function NumbersBelow(j: Json, done: set<Step>): set<Location> {
    set s, l | s in done && HasChild(j, s) && l in NumberLocations(Child(j, s)) :: [s] + l
  }

  lemma {:induction false} NumbersBelowAll(j: Json)
    requires !j.Num?
    ensures NumberLocations(j) == NumbersBelow(j, Steps(j))
  {
    StepsAre(j);
    forall l ensures l in NumberLocations(j) <==> l in NumbersBelow(j, Steps(j)) {
      NumberLocationsAre(j, l);
      if l != [] && HasChild(j, l[0]) {
        NumberLocationsAre(Child(j, l[0]), l[1..]);
        assert l == [l[0]] + l[1..];
      }
      if l in NumbersBelow(j, Steps(j)) {
        var s, t :| s in Steps(j) && HasChild(j, s) && t in NumberLocations(Child(j, s)) && l == [s] + t;
        NumberLocationsAre(Child(j, s), t);
        assert l[0] == s && l[1..] == t;
      }
    }
  }

  lemma {:induction false} NumbersBelowStep(j: Json, done: set<Step>, s: Step)
    requires HasChild(j, s) && s !in done
    ensures NumbersBelow(j, done + {s}) == NumbersBelow(j, done) + Prefixed(s, NumberLocations(Child(j, s)))
    ensures NumbersBelow(j, done) !! Prefixed(s, NumberLocations(Child(j, s)))
  {
    assert forall l | l in NumbersBelow(j, done) :: l[0] in done;
    assert forall l | l in Prefixed(s, NumberLocations(Child(j, s))) :: l[0] == s;
  }

  ghost predicate Hit(path: Path, S: set<Location>) {
    exists l | l in S :: Addresses(path, l)
  }

  /** What the loop over the children adds when it carries `down` into each. */
  ghost function PerChild(j: Json, down: Path): Step -> real {
    s => if HasChild(j, s) then Total(Child(j, s), down, NumberLocations(Child(j, s))) else 0.0
  }

  ghost predicate HitBelow(j: Json, down: Path, done: set<Step>) {
    exists s | s in done && HasChild(j, s) :: Hit(down, NumberLocations(Child(j, s)))
  }

  lemma {:induction false} EmptyPathTotal(j: Json)
    ensures Total(j, [], NumberLocations(j)) == Value(j, [])
    ensures AddressedNumbers(j, []) != {} <==> j.Num?
  {
    NumberLocationsAre(j, []);
    if j.Num? {
      SumRemove({[]}, Weight(j, []), []);
      assert Weight(j, [])([]) == Times(1, Value(j, []));
      assert [] in AddressedNumbers(j, []);
      var none: set<Location> := {[]} - {[]};
      assert none == {};
    } else {
      SumSupport(NumberLocations(j), {}, Weight(j, []), ValueOf(j));
    }
  }

  lemma {:induction false} ScalarTotal(j: Json, path: Path)
    requires path != [] && !j.Obj? && !j.Arr?
    ensures Total(j, path, NumberLocations(j)) == 0.0 && AddressedNumbers(j, path) == {}
  {
    SumSupport(NumberLocations(j), {}, Weight(j, path), ValueOf(j));
  }

  /** Every child is entered under the same path: arrays, and the "*" segment. */
  ghost predicate Uniform(j: Json, path: Path, down: Path) {
    path != [] &&
    ((j.Arr? && down == path) || (j.Obj? && path[0] == ANY_KEY && down == path[1..]))
  }

  lemma {:induction false} UniformStep(j: Json, path: Path, down: Path, s: Step)
    requires Uniform(j, path, down) && HasChild(j, s)
    ensures forall l: Location ::
              Ways(path, [s] + l) == Ways(down, l) && (Addresses(path, [s] + l) <==> Addresses(down, l))
  {
    StepForms(path, s);
  }

  lemma {:induction false} UniformTotal(j: Json, path: Path, down: Path)
    requires Uniform(j, path, down)
    ensures Total(j, path, NumberLocations(j)) == Sum(Steps(j), PerChild(j, down))
  {
    NumbersBelowAll(j);
    StepsAre(j);
    UniformTotalOf(j, path, down, Steps(j));
  }

  lemma {:induction false} UniformChild(j: Json, path: Path, down: Path, s: Step)
    requires Uniform(j, path, down) && HasChild(j, s)
    ensures Total(j, path, Prefixed(s, NumberLocations(Child(j, s)))) == PerChild(j, down)(s)
  {
    UniformStep(j, path, down, s);
    TotalBelow(j, path, s, down, NumberLocations(Child(j, s)));
  }

  lemma {:induction false} UniformOneMore(j: Json, path: Path, down: Path, done: set<Step>, s: Step)
    requires Uniform(j, path, down) && HasChild(j, s) && s !in done
    ensures Total(j, path, NumbersBelow(j, done + {s})) == Total(j, path, NumbersBelow(j, done)) + PerChild(j, down)(s)
  {
    NumbersBelowStep(j, done, s);
    SumUnion(NumbersBelow(j, done), Prefixed(s, NumberLocations(Child(j, s))), Weight(j, path));
    UniformChild(j, path, down, s);
  }

  lemma {:induction false} UniformTotalOf(j: Json, path: Path, down: Path, done: set<Step>)
    requires Uniform(j, path, down)
    requires forall s | s in done :: HasChild(j, s)
    ensures Total(j, path, NumbersBelow(j, done)) == Sum(done, PerChild(j, down))
    decreases |done|
  {
    if done == {} {
      assert NumbersBelow(j, done) == {};
    } else {
      var s :| s in done;
      UniformTotalOf(j, path, down, done - {s});
      UniformOneMore(j, path, down, done - {s}, s);
      assert done - {s} + {s} == done;
      SumRemove(done, PerChild(j, down), s);
    }
  }

  lemma {:induction false} UniformHits(j: Json, path: Path, down: Path)
    requires Uniform(j, path, down)
    ensures AddressedNumbers(j, path) != {} <==> HitBelow(j, down, Steps(j))
  {
    StepsAre(j);
    if AddressedNumbers(j, path) != {} {
      var l :| l in AddressedNumbers(j, path);
      NumbersBelowAll(j);
      var s, t :| s in Steps(j) && t in NumberLocations(Child(j, s)) && l == [s] + t;
      UniformStep(j, path, down, s);
      assert Hit(down, NumberLocations(Child(j, s)));
    }
    if HitBelow(j, down, Steps(j)) {
      var s :| s in Steps(j) && Hit(down, NumberLocations(Child(j, s)));
      var t :| t in NumberLocations(Child(j, s)) && Addresses(down, t);
      UniformStep(j, path, down, s);
      PrefixedWithin(j, s);
      assert [s] + t in AddressedNumbers(j, path);
    }
  }

  ghost function RestTotal(j: Json, path: Path, S: set<Location>): real {
    if |path| > 1 then Total(j, path[1..], S) else 0.0
  }

  lemma {:induction false} AnyDepthTotal(j: Json, path: Path)
    requires j.Obj? && path != [] && path[0] == ANY_DEPTH
    ensures Total(j, path, NumberLocations(j)) ==
            RestTotal(j, path, NumberLocations(j)) + Sum(Steps(j), PerChild(j, path))
  {
    NumbersBelowAll(j);
    StepsAre(j);
    AnyDepthTotalOf(j, path, Steps(j));
  }

  lemma {:induction false} AnyDepthTotalOf(j: Json, path: Path, done: set<Step>)
    requires j.Obj? && path != [] && path[0] == ANY_DEPTH
    requires forall s | s in done :: HasChild(j, s)
    ensures Total(j, path, NumbersBelow(j, done)) ==
            RestTotal(j, path, NumbersBelow(j, done)) + Sum(done, PerChild(j, path))
    decreases |done|
  {
    if done == {} {
      assert NumbersBelow(j, done) == {};
    } else {
      var s :| s in done;
      var rest := done - {s};
      AnyDepthTotalOf(j, path, rest);
      NumbersBelowStep(j, rest, s);
      assert rest + {s} == done;
      var P := Prefixed(s, NumberLocations(Child(j, s)));
      SumUnion(NumbersBelow(j, rest), P, Weight(j, path));
      if |path| > 1 { SumUnion(NumbersBelow(j, rest), P, Weight(j, path[1..])); }
      TotalBelowAnyDepth(j, path, s.k, NumberLocations(Child(j, s)));
      SumRemove(done, PerChild(j, path), s);
    }
  }

  lemma {:induction false} AnyDepthHits(j: Json, path: Path)
    requires j.Obj? && path != [] && path[0] == ANY_DEPTH
    ensures AddressedNumbers(j, path) != {} <==>
            (|path| > 1 && AddressedNumbers(j, path[1..]) != {}) || HitBelow(j, path, Steps(j))
  {
    NumbersBelowAll(j);
    StepsAre(j);
    if AddressedNumbers(j, path) != {} {
      var l :| l in AddressedNumbers(j, path);
      var s, t :| s in Steps(j) && t in NumberLocations(Child(j, s)) && l == [s] + t;
      if |path| > 1 && Addresses(path[1..], l) {
        assert l in AddressedNumbers(j, path[1..]);
      } else {
        assert l[1..] == t && Addresses(path, t);
      }
    }
    if |path| > 1 && AddressedNumbers(j, path[1..]) != {} {
      var l :| l in AddressedNumbers(j, path[1..]);
      assert l in AddressedNumbers(j, path);
    }
    if HitBelow(j, path, Steps(j)) {
      var s :| s in Steps(j) && Hit(path, NumberLocations(Child(j, s)));
      var t :| t in NumberLocations(Child(j, s)) && Addresses(path, t);
      assert ([s] + t)[1..] == t;
      assert [s] + t in AddressedNumbers(j, path);
    }
  }

  /** Under a literal segment only the child of that name can contribute. */
  lemma {:induction false} LiteralOthers(j: Json, path: Path, l: Location)
    requires j.Obj? && path != [] && path[0] != ANY_DEPTH && path[0] != ANY_KEY
    requires l in NumberLocations(j)
    requires !(path[0] in j.fields && l in Prefixed(Key(path[0]), NumberLocations(j.fields[path[0]])))
    ensures Ways(path, l) == 0 && !Addresses(path, l)
  {
    NumbersBelowAll(j);
    var s, t :| s in Steps(j) && HasChild(j, s) && t in NumberLocations(Child(j, s)) && l == [s] + t;
    assert l[0] == s && s != Key(path[0]);
  }

  lemma {:induction false} LiteralWays(path: Path, l: Location)
    requires path != [] && path[0] != ANY_DEPTH && path[0] != ANY_KEY
    ensures Ways(path, [Key(path[0])] + l) == Ways(path[1..], l)
    ensures Addresses(path, [Key(path[0])] + l) <==> Addresses(path[1..], l)
  {
    var x := [Key(path[0])] + l;
    assert x[0] == Key(path[0]) && x[1..] == l;
  }

  lemma {:induction false} LiteralTotal(j: Json, path: Path)
    requires j.Obj? && path != [] && path[0] != ANY_DEPTH && path[0] != ANY_KEY
    ensures Total(j, path, NumberLocations(j)) ==
            if path[0] in j.fields then Total(j.fields[path[0]], path[1..], NumberLocations(j.fields[path[0]])) else 0.0
  {
    var N, s := NumberLocations(j), Key(path[0]);
    var P: set<Location> := if path[0] in j.fields then Prefixed(s, NumberLocations(j.fields[path[0]])) else {};
    forall l | l in N && l !in P ensures Weight(j, path)(l) == 0.0 {
      LiteralOthers(j, path, l);
    }
    if path[0] in j.fields {
      PrefixedWithin(j, s);
      SumSupport(N, P, Weight(j, path), Weight(j, path));
      forall l: Location ensures Ways(path, [s] + l) == Ways(path[1..], l) { LiteralWays(path, l); }
      TotalBelow(j, path, s, path[1..], NumberLocations(j.fields[path[0]]));
    } else {
      SumSupport(N, P, Weight(j, path), Weight(j, path));
    }
  }

  lemma {:induction false} PrefixedWithin(j: Json, s: Step)
    requires HasChild(j, s)
    ensures Prefixed(s, NumberLocations(Child(j, s))) <= NumberLocations(j)
  {
    forall l | l in Prefixed(s, NumberLocations(Child(j, s))) ensures l in NumberLocations(j) {
      var t :| t in NumberLocations(Child(j, s)) && l == [s] + t;
      NumberLocationsAre(Child(j, s), t);
      NumberLocationsAre(j, l);
      assert l[0] == s && l[1..] == t;
    }
  }

  lemma {:induction false} LiteralHits(j: Json, path: Path)
    requires j.Obj? && path != [] && path[0] != ANY_DEPTH && path[0] != ANY_KEY
    ensures AddressedNumbers(j, path) != {} <==>
            path[0] in j.fields && AddressedNumbers(j.fields[path[0]], path[1..]) != {}
  {
    var s := Key(path[0]);
    if AddressedNumbers(j, path) != {} {
      var l :| l in AddressedNumbers(j, path);
      if !(path[0] in j.fields && l in Prefixed(s, NumberLocations(j.fields[path[0]]))) {
        LiteralOthers(j, path, l);
      }
      var t :| t in NumberLocations(j.fields[path[0]]) && l == [s] + t;
      LiteralWays(path, t);
      assert t in AddressedNumbers(j.fields[path[0]], path[1..]);
    }
    if path[0] in j.fields && AddressedNumbers(j.fields[path[0]], path[1..]) != {} {
      var t :| t in AddressedNumbers(j.fields[path[0]], path[1..]);
      LiteralWays(path, t);
      PrefixedWithin(j, s);
      assert [s] + t in AddressedNumbers(j, path);
    }
  }

  /** Adds every number the path addresses below `j`, whatever the map order. */
  method SumNumeric(j: Json, path: Path, sum0: real, found0: bool) returns (sum: real, found: bool)
    ensures sum == sum0 + Total(j, path, NumberLocations(j))
    ensures found == (found0 || AddressedNumbers(j, path) != {})
    decreases j, |path|, 1
  {
    sum, found := sum0, found0;
    if path == [] {
      if j.Num? {
        sum, found := sum + j.n, true;
      }
      EmptyPathTotal(j);
      return;
    }
    match j
    case Obj(fields) =>
      var seg, rest := path[0], path[1..];
      if seg == ANY_DEPTH {
        if |rest| > 0 {
          sum, found := SumNumeric(j, rest, sum, found);
        }
        sum, found := SumChildren(j, path, sum, found);
        AnyDepthTotal(j, path);
        AnyDepthHits(j, path);
      } else if seg == ANY_KEY {
        sum, found := SumChildren(j, rest, sum, found);
        UniformTotal(j, path, rest);
        UniformHits(j, path, rest);
      } else {
        if seg in fields {
          sum, found := SumNumeric(fields[seg], rest, sum, found);
        }
        LiteralTotal(j, path);
        LiteralHits(j, path);
      }
    case Arr(items) =>
      sum, found := SumChildren(j, path, sum, found);
      UniformTotal(j, path, path);
      UniformHits(j, path, path);
    case _ =>
      ScalarTotal(j, path);
  }

  /** The loops of the walker: every child, in any order, under the same path. */
  method SumChildren(j: Json, down: Path, sum0: real, found0: bool) returns (sum: real, found: bool)
    requires j.Obj? || j.Arr?
    ensures sum == sum0 + Sum(Steps(j), PerChild(j, down))
    ensures found == (found0 || HitBelow(j, down, Steps(j)))
    decreases j, |down|, 0
  {
    sum, found := sum0, found0;
    var todo := Steps(j);
    StepsAre(j);
    assert Steps(j) - todo == {};
    while todo != {}
      invariant todo <= Steps(j)
      invariant Counted(j, down, Steps(j) - todo, sum0, found0, sum, found)
      decreases todo
    {
      var s :| s in todo;
      ghost var sum1, found1 := sum, found;
      sum, found := SumNumeric(Child(j, s), down, sum, found);
      OneMoreChild(j, down, todo, s, sum0, found0, sum1, found1);
      todo := todo - {s};
    }
    assert Steps(j) - todo == Steps(j);
  }

  ghost predicate Counted(j: Json, down: Path, done: set<Step>, sum0: real, found0: bool, sum: real, found: bool) {
    sum == sum0 + Sum(done, PerChild(j, down)) && found == (found0 || HitBelow(j, down, done))
  }

  lemma {:induction false} OneMoreChild(j: Json, down: Path, todo: set<Step>, s: Step, sum0: real, found0: bool,
                                        sum: real, found: bool)
    requires s in todo && todo <= Steps(j)
    requires Counted(j, down, Steps(j) - todo, sum0, found0, sum, found)
    ensures HasChild(j, s)
    ensures Counted(j, down, Steps(j) - (todo - {s}), sum0, found0,
                    sum + Total(Child(j, s), down, NumberLocations(Child(j, s))),
                    found || AddressedNumbers(Child(j, s), down) != {})
  {
    StepsAre(j);
    var done := Steps(j) - (todo - {s});
    SumRemove(done, PerChild(j, down), s);
    assert done - {s} == Steps(j) - todo;
    if Hit(down, NumberLocations(Child(j, s))) {
      var l :| l in NumberLocations(Child(j, s)) && Addresses(down, l);
      assert l in AddressedNumbers(Child(j, s), down);
    }
  }

  // --------------------------------------------------------------- exactness

  function Descents(path: Path): nat {
    if path == [] then 0 else (if path[0] == ANY_DEPTH then 1 else 0) + Descents(path[1..])
  }

  predicate EndsInDescent(path: Path) {
    path != [] && path[|path| - 1] == ANY_DEPTH
  }

  lemma {:induction false} DescentAtEndAddressesNothing(path: Path, l: Location)
    requires EndsInDescent(path)
    ensures Ways(path, l) == 0
    decreases |l|, |path|
  {
    if l != [] {
      if l[0].Key? && |path| > 1 {
        DescentAtEndAddressesNothing(path[1..], l);
        DescentAtEndAddressesNothing(path[1..], l[1..]);
      }
      DescentAtEndAddressesNothing(path, l[1..]);
    }
  }

  /** Without a "**" a path consumes exactly one key per segment. */
  function KeyCount(l: Location): nat {
    if l == [] then 0 else (if l[0].Key? then 1 else 0) + KeyCount(l[1..])
  }

  lemma {:induction false} PlainPathLength(path: Path, l: Location)
    requires Descents(path) == 0 && Ways(path, l) > 0
    ensures KeyCount(l) == |path| && Ways(path, l) == 1
    decreases |l|, |path|
  {
    if l != [] && path != [] {
      PlainPathLength(if l[0].Index? then path else path[1..], l[1..]);
    }
  }

  lemma {:induction false} OneDescentOneWay(path: Path, l: Location)
    requires Descents(path) <= 1
    ensures Ways(path, l) <= 1
    ensures Ways(path, l) > 0 ==> |path| <= KeyCount(l) + Descents(path)
    decreases |l|, |path|
  {
    if Descents(path) == 0 {
      if Ways(path, l) > 0 { PlainPathLength(path, l); }
    } else if l != [] && path != [] {
      if l[0].Index? {
        OneDescentOneWay(path, l[1..]);
      } else if path[0] == ANY_DEPTH {
        OneDescentOneWay(path, l[1..]);
        if |path| > 1 && Ways(path[1..], l) > 0 { PlainPathLength(path[1..], l); }
      } else {
        OneDescentOneWay(path[1..], l[1..]);
      }
    }
  }

  /** A document holding the number 1 at l and nothing else. */
  function OneAt(l: Location): Json
    requires forall s | s in l :: s.Key?
  {
    if l == [] then Num(1.0) else Obj(map[l[0].k := OneAt(l[1..])])
  }

  lemma {:induction false} OneAtHolds(l: Location)
    requires forall s | s in l :: s.Key?
    ensures NumberLocations(OneAt(l)) == {l} && Value(OneAt(l), l) == 1.0
  {
    if l != [] {
      var k, t := l[0].k, l[1..];
      OneAtHolds(t);
      assert l == [Key(k)] + t;
      var j := OneAt(l);
      NumbersBelowAll(j);
      StepsAre(j);
      forall x ensures x in NumberLocations(j) <==> x == l {
        if x in NumbersBelow(j, Steps(j)) {
          var s, y :| s in Steps(j) && HasChild(j, s) && y in NumberLocations(Child(j, s)) && x == [s] + y;
        }
      }
    }
  }

  /** The keys a path takes when every "**" stands for nothing. */
  function Straight(path: Path): (l: Location)
    ensures forall s | s in l :: s.Key?
  {
    if path == [] then []
    else (if path[0] == ANY_DEPTH then [] else [Key(path[0])]) + Straight(path[1..])
  }

  /** Extra keys in front can be swallowed by a leading "**". */
  lemma {:induction false} DescentSkips(path: Path, extra: Location, l: Location)
    requires path != [] && path[0] == ANY_DEPTH
    ensures Ways(path, extra + l) >= Ways(path, l)
  {
    if extra == [] {
      assert extra + l == l;
    } else {
      DescentSkips(path, extra[1..], l);
      assert (extra + l)[1..] == extra[1..] + l;
    }
  }

  lemma {:induction false} StraightIsAddressed(path: Path)
    requires !EndsInDescent(path)
    ensures Ways(path, Straight(path)) >= 1
    ensures path != [] ==> Straight(path) != []
  {
    if path != [] {
      var l := Straight(path);
      StraightIsAddressed(path[1..]);
      if path[0] != ANY_DEPTH {
        assert l[0].Key? && l[1..] == Straight(path[1..]);
      } else {
        assert |path| > 1 && l == Straight(path[1..]) && l[0] in l;
      }
    }
  }

  lemma {:induction false} StraightSplits(path: Path, n: nat)
    requires n <= |path|
    ensures Straight(path) == Straight(path[..n]) + Straight(path[n..])
    ensures Descents(path) == Descents(path[..n]) + Descents(path[n..])
  {
    if n > 0 {
      StraightSplits(path[1..], n - 1);
      assert path[..n][1..] == path[1..][..n - 1] && path[n..] == path[1..][n - 1..];
    } else {
      assert path[n..] == path;
    }
  }

  lemma {:induction false} PlainSegmentsConsume(path: Path, n: nat, l: Location)
    requires n <= |path| && Descents(path[..n]) == 0
    ensures Ways(path, Straight(path[..n]) + l) == Ways(path[n..], l)
  {
    if n > 0 {
      var x := Straight(path[..n]);
      assert path[..n][1..] == path[1..][..n - 1] && path[n..] == path[1..][n - 1..];
      PlainSegmentsConsume(path[1..], n - 1, l);
      assert (x + l)[1..] == Straight(path[1..][..n - 1]) + l && (x + l)[0] == Key(path[0]);
    } else {
      assert path[n..] == path && Straight(path[..n]) + l == l;
    }
  }

  lemma {:induction false} FirstDescent(path: Path) returns (n: nat)
    requires Descents(path) > 0
    ensures n < |path| && path[n] == ANY_DEPTH && Descents(path[..n]) == 0
  {
    if path[0] == ANY_DEPTH {
      n := 0;
    } else {
      var m := FirstDescent(path[1..]);
      n := m + 1;
      assert path[..n][1..] == path[1..][..m];
    }
  }

  /** Two "**" that are followed by something can be told apart by no location:
      some location is reached in two ways. */
  lemma {:induction false} TwoDescentsOvercount(path: Path) returns (l: Location)
    requires !EndsInDescent(path) && Descents(path) >= 2
    ensures (forall s | s in l :: s.Key?) && Ways(path, l) >= 2
  {
    var rest := path[1..];
    if path[0] != ANY_DEPTH {
      var t := TwoDescentsOvercount(rest);
      l := [Key(path[0])] + t;
    } else if Descents(rest) >= 2 {
      l := TwoDescentsOvercount(rest);
      assert l[0] in l;
    } else {
      var n := FirstDescent(rest);
      var tail := rest[n..];
      var extra := if n == 0 then [Key("x")] else Straight(rest[..n]);
      l := extra + Straight(rest);
      StraightIsAddressed(rest);
      StraightSplits(rest, n);
      StraightIsAddressed(tail);
      FirstReading(rest, n, extra);
      SecondReading(path, extra);
      assert Ways(path, l) == Ways(rest, l) + Ways(path, l[1..]) by {
        assert l[0] in l;
        WaysAnyDepth(path, l);
      }
    }
  }

  lemma {:induction false} FirstReading(rest: Path, n: nat, extra: Location)
    requires n < |rest| && rest[n] == ANY_DEPTH && Descents(rest[..n]) == 0 && !EndsInDescent(rest)
    requires extra == if n == 0 then [Key("x")] else Straight(rest[..n])
    ensures Ways(rest, extra + Straight(rest)) >= 1
  {
    if n == 0 {
      StraightIsAddressed(rest);
      DescentSkips(rest, extra, Straight(rest));
    } else {
      PlainSegmentsConsume(rest, n, Straight(rest));
      TailReading(rest, n);
    }
  }

  lemma {:induction false} TailReading(rest: Path, n: nat)
    requires n < |rest| && rest[n] == ANY_DEPTH && !EndsInDescent(rest)
    ensures Ways(rest[n..], Straight(rest)) >= 1
  {
    var tail := rest[n..];
    StraightSplits(rest, n);
    StraightIsAddressed(tail);
    DescentSkips(tail, Straight(rest[..n]), Straight(tail));
  }

  lemma {:induction false} SecondReading(path: Path, extra: Location)
    requires |path| > 1 && path[0] == ANY_DEPTH && !EndsInDescent(path) && extra != []
    ensures Ways(path, (extra + Straight(path[1..]))[1..]) >= 1
  {
    var l := Straight(path[1..]);
    StraightIsAddressed(path);
    assert Straight(path) == l;
    DescentSkips(path, extra[1..], l);
    assert (extra + l)[1..] == extra[1..] + l;
  }

  /** Metering is exact on a path: on every document the walker reports each
      addressed number once. */
  ghost predicate MeteringExact(path: Path) {
    forall j :: Total(j, path, NumberLocations(j)) == MeterSum(j, path)
  }

  /** Exactly the paths with at most one "**", or a useless one at the end, are
      metered exactly; every other path counts some location twice. */
  lemma {:induction false} MeteringExactIff(path: Path)
    ensures MeteringExact(path) <==> Descents(path) <= 1 || EndsInDescent(path)
  {
    if Descents(path) <= 1 || EndsInDescent(path) {
      forall j ensures Total(j, path, NumberLocations(j)) == MeterSum(j, path) {
        AtMostOnceIsExact(j, path);
      }
    } else {
      var l := TwoDescentsOvercount(path);
      var j := OneAt(l);
      OneAtHolds(l);
      WaysAreAddresses(path, l);
      assert AddressedNumbers(j, path) == {l};
      SumRemove({l}, Weight(j, path), l);
      SumRemove({l}, ValueOf(j), l);
      assert {l} - {l} == {};
      assert Times(Ways(path, l), 1.0) >= 2.0 by { TimesOne(Ways(path, l)); }
    }
  }

  lemma {:induction false} TimesOne(w: nat)
    ensures Times(w, 1.0) == w as real
  {
    if w > 0 { TimesOne(w - 1); }
  }

  lemma {:induction false} AtMostOnceIsExact(j: Json, path: Path)
    requires Descents(path) <= 1 || EndsInDescent(path)
    ensures Total(j, path, NumberLocations(j)) == MeterSum(j, path)
  {
    forall l | l in NumberLocations(j)
      ensures Weight(j, path)(l) == if l in AddressedNumbers(j, path) then ValueOf(j)(l) else 0.0
    {
      WaysAreAddresses(path, l);
      if EndsInDescent(path) {
        DescentAtEndAddressesNothing(path, l);
      } else {
        OneDescentOneWay(path, l);
      }
      assert Times(1, Value(j, l)) == Value(j, l);
    }
    SumSupport(NumberLocations(j), AddressedNumbers(j, path), Weight(j, path), ValueOf(j));
  }

  // ------------------------------------------------ one meter, several rules

  ghost function MeterSums(j: Json, paths: seq<Path>): real {
    if paths == [] then 0.0 else MeterSums(j, paths[..|paths| - 1]) + MeterSum(j, paths[|paths| - 1])
  }

  /** A meter fed by several rules' paths, as `ExtractMeters` totals it: exact when
      each path is one that the walker meters exactly. */
  method ExtractMeter(j: Json, paths: seq<Path>) returns (sum: real, found: bool)
    ensures (forall p | p in paths :: Descents(p) <= 1 || EndsInDescent(p)) ==> sum == MeterSums(j, paths)
    ensures found <==> exists p | p in paths :: AddressedNumbers(j, p) != {}
  {
    sum, found := 0.0, false;
    for n := 0 to |paths|
      invariant (forall p | p in paths :: Descents(p) <= 1 || EndsInDescent(p)) ==> sum == MeterSums(j, paths[..n])
      invariant found <==> exists p | p in paths[..n] :: AddressedNumbers(j, p) != {}
    {
      sum, found := SumNumeric(j, paths[n], sum, found);
      assert paths[n] in paths && paths[..n + 1] == paths[..n] + [paths[n]];
      assert paths[..n + 1][..n] == paths[..n];
      if Descents(paths[n]) <= 1 || EndsInDescent(paths[n]) {
        AtMostOnceIsExact(j, paths[n]);
      }
    }
    assert paths[..|paths|] == paths;
  }
}
