/** labgob's capitalisation check: a depth-first walk over a possibly cyclic type graph. */
module LabGob {
  type Type = nat

  datatype Field = Field(name: string, fieldType: Type)

  /** Slices, arrays and Ptr types have an element; every other kind is a leaf. */
  datatype Kind = Struct(fields: seq<Field>) | Holder(elem: Type) | MapOf(elem: Type, key: Type) | Leaf

  type Types = map<Type, Kind>
  type IsUpper = char -> bool

  function Children(k: Kind): set<Type> {
    match k
    case Struct(fields) => set i | 0 <= i < |fields| :: fields[i].fieldType
    case Holder(e) => {e}
    case MapOf(e, k) => {e, k}
    case Leaf => {}
  }

  predicate FieldsIn(fields: seq<Field>, into: set<Type>) {
    forall i :: 0 <= i < |fields| ==> fields[i].fieldType in into
  }

  lemma FieldsAreChildren(fields: seq<Field>, into: set<Type>)
    ensures FieldsIn(fields, into) <==> Children(Struct(fields)) <= into
  {
    if Children(Struct(fields)) <= into {
      forall i | 0 <= i < |fields| ensures fields[i].fieldType in into {
        assert fields[i].fieldType in Children(Struct(fields));
      }
    }
  }

  /** Every part of type `t` is in `into`: a struct's field types, an element, a map's element and key. */
  predicate ClosedAt(types: Types, t: Type, into: set<Type>) {
    t in types ==>
      match types[t]
      case Struct(fields) => FieldsIn(fields, into)
      case Holder(elem) => elem in into
      case MapOf(elem, key) => elem in into && key in into
      case Leaf => true
  }

  lemma ClosedIsChildren(types: Types, t: Type, into: set<Type>)
    requires t in types
    ensures ClosedAt(types, t, into) <==> Children(types[t]) <= into
  {
    if types[t].Struct? { FieldsAreChildren(types[t].fields, into); }
  }

  ghost predicate ClosedUnder(types: Types, part: set<Type>, into: set<Type>) {
    forall t {:trigger ClosedAt(types, t, into)} :: t in part ==> ClosedAt(types, t, into)
  }

  /** Every part of a type is a type. */
  ghost predicate Complete(types: Types) {
    ClosedUnder(types, types.Keys, types.Keys)
  }

  // ----- reachability -----

  ghost predicate IsPath(types: Types, path: seq<Type>) {
    && 0 < |path|
    && (forall i :: 0 <= i < |path| ==> path[i] in types)
    && (forall i: nat :: i + 1 < |path| ==> Hop(types, path, i))
  }

  predicate Hop(types: Types, path: seq<Type>, i: nat)
    requires i + 1 < |path|
  {
    path[i] in types && path[i + 1] in Children(types[path[i]])
  }

  ghost predicate Joins(types: Types, path: seq<Type>, t: Type, u: Type) {
    IsPath(types, path) && path[0] == t && path[|path| - 1] == u
  }

  ghost predicate Reaches(types: Types, t: Type, u: Type) {
    exists path :: Joins(types, path, t, u)
  }

  ghost predicate FromRoots(types: Types, roots: set<Type>, u: Type) {
    exists r :: r in roots && Reaches(types, r, u)
  }

  ghost function Reachable(types: Types, roots: set<Type>): set<Type> {
    set u | u in types && FromRoots(types, roots, u)
  }

  lemma ReachesSelf(types: Types, t: Type)
    requires t in types
    ensures Reaches(types, t, t)
  {
    assert Joins(types, [t], t, t);
  }

  lemma ReachesThrough(types: Types, t: Type, child: Type, u: Type)
    requires t in types && child in Children(types[t]) && Reaches(types, child, u)
    ensures Reaches(types, t, u)
  {
    var path :| Joins(types, path, child, u);
    var longer := [t] + path;
    forall i: nat | i + 1 < |longer| ensures Hop(types, longer, i) {
      if i > 0 { assert Hop(types, path, i - 1); }
    }
    assert Joins(types, longer, t, u);
  }

  lemma {:induction false} ClosedHoldsPath(types: Types, part: set<Type>, path: seq<Type>, i: nat)
    requires IsPath(types, path) && path[0] in part && ClosedUnder(types, part, part) && i < |path|
    ensures path[i] in part
  {
    if i > 0 {
      ClosedHoldsPath(types, part, path, i - 1);
      assert Hop(types, path, i - 1) && ClosedAt(types, path[i - 1], part);
      ClosedIsChildren(types, path[i - 1], part);
    }
  }

  lemma ClosedHoldsReached(types: Types, roots: set<Type>, part: set<Type>, u: Type)
    requires roots <= part && ClosedUnder(types, part, part) && FromRoots(types, roots, u)
    ensures u in part
  {
    var r :| r in roots && Reaches(types, r, u);
    var path :| Joins(types, path, r, u);
    ClosedHoldsPath(types, part, path, |path| - 1);
  }

  /** A closed set of types reachable from the roots, holding the roots, is all that is reachable. */
  lemma ClosedIsReachable(types: Types, roots: set<Type>, part: set<Type>)
    requires roots <= part <= types.Keys && ClosedUnder(types, part, part)
    requires forall u :: u in part ==> FromRoots(types, roots, u)
    ensures part == Reachable(types, roots)
  {
    forall u | u in Reachable(types, roots) ensures u in part {
      ClosedHoldsReached(types, roots, part, u);
    }
  }

  // ----- counting lower-case fields -----

  predicate IsLower(upper: IsUpper, name: string) {
    name == "" || !upper(name[0])
  }

  function LowerFields(upper: IsUpper, fields: seq<Field>): nat {
    if fields == [] then 0
    else LowerFields(upper, fields[..|fields| - 1]) + (if IsLower(upper, fields[|fields| - 1].name) then 1 else 0)
  }

  function Faults(upper: IsUpper, k: Kind): nat {
    if k.Struct? then LowerFields(upper, k.fields) else 0
  }

  /** The lower-case fields of a set of types, each type counted once. */
  ghost function Errors(types: Types, upper: IsUpper, part: set<Type>): nat
    requires part <= types.Keys
  {
    if part == {} then 0 else
      var t :| t in part;
      Faults(upper, types[t]) + Errors(types, upper, part - {t})
  }

  lemma {:induction false} ErrorsWithout(types: Types, upper: IsUpper, part: set<Type>, t: Type)
    requires part <= types.Keys && t in part
    ensures Errors(types, upper, part) == Faults(upper, types[t]) + Errors(types, upper, part - {t})
    decreases part
  {
    var u :| u in part && Errors(types, upper, part) == Faults(upper, types[u]) + Errors(types, upper, part - {u});
    if u != t {
      ErrorsWithout(types, upper, part - {u}, t);
      ErrorsWithout(types, upper, part - {t}, u);
      assert part - {u} - {t} == part - {t} - {u};
    }
  }

  lemma {:induction false} ErrorsUnion(types: Types, upper: IsUpper, a: set<Type>, b: set<Type>)
    requires a <= types.Keys && b <= types.Keys && a !! b
    ensures Errors(types, upper, a + b) == Errors(types, upper, a) + Errors(types, upper, b)
    decreases a
  {
    if a == {} {
      assert a + b == b;
    } else {
      var t :| t in a;
      ErrorsWithout(types, upper, a, t);
      ErrorsWithout(types, upper, a + b, t);
      assert a + b - {t} == (a - {t}) + b;
      ErrorsUnion(types, upper, a - {t}, b);
    }
  }

  /** The name of field `i` is empty or does not start with an upper-case character. */
  predicate LowerAt(upper: IsUpper, fields: seq<Field>, i: nat) {
    i < |fields| && (fields[i].name == "" || !upper(fields[i].name[0]))
  }

  predicate SpotAt(types: Types, upper: IsUpper, t: Type, i: nat) {
    t in types && types[t].Struct? && LowerAt(upper, types[t].fields, i)
  }

  /** Where the lower-case fields of a set of types are: a type and the position of a field. */
  ghost function Spots(types: Types, upper: IsUpper, part: set<Type>): set<(Type, nat)> {
    set t, i: nat | t in part && t in types && types[t].Struct? && i < |types[t].fields| && SpotAt(types, upper, t, i) :: (t, i)
  }

  ghost function SpotsIn(upper: IsUpper, t: Type, fields: seq<Field>): set<(Type, nat)> {
    set i: nat | i < |fields| && LowerAt(upper, fields, i) :: (t, i)
  }

  lemma LastField(upper: IsUpper, t: Type, fields: seq<Field>)
    requires fields != []
    ensures
      var n := |fields| - 1;
      var before := SpotsIn(upper, t, fields[..n]);
      SpotsIn(upper, t, fields) == (if IsLower(upper, fields[n].name) then before + {(t, n)} else before) && (t, n) !in before
  {
    var n := |fields| - 1;
    var front := fields[..n];
    forall i: nat | i < n ensures LowerAt(upper, front, i) <==> LowerAt(upper, fields, i) {
      assert front[i] == fields[i];
    }
    assert LowerAt(upper, fields, n) <==> IsLower(upper, fields[n].name);
  }

  lemma {:induction false} FieldsSpotted(upper: IsUpper, t: Type, fields: seq<Field>)
    ensures |SpotsIn(upper, t, fields)| == LowerFields(upper, fields)
  {
    if fields == [] {
      assert SpotsIn(upper, t, fields) == {};
    } else {
      FieldsSpotted(upper, t, fields[..|fields| - 1]);
      LastField(upper, t, fields);
    }
  }

  /** The places in one type. */
  ghost function SpotsOf(upper: IsUpper, t: Type, k: Kind): set<(Type, nat)> {
    if k.Struct? then SpotsIn(upper, t, k.fields) else {}
  }

  lemma OneType(types: Types, upper: IsUpper, part: set<Type>, t: Type)
    requires part <= types.Keys && t in part
    ensures
      var here, rest := SpotsOf(upper, t, types[t]), Spots(types, upper, part - {t});
      here !! rest && Spots(types, upper, part) == here + rest && |here| == Faults(upper, types[t])
  {
    if types[t].Struct? { FieldsSpotted(upper, t, types[t].fields); }
    var here, rest, all := SpotsOf(upper, t, types[t]), Spots(types, upper, part - {t}), Spots(types, upper, part);
    forall u: Type, i: nat ensures (u, i) in all <==> (u, i) in here || (u, i) in rest {
      assert (u, i) in here <==> u == t && SpotAt(types, upper, u, i);
      assert (u, i) in rest <==> u in part - {t} && SpotAt(types, upper, u, i);
      assert (u, i) in all <==> u in part && SpotAt(types, upper, u, i);
    }
    forall x ensures x in all <==> x in here + rest {
      assert x == (x.0, x.1);
    }
  }

  /** Counting type by type counts every such place once. */
  lemma {:induction false} ErrorsAreSpots(types: Types, upper: IsUpper, part: set<Type>)
    requires part <= types.Keys
    ensures Errors(types, upper, part) == |Spots(types, upper, part)|
    decreases part
  {
    if part == {} {
      assert Spots(types, upper, part) == {};
    } else {
      var t :| t in part;
      ErrorsWithout(types, upper, part, t);
      ErrorsAreSpots(types, upper, part - {t});
      OneType(types, upper, part, t);
    }
  }

  function Passed(values: seq<Type>): set<Type> {
    set t | t in values
  }

  lemma PassedNext(values: seq<Type>, i: nat)
    requires i < |values|
    ensures Passed(values[..i + 1]) == Passed(values[..i]) + {values[i]}
  {
    assert values[..i + 1] == values[..i] + [values[i]];
  }

  // ----- the walk -----

  class Checker {
    const types: Types
    const upper: IsUpper
    var checked: set<Type>
    var errorCount: nat
    /** The types of the values passed to checkValue so far. */
    ghost var roots: set<Type>

    constructor (types: Types, upper: IsUpper)
      ensures this.types == types && this.upper == upper && checked == {} && errorCount == 0 && roots == {}
      ensures Complete(types) ==> Settled(roots, checked, errorCount)
    {
      this.types, this.upper, checked, errorCount := types, upper, {}, 0;
      roots := {};
    }

    /** `added` is what a walk from `t` adds to a set of checked types that already held `before`. */
    ghost predicate Walked(before: set<Type>, t: Type, added: set<Type>, gray: set<Type>) {
      && (forall u :: u in added ==> Reaches(types, t, u))
      && ClosedUnder(types, added - gray, before + added)
    }

    lemma WalkChild(before: set<Type>, t: Type, added: set<Type>, child: Type, more: set<Type>)
      requires t in types && child in Children(types[t])
      requires Walked(before, t, added, {t}) && Walked(before + added, child, more, {})
      ensures Walked(before, t, added + more, {t})
    {
      forall u | u in more ensures Reaches(types, t, u) {
        ReachesThrough(types, t, child, u);
      }
      forall v | v in added + more - {t} ensures ClosedAt(types, v, before + (added + more)) {
        assert v in added - {t} ==> ClosedAt(types, v, before + added);
        assert v in more - {} ==> ClosedAt(types, v, before + added + more);
      }
    }

    /** Part way through the walk from `t`: `before` and `base` are checked and errorCount at its start. */
    ghost predicate Midway(before: set<Type>, t: Type, base: nat, faults: nat)
      reads this
    {
      && t in types && t !in before && before + {t} <= checked <= types.Keys
      && Walked(before, t, checked - before, {t})
      && errorCount == base + faults + Errors(types, upper, checked - before - {t})
    }

    method CheckChild(child: Type, ghost before: set<Type>, ghost t: Type, ghost base: nat, ghost faults: nat)
      requires Complete(types) && Midway(before, t, base, faults) && child in Children(types[t])
      modifies this`checked, this`errorCount
      ensures Midway(before, t, base, faults) && old(checked) <= checked && child in checked
      decreases types.Keys - checked, 2
    {
      ghost var added := checked - before;
      assert ClosedAt(types, t, types.Keys);
      CheckType(child);
      ghost var more := checked - old(checked);
      assert checked - before == added + more && before + added == old(checked);
      WalkChild(before, t, added, child, more);
      assert checked - before - {t} == (added - {t}) + more;
      ErrorsUnion(types, upper, added - {t}, more);
    }

    method CheckFields(fields: seq<Field>, ghost before: set<Type>, ghost t: Type, ghost base: nat)
      requires Complete(types) && Midway(before, t, base, 0) && types[t] == Struct(fields)
      modifies this`checked, this`errorCount
      ensures Midway(before, t, base, LowerFields(upper, fields)) && Children(types[t]) <= checked && old(checked) <= checked
      decreases types.Keys - checked, 3
    {
      for i := 0 to |fields|
        invariant Midway(before, t, base, LowerFields(upper, fields[..i])) && old(checked) <= checked
        invariant FieldsIn(fields[..i], checked)
      {
        assert fields[..i + 1][..i] == fields[..i];
        if IsLower(upper, fields[i].name) {
          errorCount := errorCount + 1;
        }
        CheckChild(fields[i].fieldType, before, t, base, LowerFields(upper, fields[..i + 1]));
      }
      assert fields[..|fields|] == fields;
      FieldsAreChildren(fields, checked);
    }

    method CheckType(t: Type)
      requires Complete(types) && t in types && checked <= types.Keys
      modifies this`checked, this`errorCount
      ensures old(checked) <= checked <= types.Keys && t in checked
      ensures Walked(old(checked), t, checked - old(checked), {})
      ensures errorCount == old(errorCount) + Errors(types, upper, checked - old(checked))
      decreases types.Keys - checked, 1
    {
      if t in checked {
        return;
      }
      checked := checked + {t};
      ReachesSelf(types, t);
      ghost var before, base := old(checked), errorCount;
      assert checked - before == {t} && checked - before - {t} == {};
      match types[t] {
        case Struct(fields) => CheckFields(fields, before, t, base);
        case Holder(elem) => CheckChild(elem, before, t, base, 0);
        case MapOf(elem, key) =>
          CheckChild(elem, before, t, base, 0);
          CheckChild(key, before, t, base, 0);
        case Leaf =>
      }
      ErrorsWithout(types, upper, checked - before, t);
    }

    /** What every sequence of top-level calls keeps: the outcome is a function of the set of types passed. */
    ghost predicate Settled(roots: set<Type>, checked: set<Type>, errorCount: nat) {
      && Complete(types) && roots <= checked <= types.Keys
      && checked == Reachable(types, roots)
      && ClosedUnder(types, checked, checked)
      && errorCount == Errors(types, upper, checked)
    }

    /** In other words: `checked` is the least set that holds the types passed and, with a type, all its parts. */
    ghost predicate LeastClosed(roots: set<Type>, checked: set<Type>) {
      && roots <= checked && ClosedUnder(types, checked, checked)
      && forall part :: roots <= part && ClosedUnder(types, part, part) ==> checked <= part
    }

    lemma SettledMeans(roots: set<Type>, checked: set<Type>, errorCount: nat)
      requires Settled(roots, checked, errorCount)
      ensures LeastClosed(roots, checked) && errorCount == |Spots(types, upper, checked)|
    {
      forall part | roots <= part && ClosedUnder(types, part, part) ensures checked <= part {
        forall u | u in checked ensures u in part {
          ClosedHoldsReached(types, roots, part, u);
        }
      }
      ErrorsAreSpots(types, upper, checked);
    }

    lemma WalkReached(roots: set<Type>, before: set<Type>, t: Type, added: set<Type>, u: Type)
      requires u in before ==> FromRoots(types, roots, u)
      requires u in before + added && Walked(before, t, added, {})
      ensures FromRoots(types, roots + {t}, u)
    {
      if u in before {
        var r :| r in roots && Reaches(types, r, u);
        assert r in roots + {t};
      } else {
        assert t in roots + {t} && Reaches(types, t, u);
      }
    }

    lemma WalkCloses(before: set<Type>, t: Type, added: set<Type>)
      requires ClosedUnder(types, before, before) && Walked(before, t, added, {})
      ensures ClosedUnder(types, before + added, before + added)
    {
      forall v | v in before + added ensures ClosedAt(types, v, before + added) {
        assert v in before ==> ClosedAt(types, v, before);
        assert v in added - {} ==> ClosedAt(types, v, before + added);
      }
    }

    lemma WalkSettles(roots: set<Type>, before: set<Type>, t: Type, after: set<Type>, count: nat)
      requires Settled(roots, before, count) && before <= after <= types.Keys && t in after
      requires Walked(before, t, after - before, {})
      ensures Settled(roots + {t}, after, count + Errors(types, upper, after - before))
    {
      var added := after - before;
      assert after == before + added;
      ErrorsUnion(types, upper, before, added);
      WalkCloses(before, t, added);
      forall u | u in after ensures FromRoots(types, roots + {t}, u) {
        WalkReached(roots, before, t, added, u);
      }
      ClosedIsReachable(types, roots + {t}, after);
    }

    /** The walk from a type passed, and what it settles. */
    method CheckRoot(t: Type)
      requires Settled(roots, checked, errorCount) && t in types
      modifies this
      ensures roots == old(roots) + {t} && Settled(roots, checked, errorCount)
    {
      CheckType(t);
      WalkSettles(roots, old(checked), t, checked, old(errorCount));
      roots := roots + {t};
    }

    method CheckValue(t: Type)
      requires Settled(roots, checked, errorCount) && t in types
      modifies this
      ensures roots == old(roots) + {t} && Settled(roots, checked, errorCount)
      ensures LeastClosed(roots, checked) && errorCount == |Spots(types, upper, checked)|
    {
      CheckRoot(t);
      SettledMeans(roots, checked, errorCount);
    }

    /** Any sequence of values, in any order and with any repeats, leaves the same state. */
    method CheckAll(values: seq<Type>)
      requires Settled(roots, checked, errorCount) && forall i :: 0 <= i < |values| ==> values[i] in types
      modifies this
      ensures roots == old(roots) + Passed(values) && Settled(roots, checked, errorCount)
      ensures LeastClosed(roots, checked) && errorCount == |Spots(types, upper, checked)|
    {
      for i := 0 to |values|
        invariant roots == old(roots) + Passed(values[..i])
        invariant Settled(roots, checked, errorCount)
      {
        PassedNext(values, i);
        CheckValue(values[i]);
      }
      assert values[..|values|] == values;
      SettledMeans(roots, checked, errorCount);
    }
  }
}
