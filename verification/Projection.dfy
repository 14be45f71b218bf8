/** `_projection_mismatch_paths` of app/application/planning_boundary_service.py: where two JSON trees differ, and the
    acceptance test built on it. */
module Projection {
  import opened Prelude
  import Lex = Lexicographic

  datatype Json =
    | Null
    | Bool(truth: bool)
    | Num(n: int)
    | Text(s: string)
    | List(items: seq<Json>)
    | Object(fields: map<string, Json>)

  datatype Step = Key(key: string) | Index(index: nat)

  type Path = seq<Step>

  /** Python's `==` on numbers and truth values: True is 1 and False is 0. */
  predicate ScalarEqual(a: Json, b: Json) {
    match (a, b)
    case (Bool(x), Num(n)) => n == (if x then 1 else 0)
    case (Num(n), Bool(x)) => n == (if x then 1 else 0)
    case (List(_), _) => false
    case (Object(_), _) => false
    case _ => a == b
  }

  /** Python's `==` on whole trees. */
  ghost predicate Equal(a: Json, b: Json)
    decreases a
  {
    if a.Object? && b.Object? then
      a.fields.Keys == b.fields.Keys && forall k :: k in a.fields && k in b.fields ==> Equal(a.fields[k], b.fields[k])
    else if a.List? && b.List? then
      |a.items| == |b.items| && forall i :: 0 <= i < |a.items| && i < |b.items| ==> Equal(a.items[i], b.items[i])
    else ScalarEqual(a, b)
  }

  function Under(step: Step, paths: seq<Path>): (r: seq<Path>)
    ensures |r| == |paths| && forall i :: 0 <= i < |paths| ==> r[i] == [step] + paths[i]
  {
    seq(|paths|, i requires 0 <= i < |paths| => [step] + paths[i])
  }

  function Larger(a: nat, b: nat): nat { if a < b then b else a }

  function Mismatches(expected: Json, actual: Json): seq<Path>
    decreases expected, 1, 0
  {
    if expected.Object? && actual.Object? then
      FieldMismatches(expected, actual, Lex.Sorted(expected.fields.Keys + actual.fields.Keys))
    else if expected.List? && actual.List? then
      ItemMismatches(expected, actual, Larger(|expected.items|, |actual.items|))
    else if ScalarEqual(expected, actual) then []
    else [[]]
  }

  function FieldMismatches(expected: Json, actual: Json, keys: seq<string>): seq<Path>
    requires expected.Object? && actual.Object?
    decreases expected, 0, |keys|
  {
    if keys == [] then []
    else
      var last := keys[|keys| - 1];
      FieldMismatches(expected, actual, keys[..|keys| - 1]) +
      (if last in expected.fields && last in actual.fields
       then Under(Key(last), Mismatches(expected.fields[last], actual.fields[last]))
       else [[Key(last)]])
  }

  /** The mismatches at the first n positions. */
  function ItemMismatches(expected: Json, actual: Json, n: nat): seq<Path>
    requires expected.List? && actual.List?
    decreases expected, 0, n
  {
    if n == 0 then []
    else
      ItemMismatches(expected, actual, n - 1) +
      (if n - 1 < |expected.items| && n - 1 < |actual.items|
       then Under(Index(n - 1), Mismatches(expected.items[n - 1], actual.items[n - 1]))
       else [[Index(n - 1)]])
  }

  /** The recursive comparison, with its two list-building loops. */
  method ProjectionMismatchPaths(expected: Json, actual: Json) returns (paths: seq<Path>)
    ensures paths == Mismatches(expected, actual)
    decreases expected, 1
  {
    if expected.Object? && actual.Object? {
      paths := FieldPaths(expected, actual);
    } else if expected.List? && actual.List? {
      paths := ItemPaths(expected, actual);
    } else if ScalarEqual(expected, actual) {
      paths := [];
    } else {
      paths := [[]];
    }
  }

  method FieldPaths(expected: Json, actual: Json) returns (paths: seq<Path>)
    requires expected.Object? && actual.Object?
    ensures paths == FieldMismatches(expected, actual, Lex.Sorted(expected.fields.Keys + actual.fields.Keys))
    decreases expected, 0
  {
    hide Mismatches, Under, FieldMismatches, Lex.Sorted;
    paths := [];
    var keys := Lex.Sorted(expected.fields.Keys + actual.fields.Keys);
    NoFieldsYet(expected, actual, keys);
    var i := 0;
    while i < |keys|
      invariant 0 <= i <= |keys|
      invariant paths == FieldMismatches(expected, actual, keys[..i])
    {
      var key := keys[i];
      OneMoreField(expected, actual, keys, i);
      if key !in expected.fields || key !in actual.fields {
        paths := paths + [[Key(key)]];
      } else {
        var inner := ProjectionMismatchPaths(expected.fields[key], actual.fields[key]);
        paths := paths + Under(Key(key), inner);
      }
      i := i + 1;
    }
    assert keys[..i] == keys;
  }

  lemma NoFieldsYet(expected: Json, actual: Json, keys: seq<string>)
    requires expected.Object? && actual.Object?
    ensures FieldMismatches(expected, actual, keys[..0]) == []
  {
  }

  lemma OneMoreField(expected: Json, actual: Json, keys: seq<string>, i: nat)
    requires expected.Object? && actual.Object? && i < |keys|
    ensures FieldMismatches(expected, actual, keys[..i + 1]) ==
      FieldMismatches(expected, actual, keys[..i]) +
      (if keys[i] in expected.fields && keys[i] in actual.fields
       then Under(Key(keys[i]), Mismatches(expected.fields[keys[i]], actual.fields[keys[i]]))
       else [[Key(keys[i])]])
  {
    assert keys[..i + 1][..i] == keys[..i];
    hide Mismatches, Under;
  }

  method ItemPaths(expected: Json, actual: Json) returns (paths: seq<Path>)
    requires expected.List? && actual.List?
    ensures paths == ItemMismatches(expected, actual, Larger(|expected.items|, |actual.items|))
    decreases expected, 0
  {
    hide Mismatches, Under;
    paths := [];
    var index := 0;
    while index < Larger(|expected.items|, |actual.items|)
      invariant 0 <= index <= Larger(|expected.items|, |actual.items|)
      invariant paths == ItemMismatches(expected, actual, index)
    {
      if index >= |expected.items| || index >= |actual.items| {
        paths := paths + [[Index(index)]];
      } else {
        var inner := ProjectionMismatchPaths(expected.items[index], actual.items[index]);
        paths := paths + Under(Index(index), inner);
      }
      index := index + 1;
    }
  }

  // ---- Empty exactly when equal ------------------------------------------------------------

  ghost predicate FieldSame(expected: Json, actual: Json, k: string)
    requires expected.Object? && actual.Object?
  {
    k in expected.fields && k in actual.fields && Mismatches(expected.fields[k], actual.fields[k]) == []
  }

  ghost predicate ItemSame(expected: Json, actual: Json, i: nat)
    requires expected.List? && actual.List?
  {
    i < |expected.items| && i < |actual.items| && Mismatches(expected.items[i], actual.items[i]) == []
  }

  lemma {:induction false} FieldsEmptyIff(expected: Json, actual: Json, keys: seq<string>)
    requires expected.Object? && actual.Object?
    ensures FieldMismatches(expected, actual, keys) == [] <==> forall k :: k in keys ==> FieldSame(expected, actual, k)
    decreases |keys|
  {
    hide Mismatches;
    if keys != [] {
      var last, front := keys[|keys| - 1], keys[..|keys| - 1];
      FieldsEmptyIff(expected, actual, front);
      assert keys == front + [last];
      assert forall k :: k in keys <==> k in front || k == last;
      assert FieldMismatches(expected, actual, keys) == [] <==>
        FieldMismatches(expected, actual, front) == [] && FieldSame(expected, actual, last);
      hide FieldSame;
    }
  }

  lemma {:induction false} ItemsEmptyIff(expected: Json, actual: Json, n: nat)
    requires expected.List? && actual.List?
    ensures ItemMismatches(expected, actual, n) == [] <==> forall i: nat :: i < n ==> ItemSame(expected, actual, i)
  {
    hide Mismatches;
    if n > 0 {
      ItemsEmptyIff(expected, actual, n - 1);
      assert ItemMismatches(expected, actual, n) == [] <==>
        ItemMismatches(expected, actual, n - 1) == [] && ItemSame(expected, actual, n - 1);
      hide ItemSame;
    }
  }

  lemma ObjectsEmptyMeans(expected: Json, actual: Json)
    requires expected.Object? && actual.Object?
    ensures Mismatches(expected, actual) == [] <==>
      expected.fields.Keys == actual.fields.Keys && forall k :: k in expected.fields ==> FieldSame(expected, actual, k)
  {
    var keys := Lex.Sorted(expected.fields.Keys + actual.fields.Keys);
    assert Mismatches(expected, actual) == FieldMismatches(expected, actual, keys);
    hide Mismatches, FieldMismatches, Lex.Sorted;
    FieldsEmptyIff(expected, actual, keys);
    assert forall k :: k in keys <==> k in expected.fields || k in actual.fields;
    if forall k :: k in keys ==> FieldSame(expected, actual, k) {
      assert expected.fields.Keys == actual.fields.Keys;
    }
  }

  lemma ObjectsEmptyIff(expected: Json, actual: Json)
    requires expected.Object? && actual.Object?
    requires forall k :: k in expected.fields && k in actual.fields ==>
      (Mismatches(expected.fields[k], actual.fields[k]) == [] <==> Equal(expected.fields[k], actual.fields[k]))
    ensures Mismatches(expected, actual) == [] <==> Equal(expected, actual)
  {
    ObjectsEmptyMeans(expected, actual);
    hide Mismatches;
    if expected.fields.Keys == actual.fields.Keys {
      forall k | k in expected.fields
        ensures FieldSame(expected, actual, k) <==> Equal(expected.fields[k], actual.fields[k])
      {
      }
    }
  }

  lemma ListsEmptyIff(expected: Json, actual: Json)
    requires expected.List? && actual.List?
    requires forall i :: 0 <= i < |expected.items| && i < |actual.items| ==>
      (Mismatches(expected.items[i], actual.items[i]) == [] <==> Equal(expected.items[i], actual.items[i]))
    ensures Mismatches(expected, actual) == [] <==> Equal(expected, actual)
  {
    var n := Larger(|expected.items|, |actual.items|);
    ItemsEmptyIff(expected, actual, n);
    if Mismatches(expected, actual) == [] {
      assert n > 0 ==> ItemSame(expected, actual, n - 1);
      forall i | 0 <= i < |expected.items| && i < |actual.items|
        ensures Equal(expected.items[i], actual.items[i])
      {
        assert ItemSame(expected, actual, i);
      }
    }
  }

  /** No path is returned exactly when the trees are equal. */
  lemma {:induction false} EmptyIffEqual(expected: Json, actual: Json)
    ensures Mismatches(expected, actual) == [] <==> Equal(expected, actual)
    decreases expected
  {
    if expected.Object? && actual.Object? {
      forall k | k in expected.fields && k in actual.fields
        ensures Mismatches(expected.fields[k], actual.fields[k]) == [] <==> Equal(expected.fields[k], actual.fields[k])
      {
        EmptyIffEqual(expected.fields[k], actual.fields[k]);
      }
      ObjectsEmptyIff(expected, actual);
    } else if expected.List? && actual.List? {
      forall i | 0 <= i < |expected.items| && i < |actual.items|
        ensures Mismatches(expected.items[i], actual.items[i]) == [] <==> Equal(expected.items[i], actual.items[i])
      {
        EmptyIffEqual(expected.items[i], actual.items[i]);
      }
      ListsEmptyIff(expected, actual);
    }
  }

  // ---- Every path is a difference ------------------------------------------------------------

  function At(tree: Json, path: Path): Option<Json>
    decreases |path|
  {
    if path == [] then Some(tree)
    else if tree.Object? && path[0].Key? && path[0].key in tree.fields then At(tree.fields[path[0].key], path[1..])
    else if tree.List? && path[0].Index? && path[0].index < |tree.items| then At(tree.items[path[0].index], path[1..])
    else None
  }

  /** Two objects, or two lists: the comparison goes inside. */
  predicate Comparable(e: Json, a: Json) {
    (e.Object? && a.Object?) || (e.List? && a.List?)
  }

  predicate Shared(expected: Json, actual: Json, path: Path) {
    At(expected, path).Some? && At(actual, path).Some? && Comparable(At(expected, path).value, At(actual, path).value)
  }

  /** The trees part at this very path: on the way there both go on, and there only one has a value, or both have values
      that are unequal and not compared any deeper. */
  ghost predicate Differs(expected: Json, actual: Json, path: Path) {
    var e, a := At(expected, path), At(actual, path);
    && (forall n :: 0 <= n < |path| ==> Shared(expected, actual, path[..n]))
    && (e.Some? || a.Some?)
    && (e.Some? && a.Some? ==> !Comparable(e.value, a.value) && !ScalarEqual(e.value, a.value))
  }

  /** Stepping into a field or item that both trees have. */
  lemma DiffersInside(expected: Json, actual: Json, e: Json, a: Json, p: Path)
    requires p != [] && Comparable(expected, actual)
    requires At(expected, p[..1]) == Some(e) && At(actual, p[..1]) == Some(a)
    ensures Differs(expected, actual, p) <==> Differs(e, a, p[1..])
  {
    forall n | 0 < n <= |p|
      ensures At(expected, p[..n]) == At(e, p[1..][..n - 1])
      ensures At(actual, p[..n]) == At(a, p[1..][..n - 1])
    {
      assert p[..n][0] == p[0] && p[..n][1..] == p[1..][..n - 1];
      assert p[..1][0] == p[0] && p[..1][1..] == [];
    }
    assert p[..|p|] == p && p[1..][..|p| - 1] == p[1..];
    assert Shared(expected, actual, p[..0]);
    if Differs(expected, actual, p) {
      forall n | 0 <= n < |p[1..]|
        ensures Shared(e, a, p[1..][..n])
      {
        assert Shared(expected, actual, p[..n + 1]);
      }
    }
    if Differs(e, a, p[1..]) {
      forall n | 0 <= n < |p|
        ensures Shared(expected, actual, p[..n])
      {
        assert n > 0 ==> Shared(e, a, p[1..][..n - 1]);
      }
    }
  }

  /** A step only one of two comparable trees can take. */
  lemma DiffersOutside(expected: Json, actual: Json, p: Path)
    requires p != [] && Comparable(expected, actual)
    requires At(expected, p[..1]).None? || At(actual, p[..1]).None?
    ensures Differs(expected, actual, p) <==> |p| == 1 && (At(expected, p).Some? || At(actual, p).Some?)
  {
    assert p[..0] == [];
    if |p| == 1 {
      assert p[..1] == p;
    } else {
      assert !Shared(expected, actual, p[..1]);
    }
  }

  lemma {:induction false} FieldPath(expected: Json, actual: Json, keys: seq<string>, p: Path)
    requires expected.Object? && actual.Object? && p in FieldMismatches(expected, actual, keys)
    ensures p != [] && p[0].Key? && p[0].key in keys
    ensures p[0].key in expected.fields && p[0].key in actual.fields ==>
      p[1..] in Mismatches(expected.fields[p[0].key], actual.fields[p[0].key])
    ensures !(p[0].key in expected.fields && p[0].key in actual.fields) ==> p == [p[0]]
    decreases |keys|
  {
    var last, front := keys[|keys| - 1], keys[..|keys| - 1];
    if p in FieldMismatches(expected, actual, front) {
      FieldPath(expected, actual, front, p);
    } else if last in expected.fields && last in actual.fields {
      var inner := Mismatches(expected.fields[last], actual.fields[last]);
      var i :| 0 <= i < |inner| && p == [Key(last)] + inner[i];
      assert p[1..] == inner[i];
    }
  }

  lemma {:induction false} ItemPath(expected: Json, actual: Json, n: nat, p: Path)
    requires expected.List? && actual.List? && p in ItemMismatches(expected, actual, n)
    ensures p != [] && p[0].Index? && p[0].index < n
    ensures p[0].index < |expected.items| && p[0].index < |actual.items| ==>
      p[1..] in Mismatches(expected.items[p[0].index], actual.items[p[0].index])
    ensures !(p[0].index < |expected.items| && p[0].index < |actual.items|) ==> p == [p[0]]
  {
    if p in ItemMismatches(expected, actual, n - 1) {
      ItemPath(expected, actual, n - 1, p);
    } else if n - 1 < |expected.items| && n - 1 < |actual.items| {
      var inner := Mismatches(expected.items[n - 1], actual.items[n - 1]);
      var i :| 0 <= i < |inner| && p == [Index(n - 1)] + inner[i];
      assert p[1..] == inner[i];
    }
  }

  lemma OneStep(tree: Json, p: Path)
    requires p != []
    ensures tree.Object? && p[0].Key? ==>
      At(tree, p[..1]) == if p[0].key in tree.fields then Some(tree.fields[p[0].key]) else None
    ensures tree.List? && p[0].Index? ==>
      At(tree, p[..1]) == if p[0].index < |tree.items| then Some(tree.items[p[0].index]) else None
    ensures tree.Object? && p[0].Index? ==> At(tree, p[..1]) == None
    ensures tree.List? && p[0].Key? ==> At(tree, p[..1]) == None
  {
    assert p[..1][0] == p[0] && p[..1][1..] == [];
  }

  /** Every returned path is a real difference. */
  lemma {:induction false} PathsDiffer(expected: Json, actual: Json, p: Path)
    requires p in Mismatches(expected, actual)
    ensures Differs(expected, actual, p)
    decreases expected
  {
    hide Differs, At;
    if expected.Object? && actual.Object? {
      var keys := Lex.Sorted(expected.fields.Keys + actual.fields.Keys);
      FieldPath(expected, actual, keys, p);
      OneStep(expected, p);
      OneStep(actual, p);
      var k := p[0].key;
      if k in expected.fields && k in actual.fields {
        PathsDiffer(expected.fields[k], actual.fields[k], p[1..]);
        DiffersInside(expected, actual, expected.fields[k], actual.fields[k], p);
      } else {
        assert k in expected.fields || k in actual.fields;
        assert p[..1] == p;
        DiffersOutside(expected, actual, p);
      }
    } else if expected.List? && actual.List? {
      ItemPath(expected, actual, Larger(|expected.items|, |actual.items|), p);
      OneStep(expected, p);
      OneStep(actual, p);
      var i := p[0].index;
      if i < |expected.items| && i < |actual.items| {
        PathsDiffer(expected.items[i], actual.items[i], p[1..]);
        DiffersInside(expected, actual, expected.items[i], actual.items[i], p);
      } else {
        assert p[..1] == p;
        DiffersOutside(expected, actual, p);
      }
    } else {
      assert p == [];
      RootDiffers(expected, actual);
    }
  }

  lemma RootDiffers(expected: Json, actual: Json)
    ensures Differs(expected, actual, []) <==> !Comparable(expected, actual) && !ScalarEqual(expected, actual)
  {
  }

  // ---- Every difference has its path -----------------------------------------------------------

  lemma {:induction false} FieldListed(expected: Json, actual: Json, keys: seq<string>, k: string, q: Path)
    requires expected.Object? && actual.Object? && k in keys
    requires if k in expected.fields && k in actual.fields then q in Mismatches(expected.fields[k], actual.fields[k]) else q == []
    ensures [Key(k)] + q in FieldMismatches(expected, actual, keys)
    decreases |keys|
  {
    hide Mismatches;
    var last, front := keys[|keys| - 1], keys[..|keys| - 1];
    if k == last {
      if k in expected.fields && k in actual.fields {
        var inner := Mismatches(expected.fields[k], actual.fields[k]);
        var i :| 0 <= i < |inner| && inner[i] == q;
        assert Under(Key(k), inner)[i] == [Key(k)] + q;
      } else {
        assert [Key(k)] + q == [Key(k)];
      }
    } else {
      FieldListed(expected, actual, front, k, q);
    }
  }

  lemma {:induction false} ItemListed(expected: Json, actual: Json, n: nat, i: nat, q: Path)
    requires expected.List? && actual.List? && i < n
    requires if i < |expected.items| && i < |actual.items| then q in Mismatches(expected.items[i], actual.items[i]) else q == []
    ensures [Index(i)] + q in ItemMismatches(expected, actual, n)
  {
    hide Mismatches;
    if i == n - 1 {
      if i < |expected.items| && i < |actual.items| {
        var inner := Mismatches(expected.items[i], actual.items[i]);
        var j :| 0 <= j < |inner| && inner[j] == q;
        assert Under(Index(i), inner)[j] == [Index(i)] + q;
      } else {
        assert [Index(i)] + q == [Index(i)];
      }
    } else {
      ItemListed(expected, actual, n - 1, i, q);
    }
  }

  lemma ComparableRoot(expected: Json, actual: Json, p: Path)
    requires p != [] && Differs(expected, actual, p)
    ensures Comparable(expected, actual)
    ensures At(expected, p).Some? || At(actual, p).Some?
  {
    assert Shared(expected, actual, p[..0]);
    assert p[..0] == [];
  }

  /** Every difference is returned: together with the last lemma, the paths are exactly the differences. */
  lemma {:induction false} DifferencesListed(expected: Json, actual: Json, p: Path)
    requires Differs(expected, actual, p)
    ensures p in Mismatches(expected, actual)
    decreases expected
  {
    hide Differs;
    if p == [] {
      RootDiffers(expected, actual);
    } else {
      assert p == [p[0]] + p[1..];
      ComparableRoot(expected, actual, p);
      OneStep(expected, p);
      OneStep(actual, p);
      if expected.Object? {
        var k := p[0].key;
        if k in expected.fields && k in actual.fields {
          DiffersInside(expected, actual, expected.fields[k], actual.fields[k], p);
          DifferencesListed(expected.fields[k], actual.fields[k], p[1..]);
        } else {
          DiffersOutside(expected, actual, p);
        }
        FieldListed(expected, actual, Lex.Sorted(expected.fields.Keys + actual.fields.Keys), k, p[1..]);
      } else {
        var i := p[0].index;
        if i < |expected.items| && i < |actual.items| {
          DiffersInside(expected, actual, expected.items[i], actual.items[i], p);
          DifferencesListed(expected.items[i], actual.items[i], p[1..]);
        } else {
          DiffersOutside(expected, actual, p);
        }
        ItemListed(expected, actual, Larger(|expected.items|, |actual.items|), i, p[1..]);
      }
    }
  }

  // ---- The acceptance test -----------------------------------------------------------------

  const CITY := "cityName"

  datatype PermitRevision = PermitRevision(trip: nat, number: nat)

  /** What a readiness permit carries: whether the flow is the collaboration, its trip, and its revision. */
  datatype Permit = Permit(collaboration: bool, trip: nat, currentRevision: nat, revision: Option<PermitRevision>)

  /** The workflow's answer on the exact confirmed trip: it is the request's, it is not, or the question failed. */
  datatype Workflow = Vouches | Denies | Fails

  datatype Refusal = SnapshotMismatch(fields: seq<Path>) | WorkflowFailed

  const TRIP_ID := [Key("trip"), Key("tripId")]

  predicate PermitFits(permit: Permit, requestTrip: nat) {
    && permit.collaboration
    && permit.revision.Some?
    && permit.revision.value.trip == permit.trip
    && permit.currentRevision == permit.revision.value.number
    && requestTrip == permit.trip
  }

  function OtherThanCity(paths: seq<Path>): (others: seq<Path>)
    ensures forall p :: p in others <==> p in paths && p != [Key(CITY)]
  {
    if paths == [] then []
    else
      assert paths == [paths[0]] + paths[1..];
      (if paths[0] == [Key(CITY)] then [] else [paths[0]]) + OtherThanCity(paths[1..])
  }

  /** `_require_collaboration_request_matches_revision`, given the two projections. The provider-derived city may differ
      if the exact confirmed trip vouches for the request; the workflow is asked in no other case. */
  function RefusalOf(permit: Permit, requestTrip: nat, expected: Json, actual: Json, workflow: Workflow): Option<Refusal> {
    if !PermitFits(permit, requestTrip) then Some(SnapshotMismatch([TRIP_ID]))
    else
      var paths := Mismatches(expected, actual);
      if OtherThanCity(paths) != [] then Some(SnapshotMismatch(OtherThanCity(paths)))
      else if paths == [] || workflow.Vouches? then None
      else if workflow.Denies? then Some(SnapshotMismatch(paths))
      else Some(WorkflowFailed)
  }

  function WithoutCity(tree: Json): Json
    requires tree.Object?
  {
    Object(tree.fields - {CITY})
  }

  lemma SameElsewhere(tree: Json, p: Path)
    requires tree.Object? && p != []
    ensures At(WithoutCity(tree), p) == if p[0] == Key(CITY) then None else At(tree, p)
  {
  }

  /** Away from the city the trees differ exactly where the trees without it do. */
  lemma DiffersElsewhere(expected: Json, actual: Json, p: Path)
    requires expected.Object? && actual.Object? && p != []
    ensures p[0] != Key(CITY) ==>
      (Differs(WithoutCity(expected), WithoutCity(actual), p) <==> Differs(expected, actual, p))
    ensures p[0] == Key(CITY) ==> !Differs(WithoutCity(expected), WithoutCity(actual), p)
  {
    var e, a := WithoutCity(expected), WithoutCity(actual);
    SameElsewhere(expected, p);
    SameElsewhere(actual, p);
    if p[0] != Key(CITY) {
      forall n | 0 <= n < |p|
        ensures Shared(e, a, p[..n]) <==> Shared(expected, actual, p[..n])
      {
        if n > 0 {
          SameElsewhere(expected, p[..n]);
          SameElsewhere(actual, p[..n]);
        }
      }
    }
  }

  /** A difference at the city itself goes no deeper when the city is no container. */
  lemma CityIsLeaf(expected: Json, actual: Json, p: Path)
    requires expected.Object? && actual.Object? && CITY in expected.fields && CITY in actual.fields
    requires !Comparable(expected.fields[CITY], actual.fields[CITY])
    requires p != [] && p[0] == Key(CITY)
    ensures Differs(expected, actual, p) <==> p == [Key(CITY)] && !ScalarEqual(expected.fields[CITY], actual.fields[CITY])
  {
    OneStep(expected, p);
    OneStep(actual, p);
    DiffersInside(expected, actual, expected.fields[CITY], actual.fields[CITY], p);
    assert p == [p[0]] + p[1..];
    if p[1..] == [] {
      RootDiffers(expected.fields[CITY], actual.fields[CITY]);
    } else {
      NotComparableNotDeep(expected.fields[CITY], actual.fields[CITY], p[1..]);
    }
  }

  lemma NotComparableNotDeep(e: Json, a: Json, p: Path)
    requires p != [] && !Comparable(e, a)
    ensures !Differs(e, a, p)
  {
    assert p[..0] == [];
    assert !Shared(e, a, p[..0]);
  }

  /** The paths are all the city exactly when the trees without it are equal. */
  lemma OnlyCityIff(expected: Json, actual: Json)
    requires expected.Object? && actual.Object? && CITY in expected.fields && CITY in actual.fields
    requires !Comparable(expected.fields[CITY], actual.fields[CITY])
    ensures (forall p :: p in Mismatches(expected, actual) ==> p == [Key(CITY)]) <==>
      Mismatches(WithoutCity(expected), WithoutCity(actual)) == []
  {
    var e, a := WithoutCity(expected), WithoutCity(actual);
    assert Comparable(expected, actual) && Comparable(e, a);
    RootDiffers(expected, actual);
    RootDiffers(e, a);
    hide Mismatches, Differs, WithoutCity, Comparable;
    forall p: Path | p in Mismatches(expected, actual)
      ensures p == [Key(CITY)] || p in Mismatches(e, a)
    {
      PathsDiffer(expected, actual, p);
      DiffersElsewhere(expected, actual, p);
      if p[0] == Key(CITY) {
        CityIsLeaf(expected, actual, p);
      } else {
        DifferencesListed(e, a, p);
      }
    }
    if Mismatches(e, a) != [] {
      var p := Mismatches(e, a)[0];
      PathsDiffer(e, a, p);
      DiffersElsewhere(expected, actual, p);
      DifferencesListed(expected, actual, p);
      assert p[0] != Key(CITY) && p in Mismatches(expected, actual);
      assert [Key(CITY)][0] == Key(CITY);
    }
  }

  /** A request is accepted exactly when the permit is the collaboration's for that trip and for its own revision, the
      projection of the request equals the revision's on every field but the city name, and on the city name too unless
      the confirmed trip vouches for it. A refusal for the fields names real differences only. */
  lemma AcceptedIff(permit: Permit, requestTrip: nat, expected: Json, actual: Json, workflow: Workflow)
    requires expected.Object? && actual.Object? && CITY in expected.fields && CITY in actual.fields
    requires !Comparable(expected.fields[CITY], actual.fields[CITY])
    ensures var refusal := RefusalOf(permit, requestTrip, expected, actual, workflow);
      && (refusal.None? <==>
            && permit.collaboration && permit.revision.Some? && permit.revision.value.trip == permit.trip
            && permit.revision.value.number == permit.currentRevision && requestTrip == permit.trip
            && Equal(WithoutCity(expected), WithoutCity(actual))
            && (Equal(expected.fields[CITY], actual.fields[CITY]) || workflow.Vouches?))
      && (PermitFits(permit, requestTrip) && refusal.Some? && refusal.value.SnapshotMismatch? ==>
            forall p :: p in refusal.value.fields ==> Differs(expected, actual, p))
  {
    hide Mismatches, Equal, WithoutCity, Comparable, Differs;
    var paths := Mismatches(expected, actual);
    EmptyIffEqual(expected, actual);
    EmptyIffEqual(WithoutCity(expected), WithoutCity(actual));
    OnlyCityIff(expected, actual);
    EqualParts(expected, actual);
    forall p | p in paths
      ensures Differs(expected, actual, p)
    {
      PathsDiffer(expected, actual, p);
    }
    assert OtherThanCity(paths) == [] <==> forall p :: p in paths ==> p == [Key(CITY)] by {
      if OtherThanCity(paths) != [] {
        assert OtherThanCity(paths)[0] in OtherThanCity(paths);
      }
    }
  }

  lemma EqualParts(expected: Json, actual: Json)
    requires expected.Object? && actual.Object? && CITY in expected.fields && CITY in actual.fields
    ensures Equal(expected, actual) <==>
      Equal(WithoutCity(expected), WithoutCity(actual)) && Equal(expected.fields[CITY], actual.fields[CITY])
  {
    var e, a := WithoutCity(expected), WithoutCity(actual);
    assert expected.fields.Keys == e.fields.Keys + {CITY} && actual.fields.Keys == a.fields.Keys + {CITY};
    assert forall k :: k in e.fields && k in a.fields ==> e.fields[k] == expected.fields[k] && a.fields[k] == actual.fields[k];
    if Equal(expected, actual) {
      assert forall k :: k in e.fields && k in a.fields ==> Equal(e.fields[k], a.fields[k]);
    }
  }

  /** The number a scalar counts as, if it counts as one: true is one, false is zero. */
  function AsNumber(a: Json): Option<int> {
    match a
    case Bool(truth) => Some(if truth then 1 else 0)
    case Num(n) => Some(n)
    case _ => None
  }

  /** What equality means below the containers: both null, the same text, or the same number. */
  lemma ScalarsEqualIff(a: Json, b: Json)
    requires !Comparable(a, b)
    ensures Equal(a, b) <==>
      || (a.Null? && b.Null?) || (a.Text? && b.Text? && a.s == b.s)
      || (AsNumber(a).Some? && AsNumber(a) == AsNumber(b))
  {
  }

  /** Why a request is refused: the permit, all differing fields but the city, or the city that the confirmed trip does not
      vouch for. */
  lemma RefusalSays(permit: Permit, requestTrip: nat, expected: Json, actual: Json, workflow: Workflow, p: Path)
    requires expected.Object? && actual.Object?
    ensures var refusal := RefusalOf(permit, requestTrip, expected, actual, workflow);
      var fits := permit.collaboration && permit.revision.Some? && permit.revision.value.trip == permit.trip
                  && permit.revision.value.number == permit.currentRevision && requestTrip == permit.trip;
      if !fits then refusal == Some(SnapshotMismatch([[Key("trip"), Key("tripId")]]))
      else if exists q :: Differs(expected, actual, q) && q != [Key("cityName")] then
        && refusal.Some? && refusal.value.SnapshotMismatch?
        && (p in refusal.value.fields <==> Differs(expected, actual, p) && p != [Key("cityName")])
      else if !Differs(expected, actual, [Key("cityName")]) || workflow.Vouches? then refusal == None
      else if workflow.Denies? then
        refusal.Some? && refusal.value.SnapshotMismatch? && (p in refusal.value.fields <==> p == [Key("cityName")])
      else refusal == Some(WorkflowFailed)
  {
    var paths := Mismatches(expected, actual);
    forall q: Path
      ensures q in paths <==> Differs(expected, actual, q)
    {
      PathsAreDifferences(expected, actual, q);
    }
    hide Mismatches, Differs;
    if OtherThanCity(paths) != [] {
      assert OtherThanCity(paths)[0] in OtherThanCity(paths);
    }
    if paths != [] {
      assert paths[0] in paths;
    }
  }

  lemma PathsAreDifferences(expected: Json, actual: Json, q: Path)
    ensures q in Mismatches(expected, actual) <==> Differs(expected, actual, q)
  {
    hide Mismatches, Differs;
    if q in Mismatches(expected, actual) {
      PathsDiffer(expected, actual, q);
    }
    if Differs(expected, actual, q) {
      DifferencesListed(expected, actual, q);
    }
  }
}
