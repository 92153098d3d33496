/**
 Flattening of JSON payloads into leaf fingerprints.  Path and value hashes are taken as injective: a path is
 the sequence of its steps, a leaf's fingerprint is the leaf.
 */
module Fingerprint {
  const MAX_PROPERTIES: nat := 4096
  const MAX_DEPTH: nat := 64

  datatype Field = Field(key: string, value: Json)

  datatype Json =
    | Null
    | Bool(b: bool)
    | Number(text: string)
    | Str(text: string)
    | Array(items: seq<Json>)
    | Object(fields: seq<Field>)

  datatype PathStep = Key(key: string) | Index(index: nat)

  type Path = seq<PathStep>

  type LeafMap = map<Path, Json>

  predicate IsLeaf(v: Json) {
    !(v.Object? && |v.fields| > 0) && !(v.Array? && |v.items| > 0)
  }

  /** No object has a key twice. */
  ghost predicate WellFormed(v: Json) {
    match v
    case Array(items) => forall i :: 0 <= i < |items| ==> WellFormed(items[i])
    case Object(fields) =>
      && (forall i :: 0 <= i < |fields| ==> WellFormed(fields[i].value))
      && (forall i, j :: 0 <= i < j < |fields| ==> fields[i].key != fields[j].key)
    case _ => true
  }

  /** The children of a container, each with the step that leads to it. */
  function ChildCount(v: Json): nat {
    match v
    case Array(items) => |items|
    case Object(fields) => |fields|
    case _ => 0
  }

  function Child(v: Json, i: nat): (c: Json)
    requires i < ChildCount(v)
    ensures c < v
  {
    if v.Array? then v.items[i] else v.fields[i].value
  }

  function StepTo(v: Json, i: nat): PathStep
    requires i < ChildCount(v)
  {
    if v.Array? then Index(i) else Key(v.fields[i].key)
  }

  // ---------------------------------------------------------------- the scan as the source runs it

  datatype Flattened = Flattened(complete: bool, leaves: LeafMap)

  /** Recursion with a depth bound and a bound on the leaves collected so far; stops at the first refusal. */
  function Flatten(v: Json, path: Path, depth: nat, leaves: LeafMap): Flattened
    decreases v, 1, 0
  {
    if depth > MAX_DEPTH || |leaves| >= MAX_PROPERTIES then Flattened(false, leaves)
    else if IsLeaf(v) then Flattened(true, leaves[path := v])
    else FlattenChildren(v, path, depth, leaves, ChildCount(v))
  }

  function FlattenChildren(v: Json, path: Path, depth: nat, leaves: LeafMap, n: nat): Flattened
    requires n <= ChildCount(v)
    decreases v, 0, n
  {
    if n == 0 then Flattened(true, leaves)
    else
      var before := FlattenChildren(v, path, depth, leaves, n - 1);
      if !before.complete then before
      else Flatten(Child(v, n - 1), path + [StepTo(v, n - 1)], depth + 1, before.leaves)
  }

  /** The source's form: nested loops that fill one map in place. */
  method FingerprintLeaves(value: Json, path: Path, depth: nat, leaves: LeafMap) returns (complete: bool, out: LeafMap)
    ensures Flattened(complete, out) == Flatten(value, path, depth, leaves)
    decreases value
  {
    out := leaves;
    if depth > MAX_DEPTH || |out| >= MAX_PROPERTIES {
      return false, out;
    }
    if value.Object? && |value.fields| > 0 {
      for i := 0 to |value.fields|
        invariant FlattenChildren(value, path, depth, leaves, i) == Flattened(true, out)
      {
        var ok;
        ok, out := FingerprintLeaves(value.fields[i].value, path + [Key(value.fields[i].key)], depth + 1, out);
        if !ok {
          StoppedStays(value, path, depth, leaves, i + 1, |value.fields|);
          return false, out;
        }
      }
    } else if value.Array? && |value.items| > 0 {
      for i := 0 to |value.items|
        invariant FlattenChildren(value, path, depth, leaves, i) == Flattened(true, out)
      {
        var ok;
        ok, out := FingerprintLeaves(value.items[i], path + [Index(i)], depth + 1, out);
        if !ok {
          StoppedStays(value, path, depth, leaves, i + 1, |value.items|);
          return false, out;
        }
      }
    } else {
      out := out[path := value];
    }
    complete := true;
  }

  lemma {:induction false} StoppedStays(v: Json, path: Path, depth: nat, leaves: LeafMap, i: nat, n: nat)
    requires i <= n <= ChildCount(v) && !FlattenChildren(v, path, depth, leaves, i).complete
    ensures FlattenChildren(v, path, depth, leaves, n) == FlattenChildren(v, path, depth, leaves, i)
    decreases n
  {
    if i < n { StoppedStays(v, path, depth, leaves, i, n - 1); }
  }

  // ---------------------------------------------------------------- what it computes

  function Leaves(v: Json, path: Path): LeafMap
    decreases v, 1, 0
  {
    if IsLeaf(v) then map[path := v] else ChildLeaves(v, path, ChildCount(v))
  }

  /** Leaves under the first `n` children. */
  function ChildLeaves(v: Json, path: Path, n: nat): LeafMap
    requires n <= ChildCount(v)
    decreases v, 0, n
  {
    if n == 0 then map[]
    else ChildLeaves(v, path, n - 1) + Leaves(Child(v, n - 1), path + [StepTo(v, n - 1)])
  }

  function LeafCount(v: Json): (n: nat)
    ensures n >= 1
    decreases v, 1, 0
  {
    if IsLeaf(v) then 1 else ChildLeafCount(v, ChildCount(v))
  }

  function ChildLeafCount(v: Json, n: nat): (count: nat)
    requires n <= ChildCount(v)
    ensures count >= n
    decreases v, 0, n
  {
    if n == 0 then 0 else ChildLeafCount(v, n - 1) + LeafCount(Child(v, n - 1))
  }

  function Max(a: nat, b: nat): nat {
    if a < b then b else a
  }

  function Height(v: Json): nat
    decreases v, 1, 0
  {
    if IsLeaf(v) then 0 else 1 + ChildHeight(v, ChildCount(v))
  }

  function ChildHeight(v: Json, n: nat): nat
    requires n <= ChildCount(v)
    decreases v, 0, n
  {
    if n == 0 then 0 else Max(ChildHeight(v, n - 1), Height(Child(v, n - 1)))
  }

  // ---------------------------------------------------------------- paths

  lemma {:induction false} LeavesBelow(v: Json, path: Path, p: Path)
    requires p in Leaves(v, path)
    ensures path <= p && (!IsLeaf(v) ==> |path| < |p|)
    decreases v, 1, 0
  {
    if !IsLeaf(v) { var i := ChildLeavesBelow(v, path, ChildCount(v), p); }
  }

  lemma {:induction false} ChildLeavesBelow(v: Json, path: Path, n: nat, p: Path) returns (i: nat)
    requires n <= ChildCount(v) && p in ChildLeaves(v, path, n)
    ensures i < n && path + [StepTo(v, i)] <= p && p in Leaves(Child(v, i), path + [StepTo(v, i)])
    decreases v, 0, n
  {
    if p in Leaves(Child(v, n - 1), path + [StepTo(v, n - 1)]) {
      i := n - 1;
      LeavesBelow(Child(v, i), path + [StepTo(v, i)], p);
    } else {
      i := ChildLeavesBelow(v, path, n - 1, p);
    }
  }

  lemma StepsDiffer(v: Json, i: nat, j: nat)
    requires WellFormed(v) && i < ChildCount(v) && j < ChildCount(v) && i != j
    ensures StepTo(v, i) != StepTo(v, j)
  {
    if v.Object? && j < i { assert v.fields[j].key != v.fields[i].key; }
  }

  lemma OneStep(path: Path, a: PathStep, b: PathStep, p: Path)
    requires path + [a] <= p && path + [b] <= p
    ensures a == b
  {
    assert p[|path|] == a && p[|path|] == b;
  }

  lemma ChildWellFormed(v: Json, i: nat)
    requires WellFormed(v) && i < ChildCount(v)
    ensures WellFormed(Child(v, i))
  {
  }

  /** Below the step to child `i`, the leaves of a container are those of that child. */
  lemma {:induction false} RestrictToChild(v: Json, path: Path, n: nat, i: nat, p: Path)
    requires WellFormed(v) && i < n <= ChildCount(v) && path + [StepTo(v, i)] <= p
    ensures p in ChildLeaves(v, path, n) <==> p in Leaves(Child(v, i), path + [StepTo(v, i)])
    ensures p in ChildLeaves(v, path, n) ==>
              ChildLeaves(v, path, n)[p] == Leaves(Child(v, i), path + [StepTo(v, i)])[p]
    decreases n
  {
    var last := Leaves(Child(v, n - 1), path + [StepTo(v, n - 1)]);
    if i == n - 1 {
      if p in ChildLeaves(v, path, n - 1) {
        var j := ChildLeavesBelow(v, path, n - 1, p);
        OneStep(path, StepTo(v, i), StepTo(v, j), p);
        StepsDiffer(v, i, j);
      }
    } else {
      RestrictToChild(v, path, n - 1, i, p);
      if p in last {
        LeavesBelow(Child(v, n - 1), path + [StepTo(v, n - 1)], p);
        OneStep(path, StepTo(v, i), StepTo(v, n - 1), p);
        StepsDiffer(v, i, n - 1);
      }
    }
  }

  /** No leaf collected so far lies below `path`. */
  ghost predicate Outside(leaves: LeafMap, path: Path) {
    forall p :: p in leaves ==> !(path <= p)
  }

  lemma ChildrenOutside(v: Json, path: Path, leaves: LeafMap, n: nat)
    requires WellFormed(v) && n < ChildCount(v) && Outside(leaves, path)
    ensures Outside(leaves + ChildLeaves(v, path, n), path + [StepTo(v, n)])
  {
    forall p | p in leaves + ChildLeaves(v, path, n) ensures !(path + [StepTo(v, n)] <= p) {
      if path + [StepTo(v, n)] <= p {
        assert path <= p;
        var i := ChildLeavesBelow(v, path, n, p);
        OneStep(path, StepTo(v, i), StepTo(v, n), p);
        StepsDiffer(v, i, n);
      }
    }
  }

  lemma UnionSize(a: LeafMap, b: LeafMap)
    requires forall p :: p in b ==> p !in a
    ensures |a + b| == |a| + |b|
  {
    assert (a + b).Keys == a.Keys + b.Keys;
    assert a.Keys !! b.Keys;
    assert |a.Keys + b.Keys| == |a.Keys| + |b.Keys|;
  }

  lemma {:induction false} LeavesSize(v: Json, path: Path)
    requires WellFormed(v)
    ensures |Leaves(v, path)| == LeafCount(v)
    decreases v, 1, 0
  {
    if !IsLeaf(v) { ChildLeavesSize(v, path, ChildCount(v)); }
  }

  lemma {:induction false} ChildLeavesSize(v: Json, path: Path, n: nat)
    requires WellFormed(v) && n <= ChildCount(v)
    ensures |ChildLeaves(v, path, n)| == ChildLeafCount(v, n)
    decreases v, 0, n
  {
    if n > 0 {
      ChildLeavesSize(v, path, n - 1);
      ChildWellFormed(v, n - 1);
      LeavesSize(Child(v, n - 1), path + [StepTo(v, n - 1)]);
      ChildSizes(v, path, n);
    }
  }

  lemma ChildSizes(v: Json, path: Path, n: nat)
    requires WellFormed(v) && 0 < n <= ChildCount(v)
    ensures |ChildLeaves(v, path, n)|
            == |ChildLeaves(v, path, n - 1)| + |Leaves(Child(v, n - 1), path + [StepTo(v, n - 1)])|
  {
    SiblingsDisjoint(v, path, n - 1);
    var a, b := ChildLeaves(v, path, n - 1), Leaves(Child(v, n - 1), path + [StepTo(v, n - 1)]);
    UnionSize(a, b);
    assert ChildLeaves(v, path, n) == a + b;
  }

  lemma SiblingsDisjoint(v: Json, path: Path, n: nat)
    requires WellFormed(v) && n < ChildCount(v)
    ensures forall p :: p in Leaves(Child(v, n), path + [StepTo(v, n)]) ==> p !in ChildLeaves(v, path, n)
  {
    ChildrenOutside(v, path, map[], n);
    assert map[] + ChildLeaves(v, path, n) == ChildLeaves(v, path, n);
    forall p | p in Leaves(Child(v, n), path + [StepTo(v, n)]) ensures p !in ChildLeaves(v, path, n) {
      LeavesBelow(Child(v, n), path + [StepTo(v, n)], p);
    }
  }

  // ---------------------------------------------------------------- when the scan completes, and with what

  predicate Small(v: Json, depth: nat, room: int) {
    depth + Height(v) <= MAX_DEPTH && LeafCount(v) <= room
  }

  /**
   The scan completes exactly for values within both bounds, whatever the order of an object's keys; it then
   adds exactly the leaves of the value.
   */
  lemma {:induction false} FlattenMeaning(v: Json, path: Path, depth: nat, leaves: LeafMap)
    requires WellFormed(v) && Outside(leaves, path) && |leaves| <= MAX_PROPERTIES
    ensures Flatten(v, path, depth, leaves).complete <==> Small(v, depth, MAX_PROPERTIES - |leaves|)
    ensures Flatten(v, path, depth, leaves).complete ==>
              Flatten(v, path, depth, leaves).leaves == leaves + Leaves(v, path)
    decreases v, 1, 0
  {
    if !IsLeaf(v) && depth <= MAX_DEPTH && |leaves| < MAX_PROPERTIES {
      FlattenChildrenMeaning(v, path, depth, leaves, ChildCount(v));
    }
  }

  /** The first `n` children are within the bounds, starting with `size` leaves collected. */
  predicate ChildrenSmall(v: Json, depth: nat, size: nat, n: nat)
    requires n <= ChildCount(v)
  {
    n == 0 || (depth + 1 + ChildHeight(v, n) <= MAX_DEPTH && size + ChildLeafCount(v, n) <= MAX_PROPERTIES)
  }

  lemma ChildrenSmallStep(v: Json, depth: nat, size: nat, n: nat)
    requires 0 < n <= ChildCount(v) && depth <= MAX_DEPTH && size <= MAX_PROPERTIES
    ensures ChildrenSmall(v, depth, size, n) <==>
              && ChildrenSmall(v, depth, size, n - 1)
              && depth + 1 + Height(Child(v, n - 1)) <= MAX_DEPTH
              && size + ChildLeafCount(v, n) <= MAX_PROPERTIES
  {
    ChildTotals(v, [], n);
    assert ChildHeight(v, n) == Max(ChildHeight(v, n - 1), Height(Child(v, n - 1)));
  }

  ghost predicate IsScanOfChild(r: Flattened, v: Json, path: Path, depth: nat, n: nat, before: LeafMap)
    requires n < ChildCount(v)
  {
    r == Flatten(Child(v, n), path + [StepTo(v, n)], depth + 1, before)
  }

  lemma FlattenNext(v: Json, path: Path, depth: nat, leaves: LeafMap, n: nat)
    requires 0 < n <= ChildCount(v)
    ensures var before := FlattenChildren(v, path, depth, leaves, n - 1);
            var r := FlattenChildren(v, path, depth, leaves, n);
            if !before.complete then r == before else IsScanOfChild(r, v, path, depth, n - 1, before.leaves)
  {
  }

  ghost predicate ChildrenMeaning(r: Flattened, v: Json, path: Path, depth: nat, leaves: LeafMap, n: nat)
    requires n <= ChildCount(v)
  {
    && (r.complete <==> ChildrenSmall(v, depth, |leaves|, n))
    && (r.complete ==> r.leaves == leaves + ChildLeaves(v, path, n) && |r.leaves| <= MAX_PROPERTIES)
  }

  lemma {:induction false} FlattenChildrenMeaning(v: Json, path: Path, depth: nat, leaves: LeafMap, n: nat)
    requires WellFormed(v) && Outside(leaves, path) && |leaves| <= MAX_PROPERTIES && n <= ChildCount(v)
    requires depth <= MAX_DEPTH
    ensures ChildrenMeaning(FlattenChildren(v, path, depth, leaves, n), v, path, depth, leaves, n)
    decreases v, 0, n
  {
    if n == 0 {
      assert leaves + map[] == leaves;
    } else {
      FlattenChildrenMeaning(v, path, depth, leaves, n - 1);
      FlattenNext(v, path, depth, leaves, n);
      var before := FlattenChildren(v, path, depth, leaves, n - 1);
      if before.complete {
        GrowChildren(v, path, depth, leaves, n, before, FlattenChildren(v, path, depth, leaves, n));
      } else {
        StoppedChildren(v, path, depth, leaves, n, before);
      }
    }
  }

  lemma StoppedChildren(v: Json, path: Path, depth: nat, leaves: LeafMap, n: nat, before: Flattened)
    requires 0 < n <= ChildCount(v) && |leaves| <= MAX_PROPERTIES && depth <= MAX_DEPTH
    requires !before.complete && ChildrenMeaning(before, v, path, depth, leaves, n - 1)
    ensures ChildrenMeaning(before, v, path, depth, leaves, n)
  {
    ChildrenSmallStep(v, depth, |leaves|, n);
  }

  lemma {:induction false} GrowChildren(
    v: Json, path: Path, depth: nat, leaves: LeafMap, n: nat, before: Flattened, r: Flattened)
    requires WellFormed(v) && Outside(leaves, path) && |leaves| <= MAX_PROPERTIES && 0 < n <= ChildCount(v)
    requires depth <= MAX_DEPTH && before.complete && ChildrenMeaning(before, v, path, depth, leaves, n - 1)
    requires IsScanOfChild(r, v, path, depth, n - 1, before.leaves)
    ensures ChildrenMeaning(r, v, path, depth, leaves, n)
    decreases v, 0, n - 1, 1
  {
    NextChildMeaning(v, path, depth, leaves, n - 1, before, r);
    OneMoreChild(v, path, depth, leaves, n, before, r);
  }

  lemma OneMoreChild(v: Json, path: Path, depth: nat, leaves: LeafMap, n: nat, before: Flattened, r: Flattened)
    requires WellFormed(v) && Outside(leaves, path) && |leaves| <= MAX_PROPERTIES && 0 < n <= ChildCount(v)
    requires depth <= MAX_DEPTH && before.complete && ChildrenMeaning(before, v, path, depth, leaves, n - 1)
    requires ChildMeaning(r, v, path, depth, |leaves|, n - 1, before.leaves)
    ensures ChildrenMeaning(r, v, path, depth, leaves, n)
  {
    ChildrenSmallStep(v, depth, |leaves|, n);
    LastChildMeaning(v, path, depth, leaves, n, before.leaves, r);
    if r.complete { ChildrenSize(v, path, leaves, n); }
  }

  /** What the scan of child `n` is to mean, started on `before`. */
  ghost predicate ChildMeaning(r: Flattened, v: Json, path: Path, depth: nat, size: nat, n: nat, before: LeafMap)
    requires n < ChildCount(v)
  {
    && |before| == size + ChildLeafCount(v, n)
    && (r.complete <==> Small(Child(v, n), depth + 1, MAX_PROPERTIES - |before|))
    && (r.complete ==> r.leaves == before + Leaves(Child(v, n), path + [StepTo(v, n)]))
  }

  /** The scan of child `n`, started on the leaves of the children before it. */
  lemma {:induction false} NextChildMeaning(
    v: Json, path: Path, depth: nat, leaves: LeafMap, n: nat, before: Flattened, r: Flattened)
    requires WellFormed(v) && Outside(leaves, path) && n < ChildCount(v)
    requires before.complete && ChildrenMeaning(before, v, path, depth, leaves, n)
    requires IsScanOfChild(r, v, path, depth, n, before.leaves)
    ensures ChildMeaning(r, v, path, depth, |leaves|, n, before.leaves)
    decreases v, 0, n, 0
  {
    ChildrenSize(v, path, leaves, n);
    ChildrenOutside(v, path, leaves, n);
    ChildWellFormed(v, n);
    FlattenMeaning(Child(v, n), path + [StepTo(v, n)], depth + 1, before.leaves);
  }

  /** What the scan of child `n - 1` means for the first `n` children, after the others were collected in full. */
  lemma LastChildMeaning(v: Json, path: Path, depth: nat, leaves: LeafMap, n: nat, before: LeafMap, r: Flattened)
    requires 0 < n <= ChildCount(v)
    requires before == leaves + ChildLeaves(v, path, n - 1) && ChildMeaning(r, v, path, depth, |leaves|, n - 1, before)
    ensures r.complete <==> depth + 1 + Height(Child(v, n - 1)) <= MAX_DEPTH
                            && |leaves| + ChildLeafCount(v, n) <= MAX_PROPERTIES
    ensures r.complete ==> r.leaves == leaves + ChildLeaves(v, path, n)
  {
    UnionAssociates(leaves, ChildLeaves(v, path, n - 1), Leaves(Child(v, n - 1), path + [StepTo(v, n - 1)]));
    ChildTotals(v, path, n);
  }

  lemma UnionAssociates(a: LeafMap, b: LeafMap, c: LeafMap)
    ensures a + b + c == a + (b + c)
  {
  }

  lemma ChildTotals(v: Json, path: Path, n: nat)
    requires 0 < n <= ChildCount(v)
    ensures ChildLeafCount(v, n) == ChildLeafCount(v, n - 1) + LeafCount(Child(v, n - 1))
    ensures ChildLeaves(v, path, n) == ChildLeaves(v, path, n - 1) + Leaves(Child(v, n - 1), path + [StepTo(v, n - 1)])
  {
  }

  lemma ChildrenSize(v: Json, path: Path, leaves: LeafMap, n: nat)
    requires WellFormed(v) && n <= ChildCount(v) && Outside(leaves, path)
    ensures |leaves + ChildLeaves(v, path, n)| == |leaves| + ChildLeafCount(v, n)
  {
    ChildLeavesSize(v, path, n);
    forall p | p in ChildLeaves(v, path, n) ensures p !in leaves {
      var i := ChildLeavesBelow(v, path, n, p);
      assert path <= p;
    }
    UnionSize(leaves, ChildLeaves(v, path, n));
  }

  // ---------------------------------------------------------------- equal leaves mean equal values

  /**
   JSON equality.  The children of two containers correspond by the steps that lead to them: by position in
   arrays, by key in objects, so the order of an object's keys does not matter.
   */
  ghost predicate SameJson(v: Json, w: Json)
    decreases v, 1
  {
    if IsLeaf(v) || IsLeaf(w) then v == w
    else
      && (forall i :: 0 <= i < ChildCount(v) ==> HasCounterpart(v, i, w))
      && (forall j :: 0 <= j < ChildCount(w) ==> HasOrigin(v, w, j))
  }

  ghost predicate HasCounterpart(v: Json, i: int, w: Json)
    decreases v, 0, 1
  {
    exists j :: Corresponds(v, i, w, j)
  }

  ghost predicate HasOrigin(v: Json, w: Json, j: int) {
    exists i :: SameStep(v, i, w, j)
  }

  ghost predicate Corresponds(v: Json, i: int, w: Json, j: int)
    decreases v, 0, 0
  {
    SameStep(v, i, w, j) && SameJson(Child(v, i), Child(w, j))
  }

  ghost predicate SameStep(v: Json, i: int, w: Json, j: int) {
    0 <= i < ChildCount(v) && 0 <= j < ChildCount(w) && StepTo(v, i) == StepTo(w, j)
  }

  lemma {:induction false} SomeLeaf(v: Json, path: Path) returns (p: Path)
    ensures p in Leaves(v, path)
    decreases v, 1, 0
  {
    if IsLeaf(v) {
      p := path;
    } else {
      var n := ChildCount(v);
      p := SomeLeaf(Child(v, n - 1), path + [StepTo(v, n - 1)]);
    }
  }

  /** A step of one container leads to a child of the other, when their leaves are the same. */
  lemma MatchingChild(v: Json, w: Json, path: Path, i: nat) returns (j: nat)
    requires WellFormed(v) && WellFormed(w) && !IsLeaf(v) && i < ChildCount(v) && Leaves(v, path) == Leaves(w, path)
    ensures !IsLeaf(w) && j < ChildCount(w) && StepTo(w, j) == StepTo(v, i)
    ensures Leaves(Child(v, i), path + [StepTo(v, i)]) == Leaves(Child(w, j), path + [StepTo(v, i)])
  {
    var below := path + [StepTo(v, i)];
    var p := SomeLeaf(Child(v, i), below);
    LeavesBelow(Child(v, i), below, p);
    RestrictToChild(v, path, ChildCount(v), i, p);
    j := ChildLeavesBelow(w, path, ChildCount(w), p);
    assert p[|path|] == StepTo(v, i) && p[|path|] == StepTo(w, j);
    SameChildLeaves(v, w, path, i, j);
  }

  lemma SameChildLeaves(v: Json, w: Json, path: Path, i: nat, j: nat)
    requires WellFormed(v) && WellFormed(w) && !IsLeaf(v) && !IsLeaf(w) && Leaves(v, path) == Leaves(w, path)
    requires i < ChildCount(v) && j < ChildCount(w) && StepTo(w, j) == StepTo(v, i)
    ensures Leaves(Child(v, i), path + [StepTo(v, i)]) == Leaves(Child(w, j), path + [StepTo(v, i)])
  {
    var below := path + [StepTo(v, i)];
    var a, b := Leaves(Child(v, i), below), Leaves(Child(w, j), below);
    forall q
      ensures q in a <==> q in b
      ensures q in a && q in b ==> a[q] == b[q]
    {
      if q in a { LeavesBelow(Child(v, i), below, q); }
      if q in b { LeavesBelow(Child(w, j), below, q); }
      if below <= q {
        RestrictToChild(v, path, ChildCount(v), i, q);
        RestrictToChild(w, path, ChildCount(w), j, q);
      }
    }
  }

  lemma LeafOrNot(v: Json, w: Json, path: Path)
    requires Leaves(v, path) == Leaves(w, path)
    ensures IsLeaf(v) <==> IsLeaf(w)
    ensures IsLeaf(v) ==> v == w
  {
    if IsLeaf(v) && !IsLeaf(w) {
      assert path in Leaves(w, path);
      LeavesBelow(w, path, path);
    }
    if IsLeaf(w) && !IsLeaf(v) {
      assert path in Leaves(v, path);
      LeavesBelow(v, path, path);
    }
    if IsLeaf(v) && IsLeaf(w) {
      assert Leaves(v, path)[path] == v && Leaves(w, path)[path] == w;
    }
  }

  lemma {:induction false} EqualLeavesEqualValues(v: Json, w: Json, path: Path)
    requires WellFormed(v) && WellFormed(w) && Leaves(v, path) == Leaves(w, path)
    ensures SameJson(v, w)
    decreases v
  {
    LeafOrNot(v, w, path);
    if !IsLeaf(v) {
      forall i | 0 <= i < ChildCount(v) ensures HasCounterpart(v, i, w) {
        var j := MatchingChild(v, w, path, i);
        ChildWellFormed(v, i);
        ChildWellFormed(w, j);
        EqualLeavesEqualValues(Child(v, i), Child(w, j), path + [StepTo(v, i)]);
        assert Corresponds(v, i, w, j);
      }
      forall j | 0 <= j < ChildCount(w) ensures HasOrigin(v, w, j) {
        var i := MatchingChild(w, v, path, j);
        assert SameStep(v, i, w, j);
      }
    }
  }

  lemma {:induction false} SameValuesSameLeaves(v: Json, w: Json, path: Path)
    requires WellFormed(v) && WellFormed(w) && SameJson(v, w)
    ensures Leaves(v, path) == Leaves(w, path)
    decreases v, 1, 0
  {
    if !IsLeaf(v) {
      forall p
        ensures p in Leaves(v, path) <==> p in Leaves(w, path)
        ensures p in Leaves(v, path) ==> Leaves(v, path)[p] == Leaves(w, path)[p]
      {
        SameLeafAt(v, w, path, p);
      }
    }
  }

  lemma {:induction false} SameLeafAt(v: Json, w: Json, path: Path, p: Path)
    requires WellFormed(v) && WellFormed(w) && SameJson(v, w) && !IsLeaf(v)
    ensures p in Leaves(v, path) <==> p in Leaves(w, path)
    ensures p in Leaves(v, path) ==> p in Leaves(w, path) && Leaves(v, path)[p] == Leaves(w, path)[p]
    decreases v, 0, 0
  {
    assert !IsLeaf(w);
    if p in Leaves(v, path) {
      var i := ChildLeavesBelow(v, path, ChildCount(v), p);
      SameBelowChild(v, w, path, p, i);
    } else if p in Leaves(w, path) {
      var j := ChildLeavesBelow(w, path, ChildCount(w), p);
      assert HasOrigin(v, w, j);
      var i :| SameStep(v, i, w, j);
      SameBelowChild(v, w, path, p, i);
    }
  }

  lemma {:induction false} SameBelowChild(v: Json, w: Json, path: Path, p: Path, i: nat)
    requires WellFormed(v) && WellFormed(w) && SameJson(v, w) && !IsLeaf(v) && !IsLeaf(w)
    requires i < ChildCount(v) && path + [StepTo(v, i)] <= p
    ensures p in Leaves(v, path) <==> p in Leaves(w, path)
    ensures p in Leaves(v, path) ==> p in Leaves(w, path) && Leaves(v, path)[p] == Leaves(w, path)[p]
    decreases v, 0, -1
  {
    assert HasCounterpart(v, i, w);
    var j :| Corresponds(v, i, w, j);
    ChildWellFormed(v, i);
    ChildWellFormed(w, j);
    SameValuesSameLeaves(Child(v, i), Child(w, j), path + [StepTo(v, i)]);
    RestrictToChild(v, path, ChildCount(v), i, p);
    RestrictToChild(w, path, ChildCount(w), j, p);
  }

  /** Two fully inspected payloads have the same fingerprints exactly when they are the same JSON value. */
  lemma FingerprintsDecideEquality(v: Json, w: Json)
    requires WellFormed(v) && WellFormed(w)
    requires Flatten(v, [], 0, map[]).complete && Flatten(w, [], 0, map[]).complete
    ensures Flatten(v, [], 0, map[]).leaves == Flatten(w, [], 0, map[]).leaves <==> SameJson(v, w)
  {
    FlattenWhole(v);
    FlattenWhole(w);
    if Leaves(v, []) == Leaves(w, []) { EqualLeavesEqualValues(v, w, []); }
    if SameJson(v, w) { SameValuesSameLeaves(v, w, []); }
  }

  /** The scan of a whole payload. */
  lemma FlattenWhole(v: Json)
    requires WellFormed(v)
    ensures Flatten(v, [], 0, map[]).complete <==> Small(v, 0, MAX_PROPERTIES)
    ensures Flatten(v, [], 0, map[]).complete ==> Flatten(v, [], 0, map[]).leaves == Leaves(v, [])
  {
    FlattenMeaning(v, [], 0, map[]);
    assert map[] + Leaves(v, []) == Leaves(v, []);
  }
}
