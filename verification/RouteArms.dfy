/**
 The order of the generated route arms.  An arm is a non-empty set of `belongs_to` fields, written as a bit
 mask; arms with more fields come first, and equal sizes in order of the mask.
 */
module RouteArms {

  function Pow2(n: nat): (r: nat)
    ensures r >= 1
  {
    if n == 0 then 1 else 2 * Pow2(n - 1)
  }

  function CountOnes(m: nat): (n: nat)
    ensures n == 0 <==> m == 0
  {
    if m == 0 then 0 else m % 2 + CountOnes(m / 2)
  }

  predicate Bit(m: nat, i: nat)
    decreases i
  {
    if i == 0 then m % 2 == 1 else Bit(m / 2, i - 1)
  }

  /** The fields of an arm, in declaration order. */
  function Selected(m: nat, n: nat): seq<nat> {
    if n == 0 then [] else Selected(m, n - 1) + (if Bit(m, n - 1) then [n - 1] else [])
  }

  predicate Before(a: nat, b: nat) {
    CountOnes(a) > CountOnes(b) || (CountOnes(a) == CountOnes(b) && a < b)
  }

  // ---------------------------------------------------------------- the arms in order

  ghost predicate Ordered(masks: seq<nat>) {
    forall i, j :: 0 <= i < j < |masks| ==> Before(masks[i], masks[j])
  }

  /** The sorted vector `masks[..i]` with `m` put in its place. */
  method Place(masks: array<nat>, i: nat)
    requires i < masks.Length && Ordered(masks[..i]) && masks[i] !in masks[..i]
    modifies masks
    ensures Ordered(masks[..i + 1])
    ensures Members(masks[..i + 1]) == old(Members(masks[..i])) + {old(masks[i])}
    ensures masks[i + 1..] == old(masks[i + 1..])
  {
    ghost var start := masks[..];
    var m := masks[i];
    var j := i;
    while j > 0 && Before(m, masks[j - 1])
      invariant 0 <= j <= i
      invariant forall k :: 0 <= k < j ==> masks[k] == start[k]
      invariant forall k :: j < k <= i ==> masks[k] == start[k - 1]
      invariant forall k :: i < k < masks.Length ==> masks[k] == start[k]
      invariant forall k :: j <= k < i ==> Before(m, start[k])
    {
      masks[j] := masks[j - 1];
      j := j - 1;
    }
    masks[j] := m;
    Placed(start[..i], m, j, masks[..i + 1]);
  }

  function Members(s: seq<nat>): set<nat> {
    set x | x in s
  }

  lemma Placed(before: seq<nat>, m: nat, j: nat, after: seq<nat>)
    requires Ordered(before) && m !in before && j <= |before| && |after| == |before| + 1
    requires forall k :: 0 <= k < j ==> after[k] == before[k]
    requires after[j] == m
    requires forall k :: j < k < |after| ==> after[k] == before[k - 1]
    requires forall k :: j <= k < |before| ==> Before(m, before[k])
    requires j > 0 ==> !Before(m, before[j - 1])
    ensures Ordered(after) && Members(after) == Members(before) + {m}
  {
    assert after == before[..j] + [m] + before[j..];
    PlacedMembers(before, m, j);
    forall k | 0 <= k < j ensures Before(before[k], m) { BeforePlaced(before, m, j, k); }
    PlacedOrder(before, m, j, after);
  }

  lemma PlacedMembers(before: seq<nat>, m: nat, j: nat)
    requires j <= |before|
    ensures Members(before[..j] + [m] + before[j..]) == Members(before) + {m}
  {
    assert before == before[..j] + before[j..];
  }

  lemma BeforePlaced(before: seq<nat>, m: nat, j: nat, k: nat)
    requires Ordered(before) && m !in before && k < j <= |before| && !Before(m, before[j - 1])
    ensures Before(before[k], m)
  {
    Total(m, before[j - 1]);
    if k < j - 1 { Transitive(before[k], before[j - 1], m); }
  }

  lemma PlacedOrder(before: seq<nat>, m: nat, j: nat, after: seq<nat>)
    requires Ordered(before) && j <= |before| && |after| == |before| + 1 && after[j] == m
    requires forall k :: 0 <= k < j ==> after[k] == before[k]
    requires forall k :: j < k < |after| ==> after[k] == before[k - 1]
    requires forall k :: j <= k < |before| ==> Before(m, before[k])
    requires forall k :: 0 <= k < j ==> Before(before[k], m)
    ensures Ordered(after)
  {
    forall x, y | 0 <= x < y < |after| ensures Before(after[x], after[y]) {
      var from, to := if x <= j then x else x - 1, if y <= j then y else y - 1;
      assert x != j && y != j ==> after[x] == before[from] && after[y] == before[to];
    }
  }

  lemma Transitive(a: nat, b: nat, c: nat)
    requires Before(a, b) && Before(b, c)
    ensures Before(a, c)
  {
  }

  lemma Total(a: nat, b: nat)
    ensures a == b || Before(a, b) || Before(b, a)
  {
  }

  ghost predicate HoldsUpTo(s: seq<nat>, i: nat) {
    forall m: nat :: m in s <==> 1 <= m <= i
  }

  lemma HoldsOneMore(before: seq<nat>, after: seq<nat>, i: nat)
    requires HoldsUpTo(before, i) && Members(after) == Members(before) + {i + 1}
    ensures HoldsUpTo(after, i + 1)
  {
    assert forall m: nat {:trigger m in after} :: m in after <==> m in Members(after);
  }

  /** The masks of all arms, sorted; with 32 fields or more the shift overflows and there are none. */
  method ArmMasks(n: nat) returns (masks: seq<nat>)
    ensures n >= 32 ==> masks == []
    ensures n < 32 ==> IsArmOrder(masks, n)
  {
    if n >= 32 {
      return [];
    }
    var a := new nat[Pow2(n) - 1](i requires 0 <= i => i + 1);
    for i := 0 to a.Length
      invariant Ordered(a[..i])
      invariant HoldsUpTo(a[..i], i)
      invariant forall k :: i <= k < a.Length ==> a[k] == k + 1
    {
      ghost var placed, rest := a[..i], a[i + 1..];
      Place(a, i);
      HoldsOneMore(placed, a[..i + 1], i);
      assert forall k :: i + 1 <= k < a.Length ==> a[k] == rest[k - (i + 1)];
    }
    masks := a[..];
    assert a[..a.Length] == masks;
  }

  ghost predicate IsArmOrder(masks: seq<nat>, n: nat) {
    && Ordered(masks)
    && forall m: nat :: m in masks <==> 1 <= m < Pow2(n)
  }

  // ---------------------------------------------------------------- the first arm that applies

  /** Every field of the arm is pinned. */
  predicate Applies(m: nat, pins: seq<bool>) {
    forall i :: 0 <= i < |pins| && Bit(m, i) ==> pins[i]
  }

  function MaskOf(pins: seq<bool>): nat {
    if pins == [] then 0 else (if pins[0] then 1 else 0) + 2 * MaskOf(pins[1..])
  }

  lemma {:induction false} MaskOfBits(pins: seq<bool>, i: nat)
    requires i < |pins|
    ensures Bit(MaskOf(pins), i) <==> pins[i]
    ensures MaskOf(pins) < Pow2(|pins|)
    ensures MaskOf(pins) == 0 <==> forall j :: 0 <= j < |pins| ==> !pins[j]
  {
    MaskOfBound(pins);
    MaskOfZero(pins);
    assert MaskOf(pins) / 2 == MaskOf(pins[1..]);
    if i > 0 { MaskOfBits(pins[1..], i - 1); }
  }

  lemma {:induction false} MaskOfBound(pins: seq<bool>)
    ensures MaskOf(pins) < Pow2(|pins|)
  {
    if pins != [] { MaskOfBound(pins[1..]); }
  }

  lemma {:induction false} MaskOfZero(pins: seq<bool>)
    ensures MaskOf(pins) == 0 <==> forall j :: 0 <= j < |pins| ==> !pins[j]
  {
    if pins != [] {
      MaskOfZero(pins[1..]);
      assert forall j :: 0 < j < |pins| ==> pins[j] == pins[1..][j - 1];
      assert forall j :: 0 <= j < |pins| - 1 ==> pins[1..][j] == pins[j + 1];
    }
  }

  /** An arm whose fields are all pinned has no more fields than the pinned set, and as many only if it is that set. */
  lemma {:induction false} AppliesIsSmaller(m: nat, pins: seq<bool>)
    requires m < Pow2(|pins|) && Applies(m, pins)
    ensures CountOnes(m) <= CountOnes(MaskOf(pins))
    ensures CountOnes(m) == CountOnes(MaskOf(pins)) ==> m == MaskOf(pins)
  {
    if pins != [] {
      var rest := pins[1..];
      assert MaskOf(pins) / 2 == MaskOf(rest) && MaskOf(pins) % 2 == if pins[0] then 1 else 0;
      forall i | 0 <= i < |rest| && Bit(m / 2, i) ensures rest[i] {
        assert Bit(m, i + 1);
      }
      assert Bit(m, 0) ==> pins[0];
      AppliesIsSmaller(m / 2, rest);
      Halves(m);
      Halves(MaskOf(pins));
    }
  }

  lemma Halves(m: nat)
    ensures CountOnes(m) == m % 2 + CountOnes(m / 2) && m == m % 2 + 2 * (m / 2)
  {
  }

  /**
   The arm taken for a query is the first that applies.  It is the set of all pinned fields; no arm applies
   when none is pinned.
   */
  lemma MostSelectiveArm(masks: seq<nat>, pins: seq<bool>, i: nat)
    requires IsArmOrder(masks, |pins|) && i < |masks|
    requires Applies(masks[i], pins) && forall j :: 0 <= j < i ==> !Applies(masks[j], pins)
    ensures masks[i] == MaskOf(pins)
  {
    var all := MaskOf(pins);
    MaskOfBound(pins);
    assert masks[i] in masks;
    AppliesIsSmaller(masks[i], pins);
    AllPinnedApplies(pins);
    assert CountOnes(masks[i]) > 0;
    assert all in masks;
    var j :| 0 <= j < |masks| && masks[j] == all;
    assert i < j ==> Before(masks[i], masks[j]);
  }

  lemma AllPinnedApplies(pins: seq<bool>)
    ensures Applies(MaskOf(pins), pins)
  {
    forall i | 0 <= i < |pins| && Bit(MaskOf(pins), i) ensures pins[i] { MaskOfBits(pins, i); }
  }

  lemma SomeArmUnlessNonePinned(masks: seq<nat>, pins: seq<bool>)
    requires IsArmOrder(masks, |pins|)
    ensures (exists i :: 0 <= i < |masks| && Applies(masks[i], pins)) <==> (exists i :: 0 <= i < |pins| && pins[i])
  {
    MaskOfBound(pins);
    MaskOfZero(pins);
    AllPinnedApplies(pins);
    if MaskOf(pins) != 0 {
      assert MaskOf(pins) in masks;
    } else {
      forall i | 0 <= i < |masks| ensures !Applies(masks[i], pins) {
        assert masks[i] in masks;
        if Applies(masks[i], pins) { AppliesIsSmaller(masks[i], pins); }
      }
    }
  }

  lemma {:induction false} SelectedIsMask(pins: seq<bool>, n: nat)
    requires n <= |pins|
    ensures forall i :: i in Selected(MaskOf(pins), n) <==> 0 <= i < n && pins[i]
    ensures forall i, j :: 0 <= i < j < |Selected(MaskOf(pins), n)| ==>
                             Selected(MaskOf(pins), n)[i] < Selected(MaskOf(pins), n)[j]
  {
    if n > 0 {
      SelectedIsMask(pins, n - 1);
      MaskOfBits(pins, n - 1);
      var before, all := Selected(MaskOf(pins), n - 1), Selected(MaskOf(pins), n);
      forall i, j | 0 <= i < j < |all| ensures all[i] < all[j] {
        assert all[i] == before[i] && before[i] in before;
      }
    }
  }
}
