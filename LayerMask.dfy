/**
 * The editor's layer-visibility mask, a C# int whose bit i says whether
 * layer i is drawn, and the popup of per-layer toggles that edits it.
 *
 * The int is modelled as its 32 bits (bit 0, the least significant, first),
 * with C#'s `|`, `&`, `~` and `1 << i` written out bit by bit. `1 << i` on an
 * int shifts by the low five bits of i only, so layer i and layer i + 32
 * share a bit.
 */
module LayerMasks {
  import opened Wrappers

  /** The 32 bits of a C# int, bit 0 first. */
  type Bits32 = s: seq<bool> | |s| == 32 witness Cleared()

  /** 32 clear bits. */
  function Cleared(): (s: seq<bool>)
    ensures |s| == 32
  {
    seq(32, k => false)
  }

  /** The int 0. */
  const Zero: Bits32 := Cleared()

  /** int.MaxValue, 0x7FFFFFFF: every bit but the sign bit (bit 31). */
  const MaxValue: Bits32 := seq(32, k => k < 31)

  /** `a | b`. */
  function Or(a: Bits32, b: Bits32): Bits32 {
    seq(32, k requires 0 <= k < 32 => a[k] || b[k])
  }

  /** `a & b`. */
  function And(a: Bits32, b: Bits32): Bits32 {
    seq(32, k requires 0 <= k < 32 => a[k] && b[k])
  }

  /** `~a`. */
  function Not(a: Bits32): Bits32 {
    seq(32, k requires 0 <= k < 32 => !a[k])
  }

  /** `1 << i` on an int: the shift count is the low five bits of i. */
  function ShiftOne(i: nat): Bits32 {
    seq(32, k requires 0 <= k < 32 => k == i % 32)
  }

  /** `1 << i` has exactly one bit set, bit i mod 32. */
  lemma ShiftOneSetsOneBit(i: nat, k: nat)
    requires k < 32
    ensures ShiftOne(i)[k] <==> k == i % 32
    ensures ShiftOne(i) != Zero
  {
    assert ShiftOne(i)[i % 32] != Zero[i % 32];
  }

  /** 2 to the n. */
  function Pow2(n: nat): (p: nat)
    ensures p >= 1
  {
    if n == 0 then 1 else 2 * Pow2(n - 1)
  }

  /** The unsigned value of the n lowest bits. */
  function Low(b: Bits32, n: nat): int
    requires n <= 32
  {
    if n == 0 then 0 else Low(b, n - 1) + (if b[n - 1] then Pow2(n - 1) else 0)
  }

  /** The int the 32 bits stand for, in two's complement: bit 31 weighs -2^31. */
  function IntValue(b: Bits32): int {
    Low(b, 31) - (if b[31] then Pow2(31) else 0)
  }

  /** The n lowest bits give a value in [0, 2^n), which is 0 exactly when they are all clear. */
  lemma {:induction false} LowBounds(b: Bits32, n: nat)
    requires n <= 32
    ensures 0 <= Low(b, n) < Pow2(n)
    ensures Low(b, n) == 0 <==> forall k :: 0 <= k < n ==> !b[k]
  {
    if n > 0 {
      LowBounds(b, n - 1);
    }
  }

  /** The n lowest bits of `1 << i` weigh 2^(i mod 32) when they include that bit, 0 otherwise. */
  lemma {:induction false} LowOfShiftOne(i: nat, n: nat)
    requires n <= 32
    ensures Low(ShiftOne(i), n) == if i % 32 < n then Pow2(i % 32) else 0
  {
    if n > 0 {
      LowOfShiftOne(i, n - 1);
    }
  }

  /**
   * `1 << i` is the int 2^(i mod 32), except that a shift onto the sign bit
   * gives int.MinValue, -2^31.
   */
  lemma ShiftOneValue(i: nat)
    ensures IntValue(ShiftOne(i)) == if i % 32 == 31 then -2147483648 else Pow2(i % 32)
  {
    LowOfShiftOne(i, 31);
    Pow2Of31();
  }

  /** The n lowest bits of int.MaxValue (n <= 31) are all set, worth 2^n - 1. */
  lemma {:induction false} LowOfMaxValue(n: nat)
    requires n <= 31
    ensures Low(MaxValue, n) == Pow2(n) - 1
  {
    if n > 0 {
      LowOfMaxValue(n - 1);
    }
  }

  /** 2^(a + b) is 2^a times 2^b. */
  lemma {:induction false} Pow2Add(a: nat, b: nat)
    ensures Pow2(a + b) == Pow2(a) * Pow2(b)
  {
    if a > 0 {
      Pow2Add(a - 1, b);
    }
  }

  /** 2^31 = 2147483648. */
  lemma Pow2Of31()
    ensures Pow2(31) == 2147483648
  {
    assert Pow2(3) == 8;
    Pow2Add(3, 3);
    Pow2Add(6, 6);
    Pow2Add(12, 12);
    Pow2Add(24, 6);
  }

  /** MaxValue is int.MaxValue, 2^31 - 1 = 2147483647. */
  lemma MaxValueIsIntMax()
    ensures IntValue(MaxValue) == 2147483647
  {
    LowOfMaxValue(31);
    Pow2Of31();
  }

  /**
   * The bits stand for the int 0 exactly when they are Zero, so `!= Zero`
   * is the source's `!= 0`.
   */
  lemma ZeroIffValueZero(b: Bits32)
    ensures IntValue(b) == 0 <==> b == Zero
  {
    LowBounds(b, 31);
    if b[31] {
      assert b != Zero by { assert b[31] != Zero[31]; }
    } else if IntValue(b) == 0 {
      assert b == Zero;
    } else {
      var k :| 0 <= k < 31 && b[k];
      assert b[k] != Zero[k];
    }
  }

  /** A mask and a single bit have a non-zero `&` exactly when the mask has that bit. */
  lemma AndWithShiftOne(mask: Bits32, i: nat)
    ensures And(mask, ShiftOne(i)) != Zero <==> mask[i % 32]
    ensures And(ShiftOne(i), mask) == And(mask, ShiftOne(i))
  {
    var m := And(mask, ShiftOne(i));
    if mask[i % 32] {
      assert m[i % 32] != Zero[i % 32];
    } else {
      assert m == Zero;
    }
    assert And(ShiftOne(i), mask) == m;
  }

  /** `(layerMask & (1 << i)) != 0`: layer i is drawn. */
  predicate IsLayerVisible(mask: Bits32, i: nat) {
    And(mask, ShiftOne(i)) != Zero
  }

  /** ChangeMask(index, value): `mask |= 1 << index` when value holds, `mask &= ~(1 << index)` otherwise. */
  function WithLayer(mask: Bits32, index: nat, value: bool): Bits32 {
    if value then Or(mask, ShiftOne(index)) else And(mask, Not(ShiftOne(index)))
  }

  /** Layer i is visible exactly when bit i mod 32 of the mask is set. */
  lemma VisibleIffBit(mask: Bits32, i: nat)
    ensures IsLayerVisible(mask, i) <==> mask[i % 32]
  {
    AndWithShiftOne(mask, i);
  }

  /** ChangeMask(index, value) sets bit index mod 32 to value and changes no other bit. */
  lemma WithLayerChangesOneBit(mask: Bits32, index: nat, value: bool)
    ensures WithLayer(mask, index, value) == mask[index % 32 := value]
  {
    var after := WithLayer(mask, index, value);
    forall k | 0 <= k < 32
      ensures after[k] == mask[index % 32 := value][k]
    {
      ShiftOneSetsOneBit(index, k);
    }
  }

  /**
   * After ChangeMask(index, value), layer index is visible exactly when value
   * holds, and a layer j with j mod 32 != index mod 32 is as visible as before.
   */
  lemma WithLayerSetsOnlyThatLayer(mask: Bits32, index: nat, value: bool, j: nat)
    ensures IsLayerVisible(WithLayer(mask, index, value), index) == value
    ensures j % 32 != index % 32 ==> IsLayerVisible(WithLayer(mask, index, value), j) == IsLayerVisible(mask, j)
  {
    WithLayerChangesOneBit(mask, index, value);
    VisibleIffBit(WithLayer(mask, index, value), index);
    VisibleIffBit(WithLayer(mask, index, value), j);
    VisibleIffBit(mask, j);
  }

  /** The initial mask int.MaxValue shows layers 0 to 30 and hides layer 31 (and so 63, 95, ...). */
  lemma InitialMaskShowsLayersBelow31(i: nat)
    ensures IsLayerVisible(MaxValue, i) <==> i % 32 != 31
  {
    VisibleIffBit(MaxValue, i);
  }

  /** The toggles a layer popup shows for `count` layers: toggle i is whether layer i is visible. */
  function Decoded(mask: Bits32, count: nat): (flags: seq<bool>)
    ensures |flags| == count
    ensures forall i :: 0 <= i < count ==> flags[i] == IsLayerVisible(mask, i)
  {
    seq(count, i requires 0 <= i < count => IsLayerVisible(mask, i))
  }

  /**
   * Flipping toggle index to value and forwarding it to ChangeMask keeps the
   * toggles and the mask in step, as long as no two layers share a bit (at
   * most 32 layers).
   */
  lemma {:induction false} ToggleKeepsPopupInStep(mask: Bits32, count: nat, index: nat, value: bool)
    requires index < count <= 32
    ensures Decoded(mask, count)[index := value] == Decoded(WithLayer(mask, index, value), count)
  {
    var before := Decoded(mask, count)[index := value];
    var after := Decoded(WithLayer(mask, index, value), count);
    forall j | 0 <= j < count
      ensures before[j] == after[j]
    {
      WithLayerSetsOnlyThatLayer(mask, index, value, j);
    }
  }

  /** With 33 layers they fall out of step: hiding layer 0 hides layer 32 too, whose toggle stays on. */
  lemma ToggleOutOfStepBeyond32Layers()
    ensures Decoded(MaxValue, 33)[0 := false] != Decoded(WithLayer(MaxValue, 0, false), 33)
  {
    InitialMaskShowsLayersBelow31(32);
    WithLayerChangesOneBit(MaxValue, 0, false);
    VisibleIffBit(WithLayer(MaxValue, 0, false), 32);
    assert Decoded(MaxValue, 33)[0 := false][32];
    assert !Decoded(WithLayer(MaxValue, 0, false), 33)[32];
  }

  /** initMask: a fresh array of `count` toggles, toggle i set when `(1 << i & mask) != 0`. */
  method InitMask(mask: Bits32, count: nat) returns (maskArray: array<bool>)
    ensures fresh(maskArray)
    ensures maskArray[..] == Decoded(mask, count)
  {
    maskArray := new bool[count];
    for i := 0 to count
      invariant forall k :: 0 <= k < i ==> maskArray[k] == IsLayerVisible(mask, k)
    {
      AndWithShiftOne(mask, i);
      maskArray[i] := And(ShiftOne(i), mask) != Zero;
    }
  }

  /** The layer popup: one toggle per layer of the level. */
  class LayerPopup {
    var maskArray: array<bool>

    /** LayerPopup(initialMask, count): the toggles start as the mask's bits. */
    constructor (initialMask: Bits32, count: nat)
      ensures fresh(maskArray)
      ensures maskArray[..] == Decoded(initialMask, count)
    {
      var toggles := InitMask(initialMask, count);
      maskArray := toggles;
    }

    /**
     * Element(index): a click flips toggle index and reports (index, new value)
     * to the OnMaskChange listener; without a click nothing changes or is reported.
     */
    method Element(index: nat, clicked: bool) returns (change: Option<(nat, bool)>)
      requires index < maskArray.Length
      modifies maskArray
      ensures !clicked ==> change == None && maskArray[..] == old(maskArray[..])
      ensures clicked ==> change == Some((index, !old(maskArray[index])))
      ensures clicked ==> maskArray[..] == old(maskArray[..])[index := !old(maskArray[index])]
    {
      if !clicked {
        return None;
      }
      maskArray[index] := !maskArray[index];
      change := Some((index, maskArray[index]));
    }
  }
}
