/**
 * Hit points of a game object. Damage is subtracted in 32-bit two's
 * complement arithmetic (C#'s default unchecked int) and the result clamped
 * to [0, maxHitPoints] with Mathf.Clamp.
 */
module Health {
  newtype int32 = x: int | -0x8000_0000 <= x < 0x8000_0000

  /** a - b in 32-bit two's complement: the true difference, wrapped into range. */
  function Sub32(a: int32, b: int32): (r: int32)
    ensures (a as int - b as int - r as int) % 0x1_0000_0000 == 0
    ensures -0x8000_0000 <= a as int - b as int < 0x8000_0000 ==> r as int == a as int - b as int
  {
    var d := a as int - b as int;
    if d < -0x8000_0000 then (d + 0x1_0000_0000) as int32
    else if d >= 0x8000_0000 then (d - 0x1_0000_0000) as int32
    else d as int32
  }

  /**
   * Mathf.Clamp(int value, int min, int max): below min gives min, otherwise
   * above max gives max (so min wins when min > max).
   */
  function Clamp(value: int32, min: int32, max: int32): (r: int32)
    ensures min <= max ==> min <= r <= max
    ensures min <= value <= max ==> r == value
    ensures r == value || r == min || r == max
  {
    if value < min then min else if value > max then max else value
  }

  /** The hit points TakeDamage leaves. */
  function AfterDamage(hitPoints: int32, maxHitPoints: int32, damage: int32): int32 {
    Clamp(Sub32(hitPoints, damage), 0, maxHitPoints)
  }

  class HealthComponent {
    var canBeDamaged: bool
    var hitPoints: int32
    var maxHitPoints: int32

    /** A component as Unity creates it: every field at its default. */
    constructor ()
      ensures !canBeDamaged && hitPoints == 0 && maxHitPoints == 0
    {
      canBeDamaged := false;
      hitPoints := 0;
      maxHitPoints := 0;
    }

    /** Init(hp, max): SetHP then SetMaxHP. */
    method Init(hp: int32, maxHP: int32)
      modifies this`hitPoints, this`maxHitPoints
      ensures hitPoints == hp && maxHitPoints == maxHP
    {
      SetHP(hp);
      SetMaxHP(maxHP);
    }

    /** SetHP: only the hit points change. */
    method SetHP(hp: int32)
      modifies this`hitPoints
      ensures hitPoints == hp
    {
      hitPoints := hp;
    }

    /** SetMaxHP: only the maximum changes. */
    method SetMaxHP(hp: int32)
      modifies this`maxHitPoints
      ensures maxHitPoints == hp
    {
      maxHitPoints := hp;
    }

    /**
     * TakeDamage: the hit points become clamp(hp - damage, 0, max); the result
     * says whether they reached zero (or below, when max is negative).
     */
    method TakeDamage(damage: int32) returns (dead: bool)
      modifies this`hitPoints
      ensures hitPoints == AfterDamage(old(hitPoints), maxHitPoints, damage)
      ensures dead <==> hitPoints <= 0
      ensures maxHitPoints >= 0 ==> 0 <= hitPoints <= maxHitPoints && (dead <==> hitPoints == 0)
    {
      hitPoints := Clamp(Sub32(hitPoints, damage), 0, maxHitPoints);
      return hitPoints <= 0;
    }
  }

  /** With a non-negative maximum, damage always leaves hit points in [0, max]. */
  lemma DamageStaysInBounds(hp: int32, max: int32, damage: int32)
    requires max >= 0
    ensures 0 <= AfterDamage(hp, max, damage) <= max
  {
  }

  /** Zero damage leaves in-range hit points as they are. */
  lemma ZeroDamageKeepsHitPoints(hp: int32, max: int32)
    requires 0 <= hp <= max
    ensures AfterDamage(hp, max, 0) == hp
  {
  }

  /**
   * Negative damage heals: up to the maximum and never beyond it, as long as
   * hp - damage does not overflow 32 bits.
   */
  lemma HealingCapsAtMax(hp: int32, max: int32, damage: int32)
    requires 0 <= hp <= max && damage < 0
    requires hp as int - damage as int < 0x8000_0000
    ensures hp <= AfterDamage(hp, max, damage) <= max
    ensures AfterDamage(hp, max, damage) as int == if hp as int - damage as int <= max as int then hp as int - damage as int else max as int
  {
  }

  /** Without that bound the difference wraps: a huge heal of a live object kills it. */
  lemma HugeHealWrapsToZero()
    ensures AfterDamage(10, 100, -0x7FFF_FFFF) == 0
  {
    assert Sub32(10, -0x7FFF_FFFF) as int == -0x7FFF_FFF7;
  }
}
