/**
 * The configuration records shared by the loader and the item classes: food
 * categories, per-effect descriptors and the food configuration itself.
 *
 * The declarations of FoodConfig, RFoodConfig, FoodCategory, RFoodCategory,
 * the "unused" sentinels and FoodConfig.Default are not part of this model;
 * the constants below stand for them and are left abstract, so every proof
 * holds whatever their values are.
 */
module FoodData {
  import opened Wrappers

  /** Floating-point values are modelled by reals (no rounding). */
  type Float = real

  /** The bounds of a Kotlin `Int`. */
  const INT_MIN: int := -0x8000_0000
  const INT_MAX: int := 0x7fff_ffff

  /** Kotlin's `Int` addition: the exact sum, wrapped around into 32 bits. */
  function AddInt(a: int, b: int): (r: int)
    ensures INT_MIN <= r <= INT_MAX
    ensures INT_MIN <= a + b <= INT_MAX ==> r == a + b
    ensures a + b > INT_MAX && a + b - 0x1_0000_0000 <= INT_MAX ==> r == a + b - 0x1_0000_0000
    ensures a + b < INT_MIN && a + b + 0x1_0000_0000 >= INT_MIN ==> r == a + b + 0x1_0000_0000
  {
    (a + b - INT_MIN) % 0x1_0000_0000 + INT_MIN
  }

  /** A food category: its name (an enum constant's name), its capabilities and its base values. */
  datatype Category = Category(
    name: string,
    canRot: bool,
    canOverdue: bool,
    canBePutInFridge: bool,
    baseHunger: int,
    baseSaturationModifier: Float)

  /** Enum constants are equal exactly when their names are, so MEAT is recognised by name. */
  predicate IsMeat(c: Category) {
    c.name == "MEAT"
  }

  /** An inclusive integer range `first..last`; empty when `first > last`. */
  datatype IntRange = IntRange(first: int, last: int) {
    predicate IsEmpty() {
      first > last
    }

    predicate Contains(v: int) {
      first <= v <= last
    }
  }

  /** A status-effect descriptor of a food configuration. */
  datatype EffectConfig = EffectConfig(
    statusEffect: string,
    duration: int,
    durationRange: Option<IntRange>,
    amplifier: int,
    amplifierRange: Option<IntRange>,
    chance: Float,
    isPermanent: bool,
    isAlwaysApplied: bool)

  /** The food configuration record. */
  datatype FoodConfig = FoodConfig(
    category: Category,
    rotSpeed: int,
    rotState: int,
    overdueSpeed: int,
    overdueState: int,
    fridgeEfficiency: int,
    saltEfficiency: int,
    hunger: int,
    saturationModifier: Float,
    effects: seq<EffectConfig>)

  /** The per-item freshness state; only FRESH is named by the item classes. */
  datatype FoodState = Fresh | OtherState(name: string)

  /** UNUSED_PROPERTY: the integer marker for "not given in the file". */
  const UNUSED_PROPERTY: int

  /** UNUSED_PROPERTY_FLOAT: the float marker for "not given in the file". */
  const UNUSED_PROPERTY_FLOAT: Float

  /** FoodConfig.Default: what the storage answers for a name it does not hold. */
  const Default: FoodConfig

  /** The values a fresh `config { }` builder starts from. */
  const BuilderDefaults: FoodConfig
}
