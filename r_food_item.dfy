/** The fresh-food item built from an RFoodConfig: its food component and its initial state. */
module RFoodItems {
  import opened Wrappers
  import opened FoodData
  import opened FoodComponents

  /**
   * The component the public constructor builds: hunger is the category's
   * base hunger plus the config's, as a Kotlin `Int` sum (wrapping around in
   * 32 bits), saturation the base saturation plus the config's, meat iff the
   * category is MEAT, snack iff that same hunger sum is below 2, and one
   * resolved status effect per effect descriptor, in order.
   */
  ghost predicate IsComponentOf(config: FoodConfig, component: FoodComponent) {
    && component.hunger == AddInt(config.category.baseHunger, config.hunger)
    && component.saturationModifier == config.category.baseSaturationModifier + config.saturationModifier
    && (component.meat <==> IsMeat(config.category))
    && (component.snack <==> AddInt(config.category.baseHunger, config.hunger) < 2)
    && component.alwaysEdible == EMPTY_BUILDER.alwaysEdible
    && ResolvesAll(config.effects, component.statusEffects)
  }

  /** The component-building lambda of the public constructor. */
  method BuildComponent(config: FoodConfig) returns (r: Result<FoodComponent, ConstructionError>)
    ensures r.Failure? <==> exists i :: 0 <= i < |config.effects| && HasEmptyRange(config.effects[i])
    ensures r.Success? ==> IsComponentOf(config, r.value)
  {
    var builder := EMPTY_BUILDER;
    builder := builder.(hunger := AddInt(config.category.baseHunger, config.hunger));
    if IsMeat(config.category) {
      builder := builder.(meat := true);
    }
    if AddInt(config.category.baseHunger, config.hunger) < 2 {
      builder := builder.(snack := true);
    }
    builder := builder.(saturationModifier := config.category.baseSaturationModifier + config.saturationModifier);
    var effects :- AttachEffects(config.effects);
    builder := builder.(statusEffects := builder.statusEffects + effects);
    r := Success(builder);
  }

  /** When no effect descriptor has a range, the constructor builds one component only. */
  lemma ComponentDeterminedWithoutRanges(config: FoodConfig, a: FoodComponent, b: FoodComponent)
    requires forall i :: 0 <= i < |config.effects| ==>
               config.effects[i].durationRange.None? && config.effects[i].amplifierRange.None?
    requires IsComponentOf(config, a) && IsComponentOf(config, b)
    ensures a == b
  {
    FixedEffectsUnique(config.effects, a.statusEffects, b.statusEffects);
  }

  /** Without overflow, the component's hunger is the plain sum, and snack means that sum is below 2. */
  lemma HungerWithoutOverflow(config: FoodConfig, component: FoodComponent)
    requires INT_MIN <= config.category.baseHunger + config.hunger <= INT_MAX
    requires IsComponentOf(config, component)
    ensures component.hunger == config.category.baseHunger + config.hunger
    ensures component.snack <==> config.category.baseHunger + config.hunger < 2
  {
  }

  /**
   * A hunger sum beyond the `Int` range wraps around: base hunger 1 with a
   * config hunger of 2147483647 gives hunger -2147483648, which is a snack.
   */
  lemma OverflowingHungerWraps(config: FoodConfig, component: FoodComponent)
    requires config.category.baseHunger == 1 && config.hunger == INT_MAX
    requires IsComponentOf(config, component)
    ensures component.hunger == INT_MIN
    ensures component.snack
  {
  }

  class RFoodItem {
    const config: FoodConfig
    const component: FoodComponent
    var state: FoodState
    var overrideEffects: bool

    /** The protected constructor, given the component its lambda returns. */
    constructor (config: FoodConfig, component: FoodComponent)
      ensures this.config == config && this.component == component
      ensures state == Fresh && !overrideEffects
    {
      this.config := config;
      this.component := component;
      state := Fresh;
      overrideEffects := false;
    }

    /** The public constructor: builds the component from the config; an empty range aborts it. */
    static method FromConfig(config: FoodConfig) returns (r: Result<RFoodItem, ConstructionError>)
      ensures r.Failure? <==> exists i :: 0 <= i < |config.effects| && HasEmptyRange(config.effects[i])
      ensures r.Success? ==> && fresh(r.value)
                             && r.value.config == config
                             && IsComponentOf(config, r.value.component)
                             && r.value.state == Fresh && !r.value.overrideEffects
    {
      var component :- BuildComponent(config);
      var item := new RFoodItem(config, component);
      r := Success(item);
    }
  }
}
