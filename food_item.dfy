/** The fresh-food item built from a FoodConfig: its food component and its initial state. */
module FoodItems {
  import opened Wrappers
  import opened FoodData
  import opened FoodComponents
  import RFoodItems

  /**
   * The component the public constructor builds: only the meat flag (iff the
   * category is MEAT) and one resolved status effect per descriptor, in
   * order; hunger, saturation and the snack flag keep the builder's values.
   */
  ghost predicate IsComponentOf(config: FoodConfig, component: FoodComponent) {
    && component.hunger == EMPTY_BUILDER.hunger
    && component.saturationModifier == EMPTY_BUILDER.saturationModifier
    && component.snack == EMPTY_BUILDER.snack
    && component.alwaysEdible == EMPTY_BUILDER.alwaysEdible
    && (component.meat <==> IsMeat(config.category))
    && ResolvesAll(config.effects, component.statusEffects)
  }

  /** The component-building lambda of the public constructor. */
  method BuildComponent(config: FoodConfig) returns (r: Result<FoodComponent, ConstructionError>)
    ensures r.Failure? <==> exists i :: 0 <= i < |config.effects| && HasEmptyRange(config.effects[i])
    ensures r.Success? ==> IsComponentOf(config, r.value)
  {
    var builder := EMPTY_BUILDER;
    if IsMeat(config.category) {
      builder := builder.(meat := true);
    }
    var effects :- AttachEffects(config.effects);
    builder := builder.(statusEffects := builder.statusEffects + effects);
    r := Success(builder);
  }

  /**
   * The two item classes agree on the meat flag and the effects: a component
   * of the other class, with hunger, saturation and snack reset to the
   * builder's values, is one of this class.
   */
  lemma AgreesWithRFoodComponent(config: FoodConfig, component: FoodComponent)
    requires RFoodItems.IsComponentOf(config, component)
    ensures IsComponentOf(config, component.(hunger := EMPTY_BUILDER.hunger,
                                             saturationModifier := EMPTY_BUILDER.saturationModifier,
                                             snack := EMPTY_BUILDER.snack))
  {
  }

  class FoodItem {
    const config: FoodConfig
    const component: FoodComponent
    var state: FoodState
    var overrideEffects: bool

    /** The protected constructor, given the component its lambda returns. */
    constructor (config: FoodConfig, component: FoodComponent)
      ensures this.config == config && this.component == component
      ensures state == Fresh && !overrideEffects
    {
      this.config := config;
      this.component := component;
      state := Fresh;
      overrideEffects := false;
    }

    /** The public constructor: builds the component from the config; an empty range aborts it. */
    static method FromConfig(config: FoodConfig) returns (r: Result<FoodItem, ConstructionError>)
      ensures r.Failure? <==> exists i :: 0 <= i < |config.effects| && HasEmptyRange(config.effects[i])
      ensures r.Success? ==> && fresh(r.value)
                             && r.value.config == config
                             && IsComponentOf(config, r.value.component)
                             && r.value.state == Fresh && !r.value.overrideEffects
    {
      var component :- BuildComponent(config);
      var item := new FoodItem(config, component);
      r := Success(item);
    }
  }
}
