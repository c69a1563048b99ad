/**
 * The engine's food component, as a plain record, and the resolution of one
 * effect descriptor into a status effect with its chance: the part of the
 * component-building lambda that both food item classes share.
 */
module FoodComponents {
  import opened Wrappers
  import opened FoodData

  /** The duration given to a permanent effect that has no duration range. */
  const PERMANENT_DURATION: int := 999999

  /** A status effect as attached to a food: effect id, duration and amplifier. */
  datatype StatusEffectInstance = StatusEffectInstance(effect: string, duration: int, amplifier: int)

  /** An attached effect together with the probability that eating applies it. */
  datatype ChanceEffect = ChanceEffect(instance: StatusEffectInstance, chance: Float)

  /** The engine's FoodComponent, with the fields its builder sets. */
  datatype FoodComponent = FoodComponent(
    hunger: int,
    saturationModifier: Float,
    meat: bool,
    alwaysEdible: bool,
    snack: bool,
    statusEffects: seq<ChanceEffect>)

  /** What a fresh `FoodComponent.Builder()` holds: nothing set. */
  const EMPTY_BUILDER: FoodComponent := FoodComponent(0, 0.0, false, false, false, [])

  /** Picking from an inclusive range fails on an empty range. */
  datatype ConstructionError = EmptyRange(range: IntRange)

  /** IntRange.pick: some value of the range, chosen arbitrarily; an empty range has none. */
  method Pick(range: IntRange) returns (r: Result<int, ConstructionError>)
    ensures r.Failure? <==> range.IsEmpty()
    ensures r.Success? ==> range.Contains(r.value)
    ensures r.Failure? ==> r.error == EmptyRange(range)
  {
    if range.IsEmpty() {
      return Failure(EmptyRange(range));
    }
    var v :| range.first <= v <= range.last;
    r := Success(v);
  }

  /** The descriptor has a range to pick from that is empty. */
  predicate HasEmptyRange(e: EffectConfig) {
    || (e.durationRange.Some? && e.durationRange.value.IsEmpty())
    || (e.amplifierRange.Some? && e.amplifierRange.value.IsEmpty())
  }

  /** The duration rule: fixed (999999 when permanent) without a range, a member of the range with one. */
  predicate DurationAllowed(e: EffectConfig, duration: int) {
    match e.durationRange
    case None => duration == (if e.isPermanent then PERMANENT_DURATION else e.duration)
    case Some(range) => range.Contains(duration)
  }

  /** The amplifier rule: the fixed amplifier without a range, a member of the range with one. */
  predicate AmplifierAllowed(e: EffectConfig, amplifier: int) {
    match e.amplifierRange
    case None => amplifier == e.amplifier
    case Some(range) => range.Contains(amplifier)
  }

  /** `ce` is a possible resolution of the descriptor `e`. */
  predicate ResolvesTo(e: EffectConfig, ce: ChanceEffect) {
    && ce.instance.effect == e.statusEffect
    && DurationAllowed(e, ce.instance.duration)
    && AmplifierAllowed(e, ce.instance.amplifier)
    && ce.chance == (if e.isAlwaysApplied then 1.0 else e.chance)
  }

  /** Resolve one effect descriptor: duration, then amplifier, then chance. */
  method ResolveEffect(e: EffectConfig) returns (r: Result<ChanceEffect, ConstructionError>)
    ensures r.Failure? <==> HasEmptyRange(e)
    ensures r.Success? ==> ResolvesTo(e, r.value)
  {
    var duration: int;
    if e.durationRange.None? {
      duration := if e.isPermanent then PERMANENT_DURATION else e.duration;
    } else {
      var picked := Pick(e.durationRange.value);
      if picked.Failure? {
        return Failure(picked.error);
      }
      duration := picked.value;
    }
    var amplifier: int;
    if e.amplifierRange.None? {
      amplifier := e.amplifier;
    } else {
      var picked := Pick(e.amplifierRange.value);
      if picked.Failure? {
        return Failure(picked.error);
      }
      amplifier := picked.value;
    }
    var chance := if e.isAlwaysApplied then 1.0 else e.chance;
    r := Success(ChanceEffect(StatusEffectInstance(e.statusEffect, duration, amplifier), chance));
  }

  /** One resolved effect per descriptor, in order. */
  ghost predicate ResolvesAll(effects: seq<EffectConfig>, resolved: seq<ChanceEffect>) {
    && |resolved| == |effects|
    && forall i :: 0 <= i < |effects| ==> ResolvesTo(effects[i], resolved[i])
  }

  /**
   * The loop `effects.forEach { builder.statusEffect(...) }` over a builder
   * that has no effects yet: one resolved effect per descriptor, in order; the
   * first empty range aborts the construction.
   */
  method AttachEffects(effects: seq<EffectConfig>) returns (r: Result<seq<ChanceEffect>, ConstructionError>)
    ensures r.Failure? <==> exists i :: 0 <= i < |effects| && HasEmptyRange(effects[i])
    ensures r.Success? ==> ResolvesAll(effects, r.value)
  {
    var attached: seq<ChanceEffect> := [];
    for i := 0 to |effects|
      invariant |attached| == i
      invariant forall k :: 0 <= k < i ==> !HasEmptyRange(effects[k])
      invariant forall k :: 0 <= k < i ==> ResolvesTo(effects[k], attached[k])
    {
      var one := ResolveEffect(effects[i]);
      if one.Failure? {
        return Failure(one.error);
      }
      attached := attached + [one.value];
    }
    r := Success(attached);
  }

  /** Without ranges the resolution is determined: any two resolutions agree. */
  lemma FixedResolutionUnique(e: EffectConfig, a: ChanceEffect, b: ChanceEffect)
    requires e.durationRange.None? && e.amplifierRange.None?
    requires ResolvesTo(e, a) && ResolvesTo(e, b)
    ensures a == b
  {
  }

  /** When no descriptor has a range, the resolved effect list is determined by the descriptors. */
  lemma {:induction false} FixedEffectsUnique(effects: seq<EffectConfig>, a: seq<ChanceEffect>, b: seq<ChanceEffect>)
    requires forall i :: 0 <= i < |effects| ==> effects[i].durationRange.None? && effects[i].amplifierRange.None?
    requires ResolvesAll(effects, a) && ResolvesAll(effects, b)
    ensures a == b
  {
    forall i | 0 <= i < |effects| ensures a[i] == b[i] {
      FixedResolutionUnique(effects[i], a[i], b[i]);
    }
  }

  /**
   * Every resolution keeps its duration inside the range when one is given,
   * and 999999 for a permanent fixed effect: DurationAllowed, unfolded case by case.
   */
  lemma ResolvedDurationBounds(e: EffectConfig, ce: ChanceEffect)
    requires ResolvesTo(e, ce)
    ensures e.durationRange.Some? ==> e.durationRange.value.first <= ce.instance.duration <= e.durationRange.value.last
    ensures e.durationRange.None? && e.isPermanent ==> ce.instance.duration == PERMANENT_DURATION
    ensures e.durationRange.None? && !e.isPermanent ==> ce.instance.duration == e.duration
  {
  }
}
