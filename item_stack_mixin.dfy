/**
 * Saving and restoring an advanced food item's profile in the item stack's
 * NBT compound. The NBT compound is a typed map from key to tag; the fridge
 * state's serialiser writes and reads one tag under its key.
 */
module ProfileNbt {

  type Int8 = x: int | -0x80 <= x < 0x80
  type Int32 = x: int | -0x8000_0000 <= x < 0x8000_0000
  type Int64 = x: int | -0x8000_0000_0000_0000 <= x < 0x8000_0000_0000_0000

  /** FridgeState is not part of this model: an abstract value with a default. */
  type FridgeState(==, 0)

  /** What the fridge-state serialiser reads where it finds no fridge state. */
  const DEFAULT_FRIDGE_STATE: FridgeState

  const ROT_PROGRESS_KEY: string := "Rot Progress"
  const OVERDUE_PROGRESS_KEY: string := "Overdue Progress"
  const PREVIOUS_TICK_KEY: string := "Previous World Tick"
  const INITIALIZED_KEY: string := "Is Initialized"
  const FRIDGE_STATE_KEY: string := "Fridge State"

  /** The keys the profile is stored under; the hooks touch no other key. */
  const PROFILE_KEYS: set<string> :=
    {ROT_PROGRESS_KEY, OVERDUE_PROGRESS_KEY, PREVIOUS_TICK_KEY, INITIALIZED_KEY, FRIDGE_STATE_KEY}

  /** An NBT tag: the kinds the profile uses, and any other kind, left opaque. */
  datatype Tag = IntTag(i: Int32) | LongTag(l: Int64) | ByteTag(b: Int8) | FridgeTag(state: FridgeState) | OtherTag(kind: nat)

  // The getters of a compound: the value of a tag of the getter's own kind, zero otherwise.

  function IntAt(m: map<string, Tag>, key: string): Int32 {
    if key in m && m[key].IntTag? then m[key].i else 0
  }

  function LongAt(m: map<string, Tag>, key: string): Int64 {
    if key in m && m[key].LongTag? then m[key].l else 0
  }

  function ByteAt(m: map<string, Tag>, key: string): Int8 {
    if key in m && m[key].ByteTag? then m[key].b else 0
  }

  /** `getBoolean`: a byte tag other than zero. */
  function BoolAt(m: map<string, Tag>, key: string): bool {
    ByteAt(m, key) != 0
  }

  /** `putBoolean` stores a byte tag: 1 for true, 0 for false. */
  function BoolTag(b: bool): Tag {
    ByteTag(if b then 1 else 0)
  }

  /** `FridgeState.Serialization.readNbt`. */
  function FridgeAt(m: map<string, Tag>, key: string): FridgeState {
    if key in m && m[key].FridgeTag? then m[key].state else DEFAULT_FRIDGE_STATE
  }

  /** The mutable NBT compound. */
  class NbtCompound {
    var entries: map<string, Tag>

    constructor (entries: map<string, Tag>)
      ensures this.entries == entries
    {
      this.entries := entries;
    }

    method PutInt(key: string, value: Int32)
      modifies this
      ensures entries == old(entries)[key := IntTag(value)]
    {
      entries := entries[key := IntTag(value)];
    }

    method PutLong(key: string, value: Int64)
      modifies this
      ensures entries == old(entries)[key := LongTag(value)]
    {
      entries := entries[key := LongTag(value)];
    }

    method PutBoolean(key: string, value: bool)
      modifies this
      ensures entries == old(entries)[key := BoolTag(value)]
    {
      entries := entries[key := BoolTag(value)];
    }

    /** `FridgeState.Serialization.writeNbt`: one tag under the given key. */
    method PutFridgeState(key: string, state: FridgeState)
      modifies this
      ensures entries == old(entries)[key := FridgeTag(state)]
    {
      entries := entries[key := FridgeTag(state)];
    }
  }

  /** The value of a food profile's fields. */
  datatype ProfileData = ProfileData(
    rotProgress: Int32,
    overdueProgress: Int32,
    previousTick: Int64,
    initialized: bool,
    fridgeState: FridgeState)

  /** The mutable food profile of an advanced food item. */
  class FoodProfile {
    var rotProgress: Int32
    var overdueProgress: Int32
    var previousTick: Int64
    var initialized: bool
    var fridgeState: FridgeState

    function Data(): ProfileData
      reads this
    {
      ProfileData(rotProgress, overdueProgress, previousTick, initialized, fridgeState)
    }
  }

  /** The compound after `writeNbt` has stored profile `d` into `m`: exactly the five profile keys are added or replaced. */
  function Written(m: map<string, Tag>, d: ProfileData): (w: map<string, Tag>)
    ensures w.Keys == m.Keys + PROFILE_KEYS
    ensures forall k :: k in m && k !in PROFILE_KEYS ==> w[k] == m[k]
  {
    m[ROT_PROGRESS_KEY := IntTag(d.rotProgress)]
     [OVERDUE_PROGRESS_KEY := IntTag(d.overdueProgress)]
     [PREVIOUS_TICK_KEY := LongTag(d.previousTick)]
     [INITIALIZED_KEY := BoolTag(d.initialized)]
     [FRIDGE_STATE_KEY := FridgeTag(d.fridgeState)]
  }

  /**
   * The profile the constructor hook reads from `m`. A compound that holds
   * none of the profile keys reads as zero progress, tick zero, not
   * initialised, and the default fridge state.
   */
  function ReadBack(m: map<string, Tag>): (d: ProfileData)
    ensures (forall k :: k in PROFILE_KEYS ==> k !in m) ==> d == ProfileData(0, 0, 0, false, DEFAULT_FRIDGE_STATE)
  {
    ProfileData(IntAt(m, ROT_PROGRESS_KEY), IntAt(m, OVERDUE_PROGRESS_KEY), LongAt(m, PREVIOUS_TICK_KEY),
                BoolAt(m, INITIALIZED_KEY), FridgeAt(m, FRIDGE_STATE_KEY))
  }

  /** Reading back what was written yields the profile that was written, whatever the compound held before. */
  lemma ReadAfterWrite(m: map<string, Tag>, d: ProfileData)
    ensures ReadBack(Written(m, d)) == d
  {
  }

  /** The profile read depends on the profile keys only. */
  lemma ReadDependsOnProfileKeys(m: map<string, Tag>, m': map<string, Tag>)
    requires forall k :: k in PROFILE_KEYS ==> (k in m <==> k in m') && (k in m ==> m[k] == m'[k])
    ensures ReadBack(m) == ReadBack(m')
  {
  }

  /** A stack's item: an advanced food item with its profile, or any other item. */
  datatype Item = AdvancedFoodItem(profile: FoodProfile) | OtherItem

  /** The hooks added to ItemStack. */
  class ItemStack {
    const item: Item

    constructor (item: Item)
      ensures this.item == item
    {
      this.item := item;
    }

    /** The objects the constructor hook may change: the item's profile, if it has one. */
    function ProfileFrame(): set<object> {
      if item.AdvancedFoodItem? then {item.profile} else {}
    }

    /** `utopia$constructor`: sets each profile field from its key; other items are left alone. */
    method ConstructorHook(nbt: NbtCompound)
      modifies ProfileFrame()
      ensures item.AdvancedFoodItem? ==> item.profile.Data() == ReadBack(nbt.entries)
    {
      if !item.AdvancedFoodItem? {
        return;
      }
      var profile := item.profile;
      profile.rotProgress := IntAt(nbt.entries, ROT_PROGRESS_KEY);
      profile.overdueProgress := IntAt(nbt.entries, OVERDUE_PROGRESS_KEY);
      profile.previousTick := LongAt(nbt.entries, PREVIOUS_TICK_KEY);
      profile.initialized := BoolAt(nbt.entries, INITIALIZED_KEY);
      profile.fridgeState := FridgeAt(nbt.entries, FRIDGE_STATE_KEY);
    }

    /** `utopia$writeNbt`: stores each profile field under its key; other items leave the compound alone. */
    method WriteNbtHook(nbt: NbtCompound)
      modifies nbt
      ensures item.AdvancedFoodItem? ==> nbt.entries == Written(old(nbt.entries), item.profile.Data())
      ensures !item.AdvancedFoodItem? ==> nbt.entries == old(nbt.entries)
    {
      if !item.AdvancedFoodItem? {
        return;
      }
      var profile := item.profile;
      nbt.PutInt(ROT_PROGRESS_KEY, profile.rotProgress);
      nbt.PutInt(OVERDUE_PROGRESS_KEY, profile.overdueProgress);
      nbt.PutLong(PREVIOUS_TICK_KEY, profile.previousTick);
      nbt.PutBoolean(INITIALIZED_KEY, profile.initialized);
      nbt.PutFridgeState(FRIDGE_STATE_KEY, profile.fridgeState);
    }
  }

  /**
   * Saving one stack's profile and loading a stack from the saved compound
   * gives the second stack's profile the value of the first's.
   */
  method SaveThenLoad(saved: ItemStack, loaded: ItemStack, nbt: NbtCompound)
    requires saved.item.AdvancedFoodItem? && loaded.item.AdvancedFoodItem?
    modifies nbt, loaded.ProfileFrame()
    ensures loaded.item.profile.Data() == old(saved.item.profile.Data())
  {
    saved.WriteNbtHook(nbt);
    loaded.ConstructorHook(nbt);
    ReadAfterWrite(old(nbt.entries), old(saved.item.profile.Data()));
  }
}
