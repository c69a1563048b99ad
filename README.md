# Utopia food configs, food components and profile NBT: a Dafny model

This project models three sequential pieces of the Utopia Fabric mod.

- **Food-config loader and cache** (`ConfigData.kt`). This covers:
  - the storage name of a config resource (`utopia:config/almond.config.json` is stored as `almond`);
  - `process`, the validator: `category`, `hunger` and `saturationModifier` are always required, the rot, overdue and fridge properties only when the category allows them, and `saltEfficiency` is optional;
  - the `config { }` builder, which overrides a default only when the parsed value is not the `UNUSED_PROPERTY` sentinel;
  - `FoodConfigStorage`, a name-keyed cache with `get` (falling back to `FoodConfig.Default`), `put` and `clear`, and `storedConfig`;
  - the `ComponentInitializeCallback` invoker, which calls every listener in array order;
  - `reload`, which clears the cache and then processes every resource in order.
- **Food-component construction** (`RFoodItem.kt`, `FoodItem.kt`). The public constructors' component-building lambdas turn a config into a food component:
  - hunger, saturation and the meat and snack flags;
  - one status effect per effect descriptor, with the fixed, permanent or ranged duration and amplifier, and the chance forced to 1 for an always-applied effect.

  A new item starts `FRESH` with `overrideEffects` false.
- **Profile NBT serialisation** (`ItemStackMixin.java`). The constructor hook reads an advanced food item's profile from an NBT compound, and the `writeNbt` hook writes it. We prove the read-after-write round trip, that only the five profile keys are touched, and that other items are left alone.

Modules, one per concern:

| file | module | contents |
|---|---|---|
| `wrappers.dfy` | `Wrappers` | `Option`, `Result` |
| `food_data.dfy` | `FoodData` | categories, effect descriptors, the food config record, the food state, the abstract sentinels and defaults |
| `names.dfy` | `ConfigNames` | `String.remove` and the storage name |
| `config_parsing.dfy` | `ConfigParsing` | `process`'s reading, validation and building, and the validator's table |
| `config_reload.dfy` | `ConfigReload` | the storage, the callback event, `process`'s store-then-announce, and `reload` |
| `food_components.dfy` | `FoodComponents` | the component record, `IntRange.pick` and the effect resolution both item classes share |
| `r_food_item.dfy` | `RFoodItems` | the fresh-food item built from an RFoodConfig |
| `food_item.dfy` | `FoodItems` | the fresh-food item built from a FoodConfig |
| `item_stack_mixin.dfy` | `ProfileNbt` | the NBT compound, the food profile and the two item-stack hooks |

Two behaviours of the code are worth stating up front:

- A failing file stops the reload. The exception escapes `forEach`, so the files after it are not processed, and the files before it stay stored and announced (`ConfigReload.ReloadStopsAtFirstFailure`).
- `String.remove` deletes every occurrence of the segment from the whole identifier string, in one left-to-right pass (`ConfigNames.Remove`). So `utopia:config/<n>.config.json` is stored under `n` when `n` holds no further copy of either segment (`ConfigNames.StorageNameOfConfigFile`).

## Model

| member | source | states |
|---|---|---|
| ConfigNames.Remove | src/main/kotlin/com/redgrapefruit/utopia/common/core/ConfigData.kt:147 | removing a segment never lengthens the string, and removing a segment that occurs at the start makes it strictly shorter |
| ConfigNames.RemoveAbsent | src/main/kotlin/com/redgrapefruit/utopia/common/core/ConfigData.kt:147 | a segment that occurs nowhere in the string leaves the string unchanged |
| ConfigNames.RemoveLeading | src/main/kotlin/com/redgrapefruit/utopia/common/core/ConfigData.kt:147 | a leading occurrence of the segment is dropped and the scan continues after it |
| ConfigNames.RemoveTrailing | src/main/kotlin/com/redgrapefruit/utopia/common/core/ConfigData.kt:147 | a trailing segment with no earlier occurrence is removed exactly, leaving the text before it |
| ConfigNames.StorageNameOfConfigFile | src/main/kotlin/com/redgrapefruit/utopia/common/core/ConfigData.kt:40-41 | the resource `utopia:config/<n>.config.json` is stored under `n`, for every `n` that holds no copy of the prefix and starts no copy of the suffix |
| ConfigNames.StorageName | src/main/kotlin/com/redgrapefruit/utopia/common/core/ConfigData.kt:41 | the storage name is never longer than the identifier string, and is that string itself when it holds neither the prefix nor the suffix |
| ConfigNames.AlmondStorageName | src/main/kotlin/com/redgrapefruit/utopia/common/core/ConfigData.kt:40-41 | `utopia:config/almond.config.json` is stored under `almond` |
| ConfigParsing.Spaced | src/main/kotlin/com/redgrapefruit/utopia/common/core/ConfigData.kt:100 | the food name in a message has the same length, keeps every character other than `_` in place, and has a space wherever the name has `_` |
| ConfigParsing.MissingMessage | src/main/kotlin/com/redgrapefruit/utopia/common/core/ConfigData.kt:100 | the message starts with `Missing `, ends with `; a crash may occur`, and is 42 characters longer than the property and food names together |
| ConfigParsing.MissingMessageNames | src/main/kotlin/com/redgrapefruit/utopia/common/core/ConfigData.kt:100 | a missing-property message contains the property name and the food name with underscores turned into spaces |
| ConfigParsing.AssertConfigProperty | src/main/kotlin/com/redgrapefruit/utopia/common/core/ConfigData.kt:99-101 | succeeds exactly when the value is present; a present value is returned unchanged; an absent one fails with the missing-property message for that property and food |
| ConfigParsing.Override | src/main/kotlin/com/redgrapefruit/utopia/common/core/ConfigData.kt:83-90 | a parsed value is taken unless it equals the sentinel, in which case the default is kept |
| ConfigParsing.Build | src/main/kotlin/com/redgrapefruit/utopia/common/core/ConfigData.kt:81-91 | the built config has the parsed category; every other field is the parsed value unless that value is the sentinel, else the builder default; the effects are the builder's |
| ConfigParsing.ParseFields | src/main/kotlin/com/redgrapefruit/utopia/common/core/ConfigData.kt:52-78 | when reading succeeds, the file's `category` names the category read, and the file gives every property that category requires |
| ConfigParsing.Parse | src/main/kotlin/com/redgrapefruit/utopia/common/core/ConfigData.kt:52-91 | when processing succeeds, the config's category is the one the file names, the file gives every property it requires, and the effects are the builder's |
| ConfigParsing.ReadIntKeys | src/main/kotlin/com/redgrapefruit/utopia/common/core/ConfigData.kt:55-77 | the integer properties a file is read for are integer properties of a config |
| ConfigParsing.ParseSucceedsIff | src/main/kotlin/com/redgrapefruit/utopia/common/core/ConfigData.kt:52-78 | processing succeeds exactly when the file names a known category, gives every property that category requires, and every property read has a value of the right type |
| ConfigParsing.AlwaysRequiredMissingFails | src/main/kotlin/com/redgrapefruit/utopia/common/core/ConfigData.kt:52-53 | a file without `category`, `hunger` or `saturationModifier` fails, whatever its category |
| ConfigParsing.UnrequiredKeysIgnored | src/main/kotlin/com/redgrapefruit/utopia/common/core/ConfigData.kt:55-72 | rot, overdue and fridge properties the category does not require are never read: removing them from the file changes neither the outcome nor the config |
| ConfigParsing.ParsedValuesOverrideDefaults | src/main/kotlin/com/redgrapefruit/utopia/common/core/ConfigData.kt:52-91 | a successful config has the file's category; each integer property read takes the file's value unless it is the sentinel; every property not read, including an absent `saltEfficiency`, keeps the builder default; the same holds for saturation |
| ConfigParsing.ParsedFieldValues | src/main/kotlin/com/redgrapefruit/utopia/common/core/ConfigData.kt:52-78 | each parsed integer, by key, is the file's value for a property the category reads and the sentinel for one it does not |
| ConfigParsing.ParsedFieldsExplicit | src/main/kotlin/com/redgrapefruit/utopia/common/core/ConfigData.kt:52-78 | field by field: rot, overdue and fridge values come from the file when the category allows them and are the sentinel otherwise; salt comes from the file when present; hunger and saturation always come from the file |
| ConfigParsing.FieldsByKey | src/main/kotlin/com/redgrapefruit/utopia/common/core/ConfigData.kt:55-77 | the per-field description of the parsed values, restated per JSON key |
| ConfigParsing.BuildByKey | src/main/kotlin/com/redgrapefruit/utopia/common/core/ConfigData.kt:83-89 | the builder's sentinel rule, per integer property, by key |
| ConfigParsing.ErrorsNameTheirProperty | src/main/kotlin/com/redgrapefruit/utopia/common/core/ConfigData.kt:52-78 | a missing-property error names a property absent from the file; a conversion error names a property present in it; an unknown-category error carries the file's category value |
| ConfigReload.FoodConfigStorage.constructor | src/main/kotlin/com/redgrapefruit/utopia/common/core/ConfigData.kt:110 | the storage starts empty |
| ConfigReload.FoodConfigStorage.Get | src/main/kotlin/com/redgrapefruit/utopia/common/core/ConfigData.kt:112-114 | a stored name resolves to its config; any other name resolves to `FoodConfig.Default` |
| ConfigReload.FoodConfigStorage.Put | src/main/kotlin/com/redgrapefruit/utopia/common/core/ConfigData.kt:116-118 | the name is mapped to the config; reading it back gives the config; every other name reads as before |
| ConfigReload.FoodConfigStorage.Clear | src/main/kotlin/com/redgrapefruit/utopia/common/core/ConfigData.kt:120 | the storage is empty and every name resolves to `FoodConfig.Default` |
| ConfigReload.StoredConfig | src/main/kotlin/com/redgrapefruit/utopia/common/core/ConfigData.kt:142 | a name never loaded gives `FoodConfig.Default`; a stored name gives its stored config |
| ConfigReload.Fanout | src/main/kotlin/com/redgrapefruit/utopia/common/core/ConfigData.kt:156-161 | the invoker makes one call per listener |
| ConfigReload.FanoutAt | src/main/kotlin/com/redgrapefruit/utopia/common/core/ConfigData.kt:158-160 | call `i` goes to listener `i`, with the same name and config for every listener |
| ConfigReload.InitializeEvent.constructor | src/main/kotlin/com/redgrapefruit/utopia/common/core/ConfigData.kt:156-157 | the event holds the registered listeners and has delivered nothing |
| ConfigReload.InitializeEvent.Invoke | src/main/kotlin/com/redgrapefruit/utopia/common/core/ConfigData.kt:158-160 | invoking appends exactly the fan-out of `(name, config)` to the call log |
| ConfigReload.Processing | src/main/kotlin/com/redgrapefruit/utopia/common/core/ConfigData.kt:34-41 | each resource, in order, paired with its storage name and its parse outcome |
| ConfigReload.ProcessResult | src/main/kotlin/com/redgrapefruit/utopia/common/core/ConfigData.kt:39-91 | a resource parses exactly when its decoded object is accepted by the validator's table |
| ConfigReload.ReloadFrom | src/main/kotlin/com/redgrapefruit/utopia/common/core/ConfigData.kt:34-36 | processing files in order never shortens the listener-call log |
| ConfigReload.ReloadStoresEveryName | src/main/kotlin/com/redgrapefruit/utopia/common/core/ConfigData.kt:34-36 | a completed reload stores the name of every file it processed, and keeps every name already stored |
| ConfigReload.ReloadNamesFromResources | src/main/kotlin/com/redgrapefruit/utopia/common/core/ConfigData.kt:34-94 | processing files adds only the storage names of those files |
| ConfigReload.ReloadCompletesIff | src/main/kotlin/com/redgrapefruit/utopia/common/core/ConfigData.kt:34-36 | a reload completes exactly when every file parses |
| ConfigReload.ReloadStopsAtFirstFailure | src/main/kotlin/com/redgrapefruit/utopia/common/core/ConfigData.kt:34-78 | a failing reload reports the error of the first failing file, and leaves exactly the storage and call log of processing the files before it |
| ConfigReload.ReloadExtendsLog | src/main/kotlin/com/redgrapefruit/utopia/common/core/ConfigData.kt:96 | a reload only appends to the listener-call log |
| ConfigReload.ReloadLog | src/main/kotlin/com/redgrapefruit/utopia/common/core/ConfigData.kt:34-96 | a completed reload appends exactly the announcements of its files, file after file, to the call log |
| ConfigReload.AnnouncementsSnoc | src/main/kotlin/com/redgrapefruit/utopia/common/core/ConfigData.kt:34-96 | announcing one more file appends that file's fan-out |
| ConfigReload.ReloadAnnouncesInOrder | src/main/kotlin/com/redgrapefruit/utopia/common/core/ConfigData.kt:34-96 | in a completed reload, file `i` parsed successfully, and processing it appends one call per listener, in listener order, with its storage name and its config |
| ConfigReload.ReloadKeepsOtherNames | src/main/kotlin/com/redgrapefruit/utopia/common/core/ConfigData.kt:94-118 | a completed reload leaves the entry of a name no file gives as it was |
| ConfigReload.ReloadStoresLastConfig | src/main/kotlin/com/redgrapefruit/utopia/common/core/ConfigData.kt:34-94 | after a completed reload in which no later file has the name of file `i`, that name holds file `i`'s config |
| ConfigReload.FoodConfigReloader.constructor | src/main/kotlin/com/redgrapefruit/utopia/common/core/ConfigData.kt:25 | the reloader holds the storage, the event and the category table it is given |
| ConfigReload.FoodConfigReloader.Process | src/main/kotlin/com/redgrapefruit/utopia/common/core/ConfigData.kt:39-97 | a file that fails to parse returns its error and changes nothing; otherwise the config is stored under the file's storage name and then announced to every listener |
| ConfigReload.FoodConfigReloader.Reload | src/main/kotlin/com/redgrapefruit/utopia/common/core/ConfigData.kt:30-37 | the new storage, the call log and the error are those of processing the resources in order from an empty storage; only names of the current resources are stored; every other name resolves to `FoodConfig.Default`; a completed reload stores exactly the names of the current resources |
| FoodComponents.Pick | src/main/kotlin/com/redgrapefruit/utopia/item/RFoodItem.kt:59-65 | picking fails exactly on an empty range; a picked value lies within the range |
| FoodComponents.ResolveEffect | src/main/kotlin/com/redgrapefruit/utopia/item/RFoodItem.kt:55-73 | one descriptor resolves (fails exactly when a range it picks from is empty) to its effect id; duration 999999 when permanent without a range, the fixed duration otherwise, or a value in the range; the fixed amplifier or one in the range; chance 1 when always applied, else the descriptor's |
| FoodComponents.AttachEffects | src/main/kotlin/com/redgrapefruit/utopia/item/RFoodItem.kt:54-74 | one resolved status effect per descriptor, in list order; fails exactly when some descriptor has an empty range |
| FoodComponents.FixedResolutionUnique | src/main/kotlin/com/redgrapefruit/utopia/item/RFoodItem.kt:57-72 | a descriptor without ranges has exactly one resolution |
| FoodComponents.FixedEffectsUnique | src/main/kotlin/com/redgrapefruit/utopia/item/RFoodItem.kt:54-74 | descriptors without ranges determine the resolved effect list |
| FoodComponents.ResolvedDurationBounds | src/main/kotlin/com/redgrapefruit/utopia/item/RFoodItem.kt:57-59 | a resolved duration lies within the duration range when one is given, is 999999 for a permanent effect without one, and the fixed duration otherwise |
| FoodData.AddInt | src/main/kotlin/com/redgrapefruit/utopia/item/RFoodItem.kt:46-50 | Kotlin `Int` addition: the result lies within 32 bits, is the exact sum when that fits, and is the sum wrapped by 2^32 when it overflows by less than 2^32 |
| RFoodItems.BuildComponent | src/main/kotlin/com/redgrapefruit/utopia/item/RFoodItem.kt:42-77 | hunger is base plus config hunger as a wrapping `Int` sum; saturation is base plus config saturation; meat iff the category is MEAT; snack iff the wrapped hunger sum is below 2; always-edible is left unset; one resolved effect per descriptor, in order; fails exactly on an empty range |
| RFoodItems.HungerWithoutOverflow | src/main/kotlin/com/redgrapefruit/utopia/item/RFoodItem.kt:46-50 | when the hunger sum fits in an `Int`, the component's hunger is that sum, and snack means it is below 2 |
| RFoodItems.OverflowingHungerWraps | src/main/kotlin/com/redgrapefruit/utopia/item/RFoodItem.kt:46-50 | base hunger 1 with config hunger 2147483647 gives hunger -2147483648, and the food is a snack |
| RFoodItems.ComponentDeterminedWithoutRanges | src/main/kotlin/com/redgrapefruit/utopia/item/RFoodItem.kt:42-77 | without ranges, a config has exactly one component |
| RFoodItems.RFoodItem.constructor | src/main/kotlin/com/redgrapefruit/utopia/item/RFoodItem.kt:20-36 | a new item holds its config and component, is FRESH and does not override effects |
| RFoodItems.RFoodItem.FromConfig | src/main/kotlin/com/redgrapefruit/utopia/item/RFoodItem.kt:20-77 | the public constructor builds a new FRESH item without effect overrides whose component is the config's; fails exactly on an empty range |
| FoodItems.BuildComponent | src/main/kotlin/com/redgrapefruit/utopia/item/FoodItem.kt:37-65 | only meat (iff MEAT) and the effects (one per descriptor, in order) are set; hunger, saturation, snack and always-edible keep the empty builder's values; fails exactly on an empty range |
| FoodItems.AgreesWithRFoodComponent | src/main/kotlin/com/redgrapefruit/utopia/item/FoodItem.kt:39-62 | the two item classes agree on meat and effects: an RFoodItem component with hunger, saturation and snack reset is a FoodItem component |
| FoodItems.FoodItem.constructor | src/main/kotlin/com/redgrapefruit/utopia/item/FoodItem.kt:19-31 | a new item holds its config and component, is FRESH and does not override effects |
| FoodItems.FoodItem.FromConfig | src/main/kotlin/com/redgrapefruit/utopia/item/FoodItem.kt:19-65 | the public constructor builds a new FRESH item without effect overrides whose component is the config's; fails exactly on an empty range |
| ProfileNbt.NbtCompound.constructor | src/main/java/com/redgrapefruit/utopia/mixin/ItemStackMixin.java:28 | a compound holds the entries it is made with |
| ProfileNbt.NbtCompound.PutInt | src/main/java/com/redgrapefruit/utopia/mixin/ItemStackMixin.java:46-47 | the key maps to an int tag of the value; nothing else changes |
| ProfileNbt.NbtCompound.PutLong | src/main/java/com/redgrapefruit/utopia/mixin/ItemStackMixin.java:48 | the key maps to a long tag of the value; nothing else changes |
| ProfileNbt.NbtCompound.PutBoolean | src/main/java/com/redgrapefruit/utopia/mixin/ItemStackMixin.java:49 | the key maps to a byte tag, 1 for true and 0 for false; nothing else changes |
| ProfileNbt.NbtCompound.PutFridgeState | src/main/java/com/redgrapefruit/utopia/mixin/ItemStackMixin.java:50 | the key maps to one fridge-state tag; nothing else changes |
| ProfileNbt.Written | src/main/java/com/redgrapefruit/utopia/mixin/ItemStackMixin.java:46-50 | writing a profile adds or replaces exactly the five profile keys, and leaves every other entry as it was |
| ProfileNbt.ReadBack | src/main/java/com/redgrapefruit/utopia/mixin/ItemStackMixin.java:33-37 | a compound that holds none of the profile keys reads as a zero profile, not initialised, with the default fridge state |
| ProfileNbt.ReadAfterWrite | src/main/java/com/redgrapefruit/utopia/mixin/ItemStackMixin.java:33-50 | reading back a written profile gives that profile, whatever the compound held before |
| ProfileNbt.ReadDependsOnProfileKeys | src/main/java/com/redgrapefruit/utopia/mixin/ItemStackMixin.java:33-37 | the profile read depends on the five profile keys only |
| ProfileNbt.ItemStack.ConstructorHook | src/main/java/com/redgrapefruit/utopia/mixin/ItemStackMixin.java:27-38 | an advanced food item's profile is set, field by field, from the values under the five keys; for any other item nothing changes; the compound is never changed |
| ProfileNbt.ItemStack.WriteNbtHook | src/main/java/com/redgrapefruit/utopia/mixin/ItemStackMixin.java:40-51 | an advanced food item's profile is written under the five keys; for any other item the compound is unchanged |
| ProfileNbt.SaveThenLoad | src/main/java/com/redgrapefruit/utopia/mixin/ItemStackMixin.java:27-51 | writing one stack's profile, then constructing a stack from that compound, gives the second stack the first one's profile |

## Left out

- JSON text decoding and the stream are not modelled (`Json.decodeFromString`, `input.use`), because they are library code. A file is its decoded object, a map from key to a primitive (integer, number, text or null). `Get`, `AsInt` and `AsFloat` stand in for `jsonObject[key]`, `.jsonPrimitive.int` and `.jsonPrimitive.float`. `.int` accepts only an integer literal within 32 bits, and `.float` accepts an integer or a number. Numbers written as text, and `.jsonPrimitive` failing on arrays or objects, are not modelled.
- `manager.findResources`, its path filter and `getResource` are not modelled. A reload receives the matching resources as a sequence of identifiers and decoded objects, in enumeration order.
- `FoodCategory.fromString` is not part of this model. It is a table from category name to category. Every lookup failure, unknown names included, is an `UnknownCategory` error carrying the file's value.
- There is no floating-point rounding, because `Float` is modelled as `real`. The saturation sum is exact, and for effect chances the model proves only which value is selected.
- `IntRange.pick` is not part of this model. It is an arbitrary choice within the range. Its randomness is not modelled, and picking from an empty range is modelled as a failure of the item's construction.
- The declarations of `FoodConfig`, `RFoodConfig`, `FoodCategory` and `RFoodCategory` are not part of this model. Each pair shares one record, keeping only the fields the core reads.
- `UNUSED_PROPERTY`, `UNUSED_PROPERTY_FLOAT`, `FoodConfig.Default` and the builder's defaults are not part of this model either. They are abstract constants, so every proof holds whatever their values are.
- `FridgeState` and `FridgeState.Serialization` are not part of this model. The fridge state is an abstract value, written as one tag under its key and read back from it (or a default where that tag is missing).
- NBT getters are modelled only for a tag of their own kind, and give zero otherwise. The NBT library's conversions between numeric tag kinds are not modelled.
- `RFoodProfile` and `ProfileComponent` are not modelled, since the profile objects are not part of the core. The item classes keep only their config, component, state and `overrideEffects`. The `Item` superclass, its settings and the item group are not modelled.
- `register`, `getFabricId`, `ConfigReloaderDelegate` and `reloaderDelegate` are framework plumbing and are not modelled.
- The `ComponentInitializeCallback` listeners are identified by their registration position. A call is recorded in the event's log, and listener bodies are not modelled.
- Concurrent readers that see the cache while a reload clears and refills it are not modelled, because the model is sequential.
- ConfigReload.ReloadFrom: its own contract states only that the call log never shrinks. The log's content is `ConfigReload.ReloadExtendsLog` and `ConfigReload.ReloadLog`; the stored names are `ConfigReload.ReloadNamesFromResources` and `ConfigReload.ReloadStoresEveryName`.
- The integer fields of configs and categories are unbounded in the model. Values read from a file lie within 32 bits, because `.int` accepts nothing else. The one sum the core computes on them, the R-food hunger, wraps as Kotlin's `Int` does (`FoodData.AddInt`).
- ConfigReload.Fanout: its contract states only the number of calls. The per-listener content is `ConfigReload.FanoutAt`, kept as a separate lemma.
