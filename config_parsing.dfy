/**
 * Reading one decoded config file into a FoodConfig: the category decides
 * which properties are required, a missing required property is an error
 * naming the property and the food, and the parsed values override the
 * builder defaults unless they are the "unused" sentinel.
 *
 * The decoded JSON object is a map from key to primitive; decoding the text
 * itself is not part of this model.
 */
module ConfigParsing {
  import opened Wrappers
  import opened FoodData
  import opened ConfigNames

  /** A decoded JSON primitive. */
  datatype Primitive = PInt(i: int) | PFloat(f: Float) | PText(text: string) | PNull

  type JsonObject = map<string, Primitive>

  /** FoodCategory.fromString, as a table from category name to category. */
  type Catalogue = map<string, Category>

  datatype ConfigError =
    | MissingProperty(message: string)   // assertConfigProperty's RuntimeException
    | MalformedValue(field: string)      // a value `.int` / `.float` cannot convert
    | UnknownCategory(content: Primitive) // a category name fromString does not know

  /** The properties every file must give, whatever its category. */
  const ALWAYS_REQUIRED: set<string> := {"category", "hunger", "saturationModifier"}

  /** The integer properties of a config, in the order the fields are declared. */
  const INT_KEYS: set<string> :=
    {"rotSpeed", "rotState", "overdueSpeed", "overdueState", "fridgeEfficiency", "saltEfficiency", "hunger"}

  /** The value of an integer property of a config, by its JSON key. */
  function IntField(c: FoodConfig, key: string): int
    requires key in INT_KEYS
  {
    match key
    case "rotSpeed" => c.rotSpeed
    case "rotState" => c.rotState
    case "overdueSpeed" => c.overdueSpeed
    case "overdueState" => c.overdueState
    case "fridgeEfficiency" => c.fridgeEfficiency
    case "saltEfficiency" => c.saltEfficiency
    case _ => c.hunger
  }

  /** `jsonObject[key]`: absent keys read as null. */
  function Get(obj: JsonObject, key: string): (r: Option<Primitive>)
    ensures r.Some? <==> key in obj
    ensures r.Some? ==> r.value == obj[key]
  {
    if key in obj then Some(obj[key]) else None
  }

  /** `jsonPrimitive.int`: defined on integer literals that fit in 32 bits. */
  function AsInt(p: Primitive): (r: Option<int>)
    ensures r.Some? <==> p.PInt? && INT_MIN <= p.i <= INT_MAX
    ensures r.Some? ==> r.value == p.i
  {
    if p.PInt? && INT_MIN <= p.i <= INT_MAX then Some(p.i) else None
  }

  /** `jsonPrimitive.float`: defined on numeric literals. */
  function AsFloat(p: Primitive): (r: Option<Float>)
    ensures r.Some? <==> p.PInt? || p.PFloat?
  {
    match p
    case PInt(i) => Some(i as real)
    case PFloat(f) => Some(f)
    case _ => None
  }

  /** The food name as it appears in messages: every `_` becomes a space. */
  function Spaced(s: string): (r: string)
    ensures |r| == |s|
    ensures '_' !in r
    ensures forall i :: 0 <= i < |s| && s[i] != '_' ==> r[i] == s[i]
    ensures forall i :: 0 <= i < |s| && s[i] == '_' ==> r[i] == ' '
  {
    seq(|s|, i requires 0 <= i < |s| => if s[i] == '_' then ' ' else s[i])
  }

  /** The message of the exception raised for a missing property. */
  function MissingMessage(field: string, foodName: string): (m: string)
    ensures |m| == |field| + |foodName| + 42
    ensures m[..8] == "Missing "
    ensures m[|m| - 19..] == "; a crash may occur"
  {
    "Missing " + field + " in config for " + Spaced(foodName) + "; a crash may occur"
  }

  /** `t` occurs somewhere in `s`. */
  ghost predicate Mentions(s: string, t: string) {
    exists i :: OccursAt(s, t, i)
  }

  /** A missing-property message names the property and the food (with spaces for underscores). */
  lemma MissingMessageNames(field: string, foodName: string)
    ensures Mentions(MissingMessage(field, foodName), field)
    ensures Mentions(MissingMessage(field, foodName), Spaced(foodName))
  {
    var m := MissingMessage(field, foodName);
    var at := |"Missing " + field + " in config for "|;
    assert OccursAt(m, field, 8);
    assert OccursAt(m, Spaced(foodName), at);
  }

  /** assertConfigProperty: a present value is returned unchanged; an absent one raises. */
  function AssertConfigProperty<T>(input: Option<T>, field: string, foodName: string): (r: Result<T, ConfigError>)
    ensures input.Some? <==> r.Success?
    ensures input.Some? ==> r.value == input.value
    ensures input.None? ==> r.error == MissingProperty(MissingMessage(field, foodName))
  {
    match input
    case Some(v) => Success(v)
    case None => Failure(MissingProperty(MissingMessage(field, foodName)))
  }

  function ToInt(p: Primitive, field: string): Result<int, ConfigError> {
    match AsInt(p)
    case Some(v) => Success(v)
    case None => Failure(MalformedValue(field))
  }

  function ToFloat(p: Primitive, field: string): Result<Float, ConfigError> {
    match AsFloat(p)
    case Some(v) => Success(v)
    case None => Failure(MalformedValue(field))
  }

  /** `FoodCategory.fromString(... .jsonPrimitive.content)`: only text can name a category. */
  function ToCategory(p: Primitive, catalogue: Catalogue): Result<Category, ConfigError> {
    if p.PText? && p.text in catalogue then Success(catalogue[p.text]) else Failure(UnknownCategory(p))
  }

  /** A required integer property: asserted present, then converted. */
  function RequireInt(obj: JsonObject, field: string, foodName: string): Result<int, ConfigError> {
    var p :- AssertConfigProperty(Get(obj, field), field, foodName);
    ToInt(p, field)
  }

  /** The local values `process` computes before it builds the config. */
  datatype ParsedFields = ParsedFields(
    category: Category,
    rotSpeed: int,
    rotState: int,
    overdueSpeed: int,
    overdueState: int,
    fridgeEfficiency: int,
    saltEfficiency: int,
    hunger: int,
    saturationModifier: Float)

  /** The reading and validating half of `process`, in the source's order of checks. */
  function ParseFields(obj: JsonObject, foodName: string, catalogue: Catalogue): (r: Result<ParsedFields, ConfigError>)
    ensures r.Success? ==> "category" in obj && ToCategory(obj["category"], catalogue) == Success(r.value.category)
    ensures r.Success? ==> RequiredKeys(r.value.category) <= obj.Keys
  {
    var categoryValue :- AssertConfigProperty(Get(obj, "category"), "category", foodName);
    var category :- ToCategory(categoryValue, catalogue);
    var rotSpeed :- if category.canRot then RequireInt(obj, "rotSpeed", foodName) else Success(UNUSED_PROPERTY);
    var rotState :- if category.canRot then RequireInt(obj, "rotState", foodName) else Success(UNUSED_PROPERTY);
    var overdueSpeed :- if category.canOverdue then RequireInt(obj, "overdueSpeed", foodName) else Success(UNUSED_PROPERTY);
    var overdueState :- if category.canOverdue then RequireInt(obj, "overdueState", foodName) else Success(UNUSED_PROPERTY);
    var fridgeEfficiency :-
      if category.canBePutInFridge then RequireInt(obj, "fridgeEfficiency", foodName) else Success(UNUSED_PROPERTY);
    var saltEfficiency :-
      if "saltEfficiency" in obj then ToInt(obj["saltEfficiency"], "saltEfficiency") else Success(UNUSED_PROPERTY);
    var hunger :- RequireInt(obj, "hunger", foodName);
    var saturationValue :- AssertConfigProperty(Get(obj, "saturationModifier"), "saturationModifier", foodName);
    var saturationModifier :- ToFloat(saturationValue, "saturationModifier");
    Success(ParsedFields(category, rotSpeed, rotState, overdueSpeed, overdueState,
                         fridgeEfficiency, saltEfficiency, hunger, saturationModifier))
  }

  /** `if (v != sentinel) field = v`: the builder keeps its default for a sentinel value. */
  function Override<T(==)>(parsed: T, sentinel: T, default: T): (r: T)
    ensures parsed != sentinel ==> r == parsed
    ensures parsed == sentinel ==> r == default
  {
    if parsed != sentinel then parsed else default
  }

  /** The `config { ... }` block: category always set, every other field only when not the sentinel. */
  function Build(f: ParsedFields): (c: FoodConfig)
    ensures c.category == f.category
    ensures c.rotSpeed == Override(f.rotSpeed, UNUSED_PROPERTY, BuilderDefaults.rotSpeed)
    ensures c.rotState == Override(f.rotState, UNUSED_PROPERTY, BuilderDefaults.rotState)
    ensures c.overdueSpeed == Override(f.overdueSpeed, UNUSED_PROPERTY, BuilderDefaults.overdueSpeed)
    ensures c.overdueState == Override(f.overdueState, UNUSED_PROPERTY, BuilderDefaults.overdueState)
    ensures c.fridgeEfficiency == Override(f.fridgeEfficiency, UNUSED_PROPERTY, BuilderDefaults.fridgeEfficiency)
    ensures c.saltEfficiency == Override(f.saltEfficiency, UNUSED_PROPERTY, BuilderDefaults.saltEfficiency)
    ensures c.hunger == Override(f.hunger, UNUSED_PROPERTY, BuilderDefaults.hunger)
    ensures c.saturationModifier == Override(f.saturationModifier, UNUSED_PROPERTY_FLOAT, BuilderDefaults.saturationModifier)
    ensures c.effects == BuilderDefaults.effects
  {
    var b := BuilderDefaults.(category := f.category);
    var b := if f.rotSpeed != UNUSED_PROPERTY then b.(rotSpeed := f.rotSpeed) else b;
    var b := if f.rotState != UNUSED_PROPERTY then b.(rotState := f.rotState) else b;
    var b := if f.overdueSpeed != UNUSED_PROPERTY then b.(overdueSpeed := f.overdueSpeed) else b;
    var b := if f.overdueState != UNUSED_PROPERTY then b.(overdueState := f.overdueState) else b;
    var b := if f.fridgeEfficiency != UNUSED_PROPERTY then b.(fridgeEfficiency := f.fridgeEfficiency) else b;
    var b := if f.saltEfficiency != UNUSED_PROPERTY then b.(saltEfficiency := f.saltEfficiency) else b;
    var b := if f.hunger != UNUSED_PROPERTY then b.(hunger := f.hunger) else b;
    if f.saturationModifier != UNUSED_PROPERTY_FLOAT then b.(saturationModifier := f.saturationModifier) else b
  }

  /** The parsing part of `process`: validate, then build. */
  function Parse(obj: JsonObject, foodName: string, catalogue: Catalogue): (r: Result<FoodConfig, ConfigError>)
    ensures r.Success? ==> "category" in obj && ToCategory(obj["category"], catalogue) == Success(r.value.category)
    ensures r.Success? ==> RequiredKeys(r.value.category) <= obj.Keys
    ensures r.Success? ==> r.value.effects == BuilderDefaults.effects
  {
    var fields :- ParseFields(obj, foodName, catalogue);
    Success(Build(fields))
  }

  // ---- The validator's table, stated independently of the parser ----

  /** The properties a file of category `c` must give. */
  function RequiredKeys(c: Category): set<string> {
    ALWAYS_REQUIRED
    + (if c.canRot then {"rotSpeed", "rotState"} else {})
    + (if c.canOverdue then {"overdueSpeed", "overdueState"} else {})
    + (if c.canBePutInFridge then {"fridgeEfficiency"} else {})
  }

  /** The integer properties read from a file of category `c`: its required ones, and salt when present. */
  function ReadIntKeys(c: Category, obj: JsonObject): (keys: set<string>)
    ensures keys <= INT_KEYS
  {
    (RequiredKeys(c) - {"category", "saturationModifier"})
    + (if "saltEfficiency" in obj then {"saltEfficiency"} else {})
  }

  /** The file names a known category and gives every property that category requires, well typed. */
  ghost predicate Accepted(obj: JsonObject, catalogue: Catalogue) {
    && "category" in obj
    && ToCategory(obj["category"], catalogue).Success?
    && var c := ToCategory(obj["category"], catalogue).value;
    && RequiredKeys(c) <= obj.Keys
    && (forall k :: k in ReadIntKeys(c, obj) ==> k in obj && AsInt(obj[k]).Some?)
    && AsFloat(obj["saturationModifier"]).Some?
  }

  /** Processing succeeds exactly when the file is accepted by the validator's table. */
  lemma ParseSucceedsIff(obj: JsonObject, foodName: string, catalogue: Catalogue)
    ensures Parse(obj, foodName, catalogue).Success? <==> Accepted(obj, catalogue)
  {
    if "category" in obj && ToCategory(obj["category"], catalogue).Success? {
      var c := ToCategory(obj["category"], catalogue).value;
      var keys := ReadIntKeys(c, obj);
      if Parse(obj, foodName, catalogue).Success? {
        assert RequiredKeys(c) <= obj.Keys;
        forall k | k in keys ensures k in obj && AsInt(obj[k]).Some? {
        }
      }
    }
  }

  /** `category`, `hunger` and `saturationModifier` are required whatever the category. */
  lemma AlwaysRequiredMissingFails(obj: JsonObject, foodName: string, catalogue: Catalogue, key: string)
    requires key in ALWAYS_REQUIRED && key !in obj
    ensures Parse(obj, foodName, catalogue).Failure?
  {
    ParseSucceedsIff(obj, foodName, catalogue);
  }

  /** A property the category does not require never causes a failure and is not read: dropping it changes nothing. */
  lemma UnrequiredKeysIgnored(obj: JsonObject, foodName: string, catalogue: Catalogue, c: Category)
    requires "category" in obj && ToCategory(obj["category"], catalogue) == Success(c)
    ensures var unused := {"rotSpeed", "rotState", "overdueSpeed", "overdueState", "fridgeEfficiency"} - RequiredKeys(c);
            Parse(obj - unused, foodName, catalogue) == Parse(obj, foodName, catalogue)
  {
    var unused := {"rotSpeed", "rotState", "overdueSpeed", "overdueState", "fridgeEfficiency"} - RequiredKeys(c);
    var obj' := obj - unused;
    forall k | k !in unused ensures Get(obj', k) == Get(obj, k) {
    }
    assert ParseFields(obj', foodName, catalogue) == ParseFields(obj, foodName, catalogue);
  }

  /**
   * The built config takes the file's value for each integer property it reads
   * exactly when that value is not the sentinel, and keeps the builder default
   * for every property it does not read; the effects are always the defaults.
   */
  lemma ParsedValuesOverrideDefaults(obj: JsonObject, foodName: string, catalogue: Catalogue, config: FoodConfig)
    requires Parse(obj, foodName, catalogue) == Success(config)
    ensures "category" in obj && ToCategory(obj["category"], catalogue) == Success(config.category)
    ensures forall k :: k in ReadIntKeys(config.category, obj) ==>
              k in obj && obj[k].PInt? &&
              IntField(config, k) == Override(obj[k].i, UNUSED_PROPERTY, IntField(BuilderDefaults, k))
    ensures forall k :: k in INT_KEYS - ReadIntKeys(config.category, obj) ==>
              IntField(config, k) == IntField(BuilderDefaults, k)
    ensures "saturationModifier" in obj &&
            config.saturationModifier ==
              Override(AsFloat(obj["saturationModifier"]).value, UNUSED_PROPERTY_FLOAT, BuilderDefaults.saturationModifier)
    ensures config.effects == BuilderDefaults.effects
  {
    var f := ParseFields(obj, foodName, catalogue).value;
    assert config == Build(f);
    ParsedFieldValues(obj, foodName, catalogue, f);
    BuildByKey(f);
  }

  /** Build, read by key: each integer property is the parsed value unless it is the sentinel. */
  lemma BuildByKey(f: ParsedFields)
    ensures forall k :: k in INT_KEYS ==>
              IntField(Build(f), k) == Override(IntField(ParsedAsConfig(f), k), UNUSED_PROPERTY, IntField(BuilderDefaults, k))
  {
  }

  /** The parsed integer values laid out as a config, so that they can be read by key. */
  function ParsedAsConfig(f: ParsedFields): FoodConfig {
    FoodConfig(f.category, f.rotSpeed, f.rotState, f.overdueSpeed, f.overdueState,
               f.fridgeEfficiency, f.saltEfficiency, f.hunger, f.saturationModifier, [])
  }

  /** Each parsed integer is the file's value for a property that is read, and the sentinel for one that is not. */
  lemma ParsedFieldValues(obj: JsonObject, foodName: string, catalogue: Catalogue, f: ParsedFields)
    requires ParseFields(obj, foodName, catalogue) == Success(f)
    ensures "category" in obj && ToCategory(obj["category"], catalogue) == Success(f.category)
    ensures forall k :: k in ReadIntKeys(f.category, obj) ==>
              k in obj && obj[k].PInt? && IntField(ParsedAsConfig(f), k) == obj[k].i
    ensures forall k :: k in INT_KEYS - ReadIntKeys(f.category, obj) ==>
              IntField(ParsedAsConfig(f), k) == UNUSED_PROPERTY
    ensures "saturationModifier" in obj && f.saturationModifier == AsFloat(obj["saturationModifier"]).value
  {
    ParsedFieldsExplicit(obj, foodName, catalogue, f);
    FieldsByKey(obj, f);
  }

  /** The parsed values, field by field: from the file where the category reads them, the sentinel elsewhere. */
  ghost predicate FieldsFromFile(obj: JsonObject, f: ParsedFields) {
    var c := f.category;
    && (c.canRot ==> "rotSpeed" in obj && obj["rotSpeed"].PInt? && f.rotSpeed == obj["rotSpeed"].i)
    && (c.canRot ==> "rotState" in obj && obj["rotState"].PInt? && f.rotState == obj["rotState"].i)
    && (!c.canRot ==> f.rotSpeed == UNUSED_PROPERTY && f.rotState == UNUSED_PROPERTY)
    && (c.canOverdue ==> "overdueSpeed" in obj && obj["overdueSpeed"].PInt? && f.overdueSpeed == obj["overdueSpeed"].i)
    && (c.canOverdue ==> "overdueState" in obj && obj["overdueState"].PInt? && f.overdueState == obj["overdueState"].i)
    && (!c.canOverdue ==> f.overdueSpeed == UNUSED_PROPERTY && f.overdueState == UNUSED_PROPERTY)
    && (c.canBePutInFridge ==>
          "fridgeEfficiency" in obj && obj["fridgeEfficiency"].PInt? && f.fridgeEfficiency == obj["fridgeEfficiency"].i)
    && (!c.canBePutInFridge ==> f.fridgeEfficiency == UNUSED_PROPERTY)
    && ("saltEfficiency" in obj ==> obj["saltEfficiency"].PInt? && f.saltEfficiency == obj["saltEfficiency"].i)
    && ("saltEfficiency" !in obj ==> f.saltEfficiency == UNUSED_PROPERTY)
    && "hunger" in obj && obj["hunger"].PInt? && f.hunger == obj["hunger"].i
  }

  /** The parsing half of `process`, field by field. */
  lemma ParsedFieldsExplicit(obj: JsonObject, foodName: string, catalogue: Catalogue, f: ParsedFields)
    requires ParseFields(obj, foodName, catalogue) == Success(f)
    ensures "category" in obj && ToCategory(obj["category"], catalogue) == Success(f.category)
    ensures FieldsFromFile(obj, f)
    ensures "saturationModifier" in obj && f.saturationModifier == AsFloat(obj["saturationModifier"]).value
  {
  }

  /** FieldsFromFile, restated by JSON key: it only unfolds FieldsFromFile and IntField, for the lemmas that quantify over keys. */
  lemma FieldsByKey(obj: JsonObject, f: ParsedFields)
    requires FieldsFromFile(obj, f)
    ensures forall k :: k in ReadIntKeys(f.category, obj) ==>
              k in obj && obj[k].PInt? && IntField(ParsedAsConfig(f), k) == obj[k].i
    ensures forall k :: k in INT_KEYS - ReadIntKeys(f.category, obj) ==>
              IntField(ParsedAsConfig(f), k) == UNUSED_PROPERTY
  {
  }

  /** Every missing-property error names a property that is absent from the file; every conversion error one that is present. */
  lemma ErrorsNameTheirProperty(obj: JsonObject, foodName: string, catalogue: Catalogue)
    ensures var r := Parse(obj, foodName, catalogue);
            r.Failure? && r.error.MissingProperty? ==>
              exists k :: k !in obj && r.error.message == MissingMessage(k, foodName)
    ensures var r := Parse(obj, foodName, catalogue);
            r.Failure? && r.error.MalformedValue? ==> r.error.field in obj
    ensures var r := Parse(obj, foodName, catalogue);
            r.Failure? && r.error.UnknownCategory? ==> "category" in obj && r.error.content == obj["category"]
  {
    var r := Parse(obj, foodName, catalogue);
    if r.Failure? && r.error.MissingProperty? {
      if "category" !in obj {
        assert r.error.message == MissingMessage("category", foodName);
      } else {
        var c := ToCategory(obj["category"], catalogue).value;
        if c.canRot && "rotSpeed" !in obj {
          assert r.error.message == MissingMessage("rotSpeed", foodName);
        } else if c.canRot && "rotState" !in obj {
          assert r.error.message == MissingMessage("rotState", foodName);
        } else if c.canOverdue && "overdueSpeed" !in obj {
          assert r.error.message == MissingMessage("overdueSpeed", foodName);
        } else if c.canOverdue && "overdueState" !in obj {
          assert r.error.message == MissingMessage("overdueState", foodName);
        } else if c.canBePutInFridge && "fridgeEfficiency" !in obj {
          assert r.error.message == MissingMessage("fridgeEfficiency", foodName);
        } else if "hunger" !in obj {
          assert r.error.message == MissingMessage("hunger", foodName);
        } else {
          assert r.error.message == MissingMessage("saturationModifier", foodName);
        }
      }
    }
  }
}
