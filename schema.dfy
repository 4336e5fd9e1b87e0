/**
 * The configuration schema validator: a recursive check of a value tree
 * against a schema of typed, possibly required, possibly nested entries.
 * It either accepts (returns `true`) or throws the first problem it meets.
 */
module ConfigSchema {
  import opened Wrappers
  import opened JsValues
  import opened Errors
  import opened Text

  /**
   * One schema entry: `required`, whether a `default` key is present,
   * `type`, the optional custom `validate` predicate, nested `properties`
   * (for objects) and the `items` entry every array element must meet.
   */
  datatype Props = Props(
    required: bool,
    hasDefault: bool,
    kind: string,
    check: Option<Value -> bool>,
    properties: Option<Schema>,
    items: Option<Props>)

  datatype Field = Field(key: string, props: Props)

  /** A schema object, its entries in `Object.entries` order. */
  datatype Schema = Schema(fields: seq<Field>)

  /** The five type names `validateType` knows. */
  predicate KnownKind(kind: string) {
    kind in {"string", "number", "boolean", "object", "array"}
  }

  /** What `validateType` accepts for each known type; `typeof null === 'object'` lets `null` pass as an object. */
  predicate HasType(v: Value, kind: string) {
    (kind == "string" && v.Str?)
    || (kind == "number" && v.Num?)
    || (kind == "boolean" && v.Bool?)
    || (kind == "object" && (v.Obj? || v.Null?))
    || (kind == "array" && v.Arr?)
  }

  /** `value[key]` is an error only on `undefined` and `null`. */
  predicate Readable(v: Value) {
    !v.Undefined? && !v.Null?
  }

  /**
   * `value[key]`: an own field of an object, `undefined` otherwise.
   * Array elements, string characters and inherited members are not
   * looked up (only objects and `null` reach this read).
   */
  function Prop(v: Value, key: string): Value {
    if v.Obj? && key in v.fields then v.fields[key] else Undefined
  }

  /** The schema path of a nested key: `path.key`, or `key` at the root. */
  function FullPath(path: string, key: string): string
  {
    if path != "" then path + "." + key else key
  }

  /** The path under which an array element is checked: `path[index].item`. */
  function ItemPath(path: string, index: nat): string {
    path + "[" + NatToString(index) + "]" + ".item"
  }

  /** The fixed parts of the validator's messages. */
  const UnknownTypeText := "Unknown type in schema for "
  const MissingKeyText := "Missing required config key: "
  const InvalidValueText := "Invalid value for config key: "
  const ReadPropertiesText := "Cannot read properties of "

  /** The tail of the type-mismatch message for each known type. */
  function MustBe(kind: string): string
    requires KnownKind(kind)
  {
    match kind
    case "string" => " must be a string"
    case "number" => " must be a number"
    case "boolean" => " must be a boolean"
    case "object" => " must be an object"
    case "array" => " must be an array"
  }

  /** `validateType`: returns `true` or throws. */
  function ValidateType(v: Value, kind: string, path: string): (r: Result<bool, Err>)
    ensures r.Success? <==> HasType(v, kind)
    ensures r.Success? ==> r.value
    ensures !KnownKind(kind) ==> r == Failure(PlainError(UnknownTypeText + path))
    ensures KnownKind(kind) && !HasType(v, kind) ==> r == Failure(PlainError(path + MustBe(kind)))
  {
    if kind == "string" then
      if v.Str? then Success(true) else Failure(PlainError(path + " must be a string"))
    else if kind == "number" then
      if v.Num? then Success(true) else Failure(PlainError(path + " must be a number"))
    else if kind == "boolean" then
      if v.Bool? then Success(true) else Failure(PlainError(path + " must be a boolean"))
    else if kind == "object" then
      if !TypeofObject(v) || v.Arr? then Failure(PlainError(path + " must be an object")) else Success(true)
    else if kind == "array" then
      if v.Arr? then Success(true) else Failure(PlainError(path + " must be an array"))
    else Failure(PlainError(UnknownTypeText + path))
  }

  /**
   * One iteration of `validateObject`'s loop, for the entry `p` whose value
   * is `current` at `fullPath`. The checks run in a fixed order: required,
   * type, custom predicate, nested properties, array items.
   */
  function ValidateEntry(current: Value, p: Props, fullPath: string): (r: Result<bool, Err>)
    ensures p.required && current == Undefined ==>
      r == Failure(PlainError(MissingKeyText + fullPath))
    ensures !p.required && current == Undefined ==> r == Success(true)
    ensures current != Undefined && !HasType(current, p.kind) ==> r == ValidateType(current, p.kind, fullPath)
    ensures current != Undefined && HasType(current, p.kind) && p.check.Some? && !p.check.value(current) ==>
      r == Failure(PlainError(InvalidValueText + fullPath))
    decreases p, 0
  {
    if p.required && current == Undefined then
      Failure(PlainError(MissingKeyText + fullPath))
    else if current == Undefined then
      // with or without a default, an absent optional key is accepted
      Success(true)
    else
      var typed := ValidateType(current, p.kind, fullPath);
      if typed.Failure? then Failure(typed.error)
      else if !typed.value then Success(false)
      else if p.check.Some? && !p.check.value(current) then
        Failure(PlainError(InvalidValueText + fullPath))
      else
        var nested :=
          if p.kind == "object" && p.properties.Some?
          then ValidateObject(current, p.properties.value, fullPath, 0)
          else Success(true);
        if nested.Failure? || !nested.value then nested
        else if p.kind == "array" && p.items.Some? then ValidateArray(current.items, p.items.value, fullPath, 0)
        else Success(true)
  }

  /** `validateObject(value, schema, path)`, from entry `i` on. */
  function ValidateObject(value: Value, s: Schema, path: string, i: nat): (r: Result<bool, Err>)
    requires i <= |s.fields|
    decreases s, |s.fields| - i
  {
    if i == |s.fields| then Success(true)
    else if !Readable(value) then
      Failure(TypeError(ReadPropertiesText + (if value.Null? then "null" else "undefined")))
    else
      var f := s.fields[i];
      var r := ValidateEntry(Prop(value, f.key), f.props, FullPath(path, f.key));
      if r.Failure? || !r.value then r else ValidateObject(value, s, path, i + 1)
  }

  /**
   * `validateArray`: `every` element, from index `i` on, validated as the
   * single entry `item` of the wrapper object `{ item }`.
   */
  function ValidateArray(items: seq<Value>, item: Props, path: string, i: nat): (r: Result<bool, Err>)
    requires i <= |items|
    decreases item, 1, |items| - i
  {
    if i == |items| then Success(true)
    else
      var r := ValidateEntry(items[i], item, ItemPath(path, i));
      if r.Failure? || !r.value then r else ValidateArray(items, item, path, i + 1)
  }

  /** `SchemaValidator.validate(config)`. */
  function Validate(s: Schema, config: Value): (r: Result<bool, Err>) {
    ValidateObject(config, s, "", 0)
  }

  // ---------------------------------------------------------------------
  // A declarative reading of the schema, independent of the check order.

  /** `current` (undefined when absent) meets entry `p`. */
  predicate Conforms(current: Value, p: Props)
    decreases p, 0
  {
    if current == Undefined then !p.required
    else
      HasType(current, p.kind)
      && (p.check.Some? ==> p.check.value(current))
      && (p.kind == "object" && p.properties.Some? ==> ConformsFrom(current, p.properties.value, 0))
      && (p.kind == "array" && p.items.Some? ==>
            forall j :: 0 <= j < |current.items| ==> Conforms(current.items[j], p.items.value))
  }

  /** Every entry of `s` from index `i` on is met by the matching field of `value`. */
  predicate ConformsFrom(value: Value, s: Schema, i: nat)
    decreases s, 1
  {
    forall j :: i <= j < |s.fields| ==> Readable(value) && Conforms(Prop(value, s.fields[j].key), s.fields[j].props)
  }

  /** A configuration meets a schema. */
  predicate ConformsTo(config: Value, s: Schema) {
    ConformsFrom(config, s, 0)
  }

  lemma {:induction false} EntryCorrect(current: Value, p: Props, fullPath: string)
    ensures ValidateEntry(current, p, fullPath).Success? <==> Conforms(current, p)
    ensures ValidateEntry(current, p, fullPath).Success? ==> ValidateEntry(current, p, fullPath).value
    decreases p, 0
  {
    if current == Undefined || !HasType(current, p.kind) || (p.check.Some? && !p.check.value(current)) {
    } else if p.kind == "object" && p.properties.Some? {
      ObjectCorrect(current, p.properties.value, fullPath, 0);
      assert ValidateEntry(current, p, fullPath) == ValidateObject(current, p.properties.value, fullPath, 0);
    } else if p.kind == "array" && p.items.Some? {
      ArrayCorrect(current.items, p.items.value, fullPath, 0);
      assert ValidateEntry(current, p, fullPath) == ValidateArray(current.items, p.items.value, fullPath, 0);
    } else {
      assert ValidateEntry(current, p, fullPath) == Success(true);
    }
  }

  lemma {:induction false} ObjectCorrect(value: Value, s: Schema, path: string, i: nat)
    requires i <= |s.fields|
    ensures ValidateObject(value, s, path, i).Success? <==> ConformsFrom(value, s, i)
    ensures ValidateObject(value, s, path, i).Success? ==> ValidateObject(value, s, path, i).value
    decreases s, |s.fields| - i
  {
    if i < |s.fields| {
      var f := s.fields[i];
      if Readable(value) {
        EntryCorrect(Prop(value, f.key), f.props, FullPath(path, f.key));
        ObjectCorrect(value, s, path, i + 1);
        if ConformsFrom(value, s, i + 1) && Conforms(Prop(value, f.key), f.props) {
          assert ConformsFrom(value, s, i) by {
            forall j | i <= j < |s.fields|
              ensures Readable(value) && Conforms(Prop(value, s.fields[j].key), s.fields[j].props)
            {
              if j > i {
                assert i + 1 <= j;
              }
            }
          }
        }
      } else {
        assert !(Conforms(Prop(value, f.key), f.props) && Readable(value));
      }
    }
  }

  lemma {:induction false} ArrayCorrect(items: seq<Value>, item: Props, path: string, i: nat)
    requires i <= |items|
    ensures ValidateArray(items, item, path, i).Success? <==> (forall j :: i <= j < |items| ==> Conforms(items[j], item))
    ensures ValidateArray(items, item, path, i).Success? ==> ValidateArray(items, item, path, i).value
    decreases item, 1, |items| - i
  {
    if i < |items| {
      EntryCorrect(items[i], item, ItemPath(path, i));
      ArrayCorrect(items, item, path, i + 1);
    }
  }

  /** `validate` accepts exactly the configurations that meet the schema, and never returns `false`. */
  lemma ValidateCorrect(s: Schema, config: Value)
    ensures Validate(s, config).Success? <==> ConformsTo(config, s)
    ensures Validate(s, config).Success? ==> Validate(s, config).value
  {
    ObjectCorrect(config, s, "", 0);
  }

  /** Whether an entry declares a `default` never changes the outcome. */
  lemma {:induction false} DefaultIrrelevant(current: Value, p: Props, fullPath: string)
    ensures ValidateEntry(current, p, fullPath) == ValidateEntry(current, p.(hasDefault := !p.hasDefault), fullPath)
  {
  }

  /** Keys of the value that the schema does not mention are never read. */
  lemma {:induction false} ExtraKeysIgnored(fields: map<string, Value>, s: Schema, path: string, i: nat, key: string, extra: Value)
    requires i <= |s.fields|
    requires forall j :: 0 <= j < |s.fields| ==> s.fields[j].key != key
    ensures ValidateObject(Obj(fields[key := extra]), s, path, i) == ValidateObject(Obj(fields), s, path, i)
    decreases |s.fields| - i
  {
    if i < |s.fields| {
      ExtraKeysIgnored(fields, s, path, i + 1, key, extra);
    }
  }

  /**
   * Checking an array element as the wrapper `{ item }` against the schema
   * `{ item: items }` is checking the element itself under `path.item`.
   */
  lemma WrapperIsEntry(x: Value, item: Props, path: string)
    requires path != ""
    ensures ValidateObject(Obj(map["item" := x]), Schema([Field("item", item)]), path, 0)
         == ValidateEntry(x, item, path + ".item")
  {
    var r := ValidateEntry(x, item, path + ".item");
    assert FullPath(path, "item") == path + ".item";
    assert Prop(Obj(map["item" := x]), "item") == x;
    if r.Success? && r.value {
      assert ValidateObject(Obj(map["item" := x]), Schema([Field("item", item)]), path, 1) == Success(true);
    }
  }
}
