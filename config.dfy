/**
 * The configuration store: a tree of values addressed by dotted paths
 * (`"api.timeout"`), read with a default, written with missing
 * intermediate objects created on the way, deleted one key at a time,
 * deep-merged, and re-validated against an optional schema after every
 * write.
 */
module Config {
  import opened Wrappers
  import opened JsValues
  import opened Errors
  import opened Text
  import ConfigSchema

  // ---------------------------------------------------------------------
  // Reading: `getNestedValue`

  /**
   * One step of `getNestedValue`'s reduce:
   * `current && current[key] !== undefined ? current[key] : undefined`.
   * Only own fields of objects are read; a property read on a truthy string,
   * number or array is taken as `undefined`.
   */
  function Step(current: Value, key: string): (r: Value)
    ensures !Truthy(current) ==> r == Undefined
  {
    if Truthy(current) && current.Obj? && key in current.fields then current.fields[key] else Undefined
  }

  /** The reduce over the path's segments. */
  function GetPath(v: Value, keys: seq<string>): Value
    decreases |keys|
  {
    if keys == [] then v else GetPath(Step(v, keys[0]), keys[1..])
  }

  /** `getNestedValue(obj, path)`. */
  function GetNested(obj: Value, path: string): Value {
    GetPath(obj, Split(path))
  }

  lemma {:induction false} GetPathUndefined(keys: seq<string>)
    ensures GetPath(Undefined, keys) == Undefined
    decreases |keys|
  {
    if keys != [] {
      GetPathUndefined(keys[1..]);
    }
  }

  lemma {:induction false} GetPathAppend(v: Value, a: seq<string>, b: seq<string>)
    ensures GetPath(v, a + b) == GetPath(GetPath(v, a), b)
    decreases |a|
  {
    if a != [] {
      assert (a + b)[0] == a[0];
      assert (a + b)[1..] == a[1..] + b;
      GetPathAppend(Step(v, a[0]), a[1..], b);
    } else {
      assert a + b == b;
    }
  }

  /** The traversal gives `undefined` as soon as an intermediate value is missing or falsy. */
  lemma ShortCircuit(v: Value, keys: seq<string>, i: nat)
    requires i < |keys|
    requires !Truthy(GetPath(v, keys[..i]))
    ensures GetPath(v, keys) == Undefined
  {
    assert keys == keys[..i] + keys[i..];
    GetPathAppend(v, keys[..i], keys[i..]);
    GetPathUndefined(keys[i + 1..]);
  }

  // ---------------------------------------------------------------------
  // Writing: `setNestedValue`

  /** The engine's messages when a write meets a primitive: assigning to it, or testing a key with `in`. */
  const CreatePropertyText := "Cannot create property '"
  const InOperatorText := "Cannot use 'in' operator to search for '"

  /**
   * `setNestedValue` on the object `cur`, below the segments `keys`, with
   * final key `last`: a missing intermediate becomes `{}`, and the final
   * assignment replaces or adds `last`. Anything but an object along the
   * way is a TypeError (`key in current` on a primitive, or an assignment
   * to a property of one in strict mode); the engine throws before any
   * object is changed, because a created `{}` has only created children.
   */
  function SetPath(cur: Value, keys: seq<string>, last: string, value: Value): (r: Result<Value, Err>)
    ensures r.Success? ==> cur.Obj? && r.value.Obj?
    ensures r.Success? && keys == [] ==> r.value.fields == cur.fields[last := value]
    ensures r.Success? && keys != [] ==> r.value.fields.Keys == cur.fields.Keys + {keys[0]}
    decreases |keys|
  {
    if !cur.Obj? then
      Failure(TypeError(if keys == [] then CreatePropertyText + last + "'"
                        else InOperatorText + keys[0] + "'"))
    else if keys == [] then
      Success(Obj(cur.fields[last := value]))
    else
      var child := if keys[0] in cur.fields then cur.fields[keys[0]] else EmptyObject;
      match SetPath(child, keys[1..], last, value)
      case Failure(e) => Failure(e)
      case Success(c) => Success(Obj(cur.fields[keys[0] := c]))
  }

  /** The segments before the last one, and the last one, of a dotted path. */
  function Init(path: string): seq<string> {
    var parts := Split(path);
    parts[..|parts| - 1]
  }

  function Last(path: string): string {
    var parts := Split(path);
    parts[|parts| - 1]
  }

  lemma InitLast(path: string)
    ensures Init(path) + [Last(path)] == Split(path)
  {
  }

  /** `setNestedValue(obj, path, value)`. */
  function SetNested(obj: Value, path: string, value: Value): Result<Value, Err> {
    SetPath(obj, Init(path), Last(path), value)
  }

  /** `{ k1: { k2: … { last: value } } }`: what a write builds below a missing key. */
  function Nest(keys: seq<string>, last: string, value: Value): Value
    decreases |keys|
  {
    if keys == [] then Obj(map[last := value]) else Obj(map[keys[0] := Nest(keys[1..], last, value)])
  }

  /** Missing intermediates are created as `{}`: a write into an empty object builds the nested chain. */
  lemma {:induction false} SetIntoEmpty(keys: seq<string>, last: string, value: Value)
    ensures SetPath(EmptyObject, keys, last, value) == Success(Nest(keys, last, value))
    decreases |keys|
  {
    if keys != [] {
      SetIntoEmpty(keys[1..], last, value);
    }
  }

  lemma {:induction false} SetPathGet(cur: Value, keys: seq<string>, last: string, value: Value)
    requires SetPath(cur, keys, last, value).Success?
    ensures GetPath(SetPath(cur, keys, last, value).value, keys + [last]) == value
    decreases |keys|
  {
    var c := SetPath(cur, keys, last, value).value;
    if keys == [] {
      assert GetPath(c, [last]) == GetPath(Step(c, last), []);
    } else {
      var child := if keys[0] in cur.fields then cur.fields[keys[0]] else EmptyObject;
      SetPathGet(child, keys[1..], last, value);
      assert (keys + [last])[1..] == keys[1..] + [last];
    }
  }

  /** `set(key, v)` followed by `get(key)` reads `v` back. */
  lemma SetThenGet(obj: Value, path: string, value: Value)
    requires SetNested(obj, path, value).Success?
    ensures GetNested(SetNested(obj, path, value).value, path) == value
  {
    SetPathGet(obj, Init(path), Last(path), value);
    InitLast(path);
  }

  /** `q` leaves the segment list `p` at position `i`: same segments before, a different one at `i`. */
  predicate DivergesAt(q: seq<string>, p: seq<string>, i: nat) {
    i < |q| && i < |p| && q[..i] == p[..i] && q[i] != p[i]
  }

  /** Past a shared first segment, the paths still diverge, one position earlier. */
  lemma DivergesTail(q: seq<string>, keys: seq<string>, last: string, i: nat)
    requires DivergesAt(q, keys + [last], i) && i > 0
    ensures keys != [] && q[0] == keys[0]
    ensures DivergesAt(q[1..], keys[1..] + [last], i - 1)
  {
    assert (keys + [last])[1..] == keys[1..] + [last];
    assert q[1..][..i - 1] == q[..i][1..];
    assert (keys[1..] + [last])[..i - 1] == (keys + [last])[..i][1..];
  }

  /** A path whose first segment is not the written one reads the same before and after the write. */
  lemma SetPathOthersHere(cur: Value, keys: seq<string>, last: string, value: Value, q: seq<string>)
    requires SetPath(cur, keys, last, value).Success?
    requires DivergesAt(q, keys + [last], 0)
    ensures GetPath(SetPath(cur, keys, last, value).value, q) == GetPath(cur, q)
  {
    var c := SetPath(cur, keys, last, value).value;
    assert Step(c, q[0]) == Step(cur, q[0]);
    assert GetPath(c, q) == GetPath(Step(c, q[0]), q[1..]);
  }

  /** A write below the first segment rebuilds that one field from the write into its child (a created `{}` when absent). */
  lemma SetPathDescends(cur: Value, keys: seq<string>, last: string, value: Value)
    requires SetPath(cur, keys, last, value).Success? && keys != []
    ensures var child := if keys[0] in cur.fields then cur.fields[keys[0]] else EmptyObject;
      && SetPath(child, keys[1..], last, value).Success?
      && SetPath(cur, keys, last, value).value == Obj(cur.fields[keys[0] := SetPath(child, keys[1..], last, value).value])
  {
  }

  lemma {:induction false} SetPathOthers(cur: Value, keys: seq<string>, last: string, value: Value, q: seq<string>, i: nat)
    requires SetPath(cur, keys, last, value).Success?
    requires DivergesAt(q, keys + [last], i)
    ensures GetPath(SetPath(cur, keys, last, value).value, q) == GetPath(cur, q)
    decreases |keys|
  {
    if i == 0 {
      SetPathOthersHere(cur, keys, last, value, q);
    } else {
      DivergesTail(q, keys, last, i);
      SetPathDescends(cur, keys, last, value);
      var c := SetPath(cur, keys, last, value).value;
      var child := if keys[0] in cur.fields then cur.fields[keys[0]] else EmptyObject;
      var child' := SetPath(child, keys[1..], last, value).value;
      SetPathOthers(child, keys[1..], last, value, q[1..], i - 1);
      assert GetPath(c, q) == GetPath(child', q[1..]);
      if keys[0] in cur.fields {
        assert GetPath(cur, q) == GetPath(child, q[1..]);
      } else {
        assert GetPath(cur, q) == GetPath(Undefined, q[1..]);
        GetPathUndefined(q[1..]);
        assert GetPath(child, q[1..]) == GetPath(Undefined, q[2..]);
        GetPathUndefined(q[2..]);
      }
    }
  }

  /** A write changes nothing at a path that leaves the written one before its end. */
  lemma SetKeepsOthers(obj: Value, path: string, value: Value, q: seq<string>, i: nat)
    requires SetNested(obj, path, value).Success?
    requires DivergesAt(q, Split(path), i)
    ensures GetPath(SetNested(obj, path, value).value, q) == GetPath(obj, q)
  {
    InitLast(path);
    SetPathOthers(obj, Init(path), Last(path), value, q, i);
  }

  // ---------------------------------------------------------------------
  // Deleting: `delete`

  /**
   * Removes `last` from the object reached along `keys` by the reads of
   * `getNestedValue`; when that value is not an object nothing changes
   * (an array's element would become a hole, which is not modelled).
   */
  function RemoveAt(cur: Value, keys: seq<string>, last: string): (r: Value)
    ensures cur.Obj? ==> r.Obj? && r.fields.Keys <= cur.fields.Keys
    decreases |keys|
  {
    if keys == [] then
      if cur.Obj? then Obj(cur.fields - {last}) else cur
    else if cur.Obj? && keys[0] in cur.fields then
      Obj(cur.fields[keys[0] := RemoveAt(cur.fields[keys[0]], keys[1..], last)])
    else cur
  }

  /** The path whose value `delete(key)` takes as the parent: `parts.join('.')`, split again. */
  function ParentPath(path: string): seq<string> {
    Split(Join(Init(path)))
  }

  /** `delete(key)`. */
  function DeleteNested(obj: Value, path: string): Value {
    var parent := GetPath(obj, ParentPath(path));
    if Truthy(parent) && TypeofObject(parent) then RemoveAt(obj, ParentPath(path), Last(path)) else obj
  }

  lemma {:induction false} RemoveAtGet(cur: Value, keys: seq<string>, last: string)
    requires GetPath(cur, keys).Obj?
    ensures GetPath(RemoveAt(cur, keys, last), keys) == Obj(GetPath(cur, keys).fields - {last})
    decreases |keys|
  {
    if keys != [] {
      if !(cur.Obj? && keys[0] in cur.fields) {
        GetPathUndefined(keys[1..]);
      } else {
        RemoveAtGet(cur.fields[keys[0]], keys[1..], last);
      }
    }
  }

  lemma {:induction false} RemoveAtIdle(cur: Value, keys: seq<string>, last: string)
    requires !GetPath(cur, keys).Obj?
    ensures RemoveAt(cur, keys, last) == cur
    decreases |keys|
  {
    if keys != [] && cur.Obj? && keys[0] in cur.fields {
      RemoveAtIdle(cur.fields[keys[0]], keys[1..], last);
      assert cur.fields[keys[0] := cur.fields[keys[0]]] == cur.fields;
    }
  }

  /** The parent of a path of at least two segments is read at the segments before the last. */
  lemma ParentOfDotted(path: string)
    requires |Split(path)| >= 2
    ensures ParentPath(path) == Init(path)
    ensures ParentPath(path) + [Last(path)] == Split(path)
  {
    SplitJoin(Init(path));
    InitLast(path);
  }

  /** After `delete(key)` on a key whose parent object exists, `get(key)` is undefined. */
  lemma DeleteRemoves(obj: Value, path: string)
    requires |Split(path)| >= 2
    requires GetPath(obj, Init(path)).Obj?
    ensures GetNested(DeleteNested(obj, path), path) == Undefined
  {
    ParentOfDotted(path);
    var at := Init(path);
    RemoveAtGet(obj, at, Last(path));
    GetPathAppend(DeleteNested(obj, path), at, [Last(path)]);
  }

  /**
   * A key without a dot is never deleted: its parent path is `''`, which
   * reads the (normally absent) field named `""` of the root.
   */
  lemma DeleteSingleSegment(obj: Value, key: string)
    requires NoDot(key)
    requires !Step(obj, "").Obj?
    ensures DeleteNested(obj, key) == obj
  {
    SplitNoDot(key);
    assert Init(key) == [];
    assert ParentPath(key) == [""];
    RemoveAtIdle(obj, [""], Last(key));
  }

  /** Deleting twice is deleting once. */
  lemma DeleteIdempotent(obj: Value, path: string)
    ensures DeleteNested(DeleteNested(obj, path), path) == DeleteNested(obj, path)
  {
    var at := ParentPath(path);
    var parent := GetPath(obj, at);
    if Truthy(parent) && TypeofObject(parent) {
      var once := RemoveAt(obj, at, Last(path));
      if parent.Obj? {
        RemoveAtGet(obj, at, Last(path));
        RemoveAtGet(once, at, Last(path));
        RemoveTwice(obj, at, Last(path));
      } else {
        RemoveAtIdle(obj, at, Last(path));
      }
    }
  }

  lemma {:induction false} RemoveTwice(cur: Value, keys: seq<string>, last: string)
    ensures RemoveAt(RemoveAt(cur, keys, last), keys, last) == RemoveAt(cur, keys, last)
    decreases |keys|
  {
    if keys != [] && cur.Obj? && keys[0] in cur.fields {
      RemoveTwice(cur.fields[keys[0]], keys[1..], last);
    }
  }

  // ---------------------------------------------------------------------
  // Merging: `merge`

  /** The error a write into a primitive raises during a merge (messages per key are not modelled). */
  const MergeIntoPrimitive := TypeError("Cannot create property on a primitive value")

  /**
   * What `merge` leaves at one key: a non-array object (or `null`, whose
   * `typeof` is also `'object'`) is merged into the target's value, or into
   * a new `{}` when that value is falsy; anything else overwrites.
   */
  function MergeValue(target: Value, source: Value): (r: Result<Value, Err>)
    ensures !(source.Obj? || source.Null?) ==> r == Success(source)
    ensures source.Null? ==> r == Success(if Truthy(target) then target else EmptyObject)
    decreases source, 1
  {
    if source.Obj? || source.Null? then
      MergeInto(if !Truthy(target) then EmptyObject else target, source)
    else Success(source)
  }

  /**
   * `merge(target, source)`: `for…in` over `null` visits nothing, each key of
   * an object source is merged independently, and a write into anything
   * but an object fails.
   */
  function MergeInto(target: Value, source: Value): (r: Result<Value, Err>)
    requires source.Obj? || source.Null?
    ensures r.Success? && target.Obj? && source.Obj? ==>
      r.value.Obj? && r.value.fields.Keys == target.fields.Keys + source.fields.Keys
      && (forall k :: k in target.fields && k !in source.fields ==> r.value.fields[k] == target.fields[k])
    ensures r.Failure? ==> source.Obj? && source.fields != map[] && (target.Obj? ==> MergeFails(target, source))
    decreases source, 0
  {
    if source.Null? || source.fields == map[] then Success(target)
    else if !target.Obj? then Failure(MergeIntoPrimitive)
    else if MergeFails(target, source) then Failure(MergeIntoPrimitive)
    else Success(Obj(target.fields + Merged(target, source)))
  }

  /** Some key of the source cannot be merged. */
  predicate MergeFails(target: Value, source: Value)
    requires target.Obj? && source.Obj?
    decreases source, 0, 1
  {
    exists k :: k in source.fields && MergeAt(target, source, k).Failure?
  }

  /** The merged value of every key of the source. */
  function Merged(target: Value, source: Value): map<string, Value>
    requires target.Obj? && source.Obj? && !MergeFails(target, source)
    decreases source, 0, 2
  {
    map k | k in source.fields :: MergeAt(target, source, k).value
  }

  /** The merge of one key of an object source into the object `target`. */
  function MergeAt(target: Value, source: Value, k: string): Result<Value, Err>
    requires target.Obj? && source.Obj? && k in source.fields
    decreases source, 0, 0
  {
    MergeValue(if k in target.fields then target.fields[k] else Undefined, source.fields[k])
  }

  /** Merging the same source a second time changes nothing. */
  lemma {:induction false} MergeIdempotent(target: Value, source: Value)
    requires MergeValue(target, source).Success?
    ensures MergeValue(MergeValue(target, source).value, source) == MergeValue(target, source)
    decreases source
  {
    if source.Obj? && source.fields != map[] {
      var base := if !Truthy(target) then EmptyObject else target;
      var once := MergeValue(target, source).value;
      assert base.Obj?;
      var m := Merged(base, source);
      assert once.fields == base.fields + m;
      forall k | k in source.fields
        ensures MergeAt(once, source, k) == MergeAt(base, source, k)
      {
        assert MergeAt(base, source, k).Success?;
        MergeIdempotent(if k in base.fields then base.fields[k] else Undefined, source.fields[k]);
      }
      assert !MergeFails(once, source);
      assert Merged(once, source) == m;
      assert once.fields + m == once.fields;
    }
  }

  // ---------------------------------------------------------------------
  // The store

  class Configuration {
    /** The configuration tree; always an object. */
    var config: Value
    /** The schema given at construction, if any. */
    const schema: Option<ConfigSchema.Schema>

    ghost predicate Valid()
      reads this
    {
      config.Obj?
    }

    /** `new Configuration({ schema })`, before `load`: an empty tree. */
    constructor(schema: Option<ConfigSchema.Schema>)
      ensures Valid()
      ensures config == EmptyObject && this.schema == schema
    {
      config := EmptyObject;
      this.schema := schema;
    }

    /** `get(key, defaultValue)`. */
    function Get(key: string, default: Value): (r: Value)
      reads this
      ensures GetNested(config, key) != Undefined ==> r == GetNested(config, key)
      ensures GetNested(config, key) == Undefined ==> r == default
    {
      var value := GetNested(config, key);
      if value == Undefined then default else value
    }

    /** `has(key)`. */
    function Has(key: string): (r: bool)
      reads this
      ensures r <==> Get(key, Undefined) != Undefined
      ensures forall d :: r ==> Get(key, d) == GetNested(config, key)
    {
      GetNested(config, key) != Undefined
    }

    /** `validate()`: `true` without a schema, otherwise the schema's verdict, which is `true` or an error. */
    function Validate(): (r: Result<bool, Err>)
      reads this
      ensures r.Success? ==> r.value
      ensures r.Success? <==> (schema.None? || ConfigSchema.ConformsTo(config, schema.value))
    {
      match schema
      case None => Success(true)
      case Some(s) =>
        ConfigSchema.ValidateCorrect(s, config);
        ConfigSchema.Validate(s, config)
    }

    /**
     * `set(key, value)`: the write happens first, and only then does the
     * schema check run, so a value the schema rejects stays in place while
     * its error is thrown.
     */
    method Set(key: string, value: Value) returns (thrown: Option<Err>)
      requires Valid()
      modifies this
      ensures Valid()
      ensures SetNested(old(config), key, value).Failure? ==>
        config == old(config) && thrown == Some(SetNested(old(config), key, value).error)
      ensures SetNested(old(config), key, value).Success? ==>
        config == SetNested(old(config), key, value).value
        && (thrown.None? <==> Validate().Success?)
        && (thrown.Some? ==> thrown.value == Validate().error)
    {
      var written := SetNested(config, key, value);
      if written.Failure? {
        return Some(written.error);
      }
      config := written.value;
      var verdict := Validate();
      thrown := if verdict.Failure? then Some(verdict.error) else None;
    }

    /** `delete(key)`. */
    method Delete(key: string)
      requires Valid()
      modifies this
      ensures Valid()
      ensures config == DeleteNested(old(config), key)
    {
      config := DeleteNested(config, key);
    }

    /** `clear()`. */
    method Clear()
      modifies this
      ensures Valid()
      ensures config == EmptyObject
    {
      config := EmptyObject;
    }

    /** `getAll()`: a shallow copy of the tree, which as a value is the tree itself. */
    function GetAll(): (r: Value)
      reads this
      ensures Valid() ==> r.Obj? && r.fields == config.fields
    {
      config
    }
  }
}
