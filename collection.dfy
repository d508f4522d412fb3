/** One model's collection (lib/collection.js): schema normalisation, the
    primary-key name, index creation, the identifier mapping between the
    model's `id` and the store's `_id`, and the create / find / count /
    update / destroy operations over the collection's own store. */
module Collection {
  import opened Js
  import opened Errors
  import opened Store

  /** A model schema: attribute name to attribute descriptor, in definition order. */
  type Schema = Dict<Record>

  /** A criteria value that is neither an object nor `null`. */
  type Scalar = v: Value | !v.Obj? && !v.Null? witness Undefined

  /** The criteria argument as received: an object, `null`, or anything
      else (the model does not look inside it; an array has no `select`
      key to lose, so it passes through like a scalar). */
  datatype Criteria = Object(d: Dict<Value>) | Null | Primitive(v: Scalar)

  /** The criteria translator: it turns criteria into the store's
      `{where, sort, skip, limit, ...}` object, or throws. It is not part
      of this model, so it is a parameter. */
  type Translator = (Criteria, Schema) -> Result<Dict<Value>>

  /** What `create` and `createEach` are given: one record or an array of them. */
  datatype Data = Single(record: Record) | Batch(records: seq<Record>)

  // ---------------------------------------------------------------------
  // Identifier mapping

  /** `_beforeSave`: the store identifier is made from a truthy model
      identifier, stringified; any `_id` already present is discarded, and
      `id` never reaches the store. */
  function ToStore(model: Record): (saved: Record)
    ensures "id" !in saved
    ensures "_id" in saved <==> Truthy(Get(model, "id"))
    ensures "_id" in saved ==> saved["_id"] == Str(ToString(model["id"]))
    ensures forall k | k != "id" && k != "_id" :: (k in saved <==> k in model) && (k in saved ==> saved[k] == model[k])
  {
    var rest := model - {"id", "_id"};
    if Truthy(Get(model, "id")) then rest["_id" := Str(ToString(model["id"]))] else rest
  }

  /** `_beforeLoad`: `id` takes whatever `_id` held (undefined when it is
      absent) and `_id` goes away; nothing else changes. */
  function FromStore(doc: Record): (loaded: Record)
    ensures "_id" !in loaded
    ensures "id" in loaded && loaded["id"] == Get(doc, "_id")
    ensures forall k | k != "id" && k != "_id" :: (k in loaded <==> k in doc) && (k in loaded ==> loaded[k] == doc[k])
  {
    (doc - {"_id"})["id" := Get(doc, "_id")]
  }

  method BeforeSave(model: Record) returns (saved: Record)
    ensures saved == ToStore(model)
  {
    saved := model - {"_id"};
    if Truthy(Get(saved, "id")) {
      var id := saved["id"];
      if !id.Str? {
        id := Str(ToString(id));
      }
      saved := saved["_id" := id];
    }
    saved := saved - {"id"};
  }

  method BeforeLoad(doc: Record) returns (loaded: Record)
    ensures loaded == FromStore(doc)
  {
    loaded := doc["id" := Get(doc, "_id")];
    loaded := loaded - {"_id"};
  }

  /** Saving then loading a record with a truthy identifier gives it back
      with the identifier in string form and without `_id`. */
  lemma RoundTrip(model: Record)
    requires Truthy(Get(model, "id"))
    ensures FromStore(ToStore(model)) == (model - {"_id"})["id" := Str(ToString(model["id"]))]
  {
    var back := FromStore(ToStore(model));
    var want := (model - {"_id"})["id" := Str(ToString(model["id"]))];
    assert forall k :: k in back <==> k in want;
    assert forall k | k in back :: back[k] == want[k];
  }

  /** A non-empty string identifier comes back exactly. */
  lemma StringIdRoundTrip(model: Record)
    requires "id" in model && model["id"].Str? && model["id"].s != ""
    ensures FromStore(ToStore(model)) == model - {"_id"}
  {
    RoundTrip(model);
    assert (model - {"_id"})["id" := model["id"]] == model - {"_id"};
  }

  /** A falsy identifier (0, "", false, null) is dropped on the way in. */
  lemma FalsyIdDropped(model: Record)
    requires !Truthy(Get(model, "id"))
    ensures "_id" !in ToStore(model)
    ensures FromStore(ToStore(model))["id"] == Undefined
  {
  }

  /** `_beforeLoad` is not idempotent: a second application sets `id` to the
      now absent `_id`, losing the identifier. */
  lemma FromStoreTwiceLosesId(doc: Record)
    ensures FromStore(FromStore(doc))["id"] == Undefined
    ensures Get(doc, "_id") != Undefined ==> FromStore(FromStore(doc)) != FromStore(doc)
  {
    if Get(doc, "_id") != Undefined {
      assert FromStore(FromStore(doc))["id"] != FromStore(doc)["id"];
    }
  }

  // ---------------------------------------------------------------------
  // Schema normalisation and primary key

  /** One descriptor after `_normalizeSchema`: a truthy `autoIncrement` is
      deleted, a falsy one stays, every other attribute is kept. */
  function StripAutoIncrement(desc: Record): (r: Record)
    ensures !Truthy(Get(r, "autoIncrement"))
    ensures "autoIncrement" in r <==> "autoIncrement" in desc && !Truthy(desc["autoIncrement"])
    ensures forall a | a in r :: a in desc && r[a] == desc[a]
    ensures forall a | a in desc && a != "autoIncrement" :: a in r
  {
    if Truthy(Get(desc, "autoIncrement")) then desc - {"autoIncrement"} else desc
  }

  /** The schema after `_normalizeSchema`: every descriptor through
      StripAutoIncrement, the fields and their order unchanged. */
  function NormalizedSchema(schema: Schema): Schema
  {
    Dict(schema.keys, map f | f in schema.vals :: StripAutoIncrement(schema.vals[f]))
  }

  /** After normalisation no descriptor has a truthy `autoIncrement`, and
      every other attribute of every field is what it was. */
  lemma NormalizedSchemaAttributes(schema: Schema)
    ensures NormalizedSchema(schema).keys == schema.keys && NormalizedSchema(schema).vals.Keys == schema.vals.Keys
    ensures schema.Valid() ==> NormalizedSchema(schema).Valid()
    ensures forall f | f in NormalizedSchema(schema).vals :: !Truthy(Get(NormalizedSchema(schema).vals[f], "autoIncrement"))
    ensures forall f, a | f in schema.vals && a in schema.vals[f] && a != "autoIncrement" ::
              a in NormalizedSchema(schema).vals[f] && NormalizedSchema(schema).vals[f][a] == schema.vals[f][a]
    ensures forall f, a | f in schema.vals && a in NormalizedSchema(schema).vals[f] ::
              a in schema.vals[f] && NormalizedSchema(schema).vals[f][a] == schema.vals[f][a]
  {
  }

  /** Normalisation does not change which indexes a schema asks for. */
  lemma {:induction false} NormalizedIndexPlan(schema: Schema)
    ensures IndexPlan(NormalizedSchema(schema)) == IndexPlan(schema)
  {
    var fields := Without(schema.keys, "id");
    PlanForNormalized(schema, fields);
  }

  lemma {:induction false} PlanForNormalized(schema: Schema, fields: seq<string>)
    ensures PlanFor(NormalizedSchema(schema), fields) == PlanFor(schema, fields)
  {
    if fields != [] {
      PlanForNormalized(schema, fields[1..]);
      assert IndexRequest(NormalizedSchema(schema), fields[0]) == IndexRequest(schema, fields[0]);
    }
  }

  /** `_normalizeSchema`, field by field in key order. */
  method NormalizeSchema(schema: Schema) returns (normalized: Schema)
    requires schema.Valid()
    ensures normalized == NormalizedSchema(schema)
  {
    normalized := schema;
    var i := 0;
    while i < |schema.keys|
      invariant 0 <= i <= |schema.keys|
      invariant normalized.keys == schema.keys && normalized.vals.Keys == schema.vals.Keys
      invariant forall f | f in schema.vals ::
                  normalized.vals[f] == if f in schema.keys[..i] then StripAutoIncrement(schema.vals[f]) else schema.vals[f]
    {
      var field := schema.keys[i];
      var desc := normalized.vals[field];
      if Truthy(Get(desc, "autoIncrement")) {
        desc := desc - {"autoIncrement"};
      }
      normalized := Dict(normalized.keys, normalized.vals[field := desc]);
      assert schema.keys[..i + 1] == schema.keys[..i] + [field];
      i := i + 1;
    }
    assert schema.keys[..i] == schema.keys;
  }

  /** The descriptor of a field; a missing field reads as an empty descriptor. */
  function Descriptor(schema: Schema, field: string): Record
  {
    if field in schema.vals then schema.vals[field] else map[]
  }

  predicate IsPrimary(schema: Schema, field: string)
  {
    Truthy(Get(Descriptor(schema, field), "primaryKey"))
  }

  /** The last field of `fields` marked `primaryKey`. */
  function LastPrimary(schema: Schema, fields: seq<string>): Option<string>
  {
    if fields == [] then None
    else match LastPrimary(schema, fields[1..])
      case Some(f) => Some(f)
      case None => if IsPrimary(schema, fields[0]) then Some(fields[0]) else None
  }

  lemma {:induction false} LastPrimaryIsLast(schema: Schema, fields: seq<string>)
    ensures LastPrimary(schema, fields).None? <==> forall i | 0 <= i < |fields| :: !IsPrimary(schema, fields[i])
    ensures forall i | 0 <= i < |fields| && IsPrimary(schema, fields[i]) && (forall j | i < j < |fields| :: !IsPrimary(schema, fields[j])) ::
              LastPrimary(schema, fields) == Some(fields[i])
  {
    if fields != [] {
      var tail := fields[1..];
      LastPrimaryIsLast(schema, tail);
      assert forall i | 1 <= i < |fields| :: fields[i] == tail[i - 1];
      forall i | 0 <= i < |fields| && IsPrimary(schema, fields[i]) && (forall j | i < j < |fields| :: !IsPrimary(schema, fields[j]))
        ensures LastPrimary(schema, fields) == Some(fields[i])
      {
        if i == 0 {
          assert forall j | 0 <= j < |tail| :: !IsPrimary(schema, tail[j]) by {
            forall j | 0 <= j < |tail| ensures !IsPrimary(schema, tail[j]) { assert tail[j] == fields[j + 1]; }
          }
        } else {
          assert IsPrimary(schema, tail[i - 1]);
          assert forall j | i - 1 < j < |tail| :: !IsPrimary(schema, tail[j]) by {
            forall j | i - 1 < j < |tail| ensures !IsPrimary(schema, tail[j]) { assert tail[j] == fields[j + 1]; }
          }
        }
      }
      if LastPrimary(schema, fields).None? {
        forall i | 0 <= i < |fields| ensures !IsPrimary(schema, fields[i]) {
          if i > 0 { assert fields[i] == tail[i - 1]; }
        }
      }
    }
  }

  /** `_getPK`: the last field in key order marked `primaryKey`, or `id`
      when there is none (or when that field's name is the falsy ""). */
  function PrimaryKey(schema: Schema): (pk: string)
    ensures pk == "id" || (pk in schema.keys && IsPrimary(schema, pk))
  {
    LastPrimaryMember(schema, schema.keys);
    match LastPrimary(schema, schema.keys)
    case Some(f) => if Truthy(Str(f)) then f else "id"
    case None => "id"
  }

  lemma {:induction false} LastPrimaryMember(schema: Schema, fields: seq<string>)
    ensures LastPrimary(schema, fields).Some? ==>
              LastPrimary(schema, fields).value in fields && IsPrimary(schema, LastPrimary(schema, fields).value)
  {
    if fields != [] {
      LastPrimaryMember(schema, fields[1..]);
    }
  }

  lemma PrimaryKeyChoice(schema: Schema)
    ensures (forall i | 0 <= i < |schema.keys| :: !IsPrimary(schema, schema.keys[i])) ==> PrimaryKey(schema) == "id"
    ensures forall i | 0 <= i < |schema.keys| && IsPrimary(schema, schema.keys[i]) &&
                       (forall j | i < j < |schema.keys| :: !IsPrimary(schema, schema.keys[j])) ::
              PrimaryKey(schema) == if schema.keys[i] == "" then "id" else schema.keys[i]
  {
    LastPrimaryIsLast(schema, schema.keys);
  }

  // ---------------------------------------------------------------------
  // Index plan

  /** The index a field asks for: `unique === true` wins over `index === true`
      (the source's `switch (true)` compares strictly). */
  function IndexRequest(schema: Schema, field: string): (r: Option<IndexSpec>)
    ensures r.Some? ==> r.value == IndexSpec(field, r.value.unique, r.value.unique)
    ensures r.None? <==> Get(Descriptor(schema, field), "unique") != Bool(true) && Get(Descriptor(schema, field), "index") != Bool(true)
  {
    if Get(Descriptor(schema, field), "unique") == Bool(true) then Some(IndexSpec(field, true, true))
    else if Get(Descriptor(schema, field), "index") == Bool(true) then Some(IndexSpec(field, false, false))
    else None
  }

  function PlanFor(schema: Schema, fields: seq<string>): seq<IndexSpec>
  {
    if fields == [] then []
    else
      var rest := PlanFor(schema, fields[1..]);
      match IndexRequest(schema, fields[0])
      case Some(s) => [s] + rest
      case None => rest
  }

  /** The index requests `buildIndex` issues, in key order, `id` excluded. */
  function IndexPlan(schema: Schema): (plan: seq<IndexSpec>)
    ensures forall s | s in plan :: s.fieldName != "id" && s.fieldName in schema.keys
  {
    PlanForChoice(schema, Without(schema.keys, "id"));
    PlanFor(schema, Without(schema.keys, "id"))
  }

  lemma {:induction false} PlanForChoice(schema: Schema, fields: seq<string>)
    ensures forall s | s in PlanFor(schema, fields) :: s.fieldName in fields && IndexRequest(schema, s.fieldName) == Some(s)
    ensures forall f | f in fields && IndexRequest(schema, f).Some? :: IndexRequest(schema, f).value in PlanFor(schema, fields)
  {
    if fields != [] {
      PlanForChoice(schema, fields[1..]);
    }
  }

  /** `buildIndex` never asks for an index on `id`; a field with
      `unique: true` gets a unique sparse index whatever its `index` says;
      a field with only `index: true` gets a plain index; no other field
      gets one. */
  lemma IndexPlanChoice(schema: Schema)
    ensures forall s | s in IndexPlan(schema) :: s.fieldName != "id" && s.fieldName in schema.keys
    ensures forall f :: IndexSpec(f, true, true) in IndexPlan(schema) <==>
              f in schema.keys && f != "id" && Get(Descriptor(schema, f), "unique") == Bool(true)
    ensures forall f :: IndexSpec(f, false, false) in IndexPlan(schema) <==>
              f in schema.keys && f != "id" && Get(Descriptor(schema, f), "unique") != Bool(true) &&
              Get(Descriptor(schema, f), "index") == Bool(true)
    ensures forall s | s in IndexPlan(schema) :: s == IndexSpec(s.fieldName, true, true) || s == IndexSpec(s.fieldName, false, false)
  {
    PlanForChoice(schema, Without(schema.keys, "id"));
  }

  // ---------------------------------------------------------------------
  // Criteria

  /** The `select` stripping at the top of find, count, update, destroy and
      join: an object loses its `select` key; `null` throws, as
      `delete null.select` does; anything else passes through. */
  function StripSelect(criteria: Criteria): (r: Result<Criteria>)
    ensures r.Err? <==> criteria.Null?
    ensures r.Err? ==> r.error.TypeError?
    ensures criteria.Object? ==> r == Ok(Object(criteria.d.Delete("select")))
    ensures criteria.Primitive? ==> r == Ok(criteria)
  {
    match criteria
    case Object(d) => Ok(Object(d.Delete("select")))
    case Null => Err(TypeError("Cannot convert undefined or null to object"))
    case Primitive(_) => Ok(criteria)
  }

  /** Stripping twice is stripping once, so criteria with and without a
      `select` key strip to the same thing. */
  lemma StripSelectIgnoresSelect(d: Dict<Value>)
    ensures StripSelect(Object(d.Delete("select"))) == StripSelect(Object(d))
  {
    WithoutTwice(d.keys, "select");
    assert d.Delete("select").Delete("select").vals == d.Delete("select").vals;
  }

  /** `query.criteria.where || {}`. */
  function WhereOrEmpty(q: Dict<Value>): (w: Value)
    ensures Truthy(w)
    ensures Truthy(Get(q.vals, "where")) ==> w == q.vals["where"]
    ensures !Truthy(Get(q.vals, "where")) ==> w == Obj(map[])
  {
    var w := Get(q.vals, "where");
    if Truthy(w) then w else Obj(map[])
  }

  /** Calling the cursor method named by each of `names` with that key's value, in order. */
  function ApplyOptions(c: Cursor, q: Dict<Value>, names: seq<string>): Result<Cursor>
    decreases |names|
  {
    if names == [] then Ok(c)
    else match CallCursor(c, names[0], Get(q.vals, names[0]))
      case Err(e) => Err(e)
      case Ok(c1) => ApplyOptions(c1, q, names[1..])
  }

  /** The cursor `find` builds: the `where` filter, then every other key of
      the translated criteria as a cursor method, in key order. */
  function CursorFor(q: Dict<Value>): (r: Result<Cursor>)
    ensures r.Ok? ==> r.value.query == WhereOrEmpty(q)
  {
    var names := Without(q.keys, "where");
    ApplyOptionsFields(NewCursor(WhereOrEmpty(q)), q, names);
    ApplyOptions(NewCursor(WhereOrEmpty(q)), q, names)
  }

  predicate IsCursorMethod(name: string) { name == "sort" || name == "skip" || name == "limit" }

  lemma {:induction false} ApplyOptionsFields(c: Cursor, q: Dict<Value>, names: seq<string>)
    ensures ApplyOptions(c, q, names).Ok? <==> forall i | 0 <= i < |names| :: IsCursorMethod(names[i])
    ensures ApplyOptions(c, q, names).Ok? ==>
              ApplyOptions(c, q, names) == Ok(Cursor(c.query,
                if "sort" in names then Get(q.vals, "sort") else c.sort,
                if "skip" in names then Get(q.vals, "skip") else c.skip,
                if "limit" in names then Get(q.vals, "limit") else c.limit))
    decreases |names|
  {
    if names != [] {
      match CallCursor(c, names[0], Get(q.vals, names[0]))
      case Err(_) =>
      case Ok(c1) =>
        ApplyOptionsFields(c1, q, names[1..]);
        assert forall i | 1 <= i < |names| :: names[i] == names[1..][i - 1];
        assert forall i | 0 <= i < |names[1..]| :: names[1..][i] == names[i + 1];
        assert forall x :: x in names <==> x == names[0] || x in names[1..];
    }
  }

  /** The cursor does not depend on the order of the criteria keys: each of
      `sort`, `skip`, `limit` present is recorded with its value, and any
      other key (besides `where`) makes `find` throw. */
  lemma CursorForFields(q: Dict<Value>)
    requires q.Valid()
    ensures CursorFor(q).Ok? <==> forall k | k in q.vals && k != "where" :: IsCursorMethod(k)
    ensures CursorFor(q).Ok? ==>
              CursorFor(q) == Ok(Cursor(WhereOrEmpty(q), Get(q.vals, "sort"), Get(q.vals, "skip"), Get(q.vals, "limit")))
  {
    var names := Without(q.keys, "where");
    assert forall x :: x in names <==> x in q.vals && x != "where";
    ApplyOptionsFields(NewCursor(WhereOrEmpty(q)), q, names);
    if forall i | 0 <= i < |names| :: IsCursorMethod(names[i]) {
      forall k | k in q.vals && k != "where" ensures IsCursorMethod(k) {
        var i :| 0 <= i < |names| && names[i] == k;
      }
    } else {
      var i :| 0 <= i < |names| && !IsCursorMethod(names[i]);
      assert names[i] in q.vals && names[i] != "where";
    }
  }

  function LoadAll(found: seq<Record>): (r: seq<Record>)
    ensures |r| == |found|
    ensures forall i | 0 <= i < |r| :: r[i] == FromStore(found[i])
  {
    seq(|found|, i requires 0 <= i < |found| => FromStore(found[i]))
  }

  /** `_beforeLoad` applied to every document the store returned, in place. */
  method LoadEach(found: seq<Record>) returns (results: seq<Record>)
    ensures results == LoadAll(found)
  {
    results := found;
    var j := 0;
    while j < |results|
      invariant 0 <= j <= |results| && |results| == |found|
      invariant forall k | 0 <= k < j :: results[k] == FromStore(found[k])
      invariant forall k | j <= k < |results| :: results[k] == found[k]
    {
      var loaded := BeforeLoad(results[j]);
      results := results[j := loaded];
      j := j + 1;
    }
  }

  function SaveAll(items: seq<Record>): (r: seq<Record>)
    ensures |r| == |items|
    ensures forall i | 0 <= i < |r| :: r[i] == ToStore(items[i])
  {
    seq(|items|, i requires 0 <= i < |items| => ToStore(items[i]))
  }

  /** `createEach` wraps a single record in a one-element array. */
  function Items(data: Data): (items: seq<Record>)
    ensures data.Single? ==> items == [data.record]
    ensures data.Batch? ==> items == data.records
  {
    match data
    case Single(r) => [r]
    case Batch(rs) => rs
  }

  /** What a created record looks like to the caller: its `_id` is gone and
      `id` is the string form of a truthy identifier, or the identifier the
      store generated for it. */
  lemma CreatedRecords(items: seq<Record>, ids: seq<string>)
    requires |ids| == |items|
    ensures |LoadAll(WithIds(SaveAll(items), ids))| == |items|
    ensures forall i | 0 <= i < |items| ::
              LoadAll(WithIds(SaveAll(items), ids))[i] ==
                (items[i] - {"_id"})["id" := if Truthy(Get(items[i], "id")) then Str(ToString(items[i]["id"])) else Str(ids[i])]
  {
    var out := LoadAll(WithIds(SaveAll(items), ids));
    forall i | 0 <= i < |items|
      ensures out[i] == (items[i] - {"_id"})["id" := if Truthy(Get(items[i], "id")) then Str(ToString(items[i]["id"])) else Str(ids[i])]
    {
      var want := (items[i] - {"_id"})["id" := if Truthy(Get(items[i], "id")) then Str(ToString(items[i]["id"])) else Str(ids[i])];
      assert forall k :: k in out[i] <==> k in want;
      assert forall k | k in want :: out[i][k] == want[k];
    }
  }

  /** The update document `update` sends: `values` without `id` and `_id`
      under `$set`, with a truthy `$unset` moved out to its own key. */
  function UpdateModifier(values: Record): (m: Modifier)
    ensures "id" !in m.setFields && "_id" !in m.setFields
    ensures m.unset.Some? ==> Truthy(m.unset.value) && "$unset" !in m.setFields
  {
    var kept := values - {"id", "_id"};
    if Truthy(Get(kept, "$unset")) then Modifier(kept - {"$unset"}, Some(kept["$unset"])) else Modifier(kept, None)
  }

  /** The modifier never sets `id` or `_id`; a truthy `$unset` becomes the
      modifier's `$unset` part and leaves the set part, a falsy one is set
      like any other value; every other value is set as given. */
  lemma UpdateModifierFields(values: Record)
    ensures var m := UpdateModifier(values);
            && "id" !in m.setFields && "_id" !in m.setFields
            && (Truthy(Get(values, "$unset")) ==> m.unset == Some(values["$unset"]) && "$unset" !in m.setFields)
            && (!Truthy(Get(values, "$unset")) ==> m.unset == None && Get(m.setFields, "$unset") == Get(values, "$unset"))
            && forall k | k != "id" && k != "_id" && k != "$unset" ::
                 (k in m.setFields <==> k in values) && (k in values ==> m.setFields[k] == values[k])
  {
  }

  /** The modifier `update` hands to the store, built step by step. */
  method MakeModifier(values: Record) returns (m: Modifier)
    ensures m == UpdateModifier(values)
  {
    var fields := values - {"id"};
    fields := fields - {"_id"};
    var unset := None;
    if Truthy(Get(fields, "$unset")) {
      unset := Some(fields["$unset"]);
      fields := fields - {"$unset"};
    }
    assert fields == (values - {"id", "_id"}) - (if unset.Some? then {"$unset"} else {});
    m := Modifier(fields, unset);
  }

  // ---------------------------------------------------------------------
  // The collection

  /** Issuing the plan from the `i`-th field on: that field's request (if
      any) first, then the rest. */
  lemma PlanStep(idx: seq<IndexSpec>, ds: seq<Record>, schema: Schema, fields: seq<string>, i: nat)
    requires i < |fields|
    ensures EnsureAll(idx, ds, PlanFor(schema, fields[i..])) ==
              match IndexRequest(schema, fields[i])
              case None => EnsureAll(idx, ds, PlanFor(schema, fields[i + 1..]))
              case Some(s) =>
                var (idx1, e1) := EnsureStep(idx, ds, s);
                var rest := EnsureAll(idx1, ds, PlanFor(schema, fields[i + 1..]));
                (rest.0, if e1.Some? then e1 else rest.1)
  {
    assert fields[i..][1..] == fields[i + 1..];
    var request := IndexRequest(schema, fields[i]);
    if request.Some? {
      assert ([request.value] + PlanFor(schema, fields[i + 1..]))[1..] == PlanFor(schema, fields[i + 1..]);
    }
  }

  class Collection {
    const options: Record
    const schema: Schema
    const db: Datastore
    const translate: Translator

    /** The synchronous part of the constructor: the options are kept and
        the schema normalised. */
    constructor (options: Record, schema: Schema, db: Datastore, translate: Translator)
      requires schema.Valid()
      ensures this.options == options && this.schema == NormalizedSchema(schema)
      ensures this.db == db && this.translate == translate
    {
      var normalized := NormalizeSchema(schema);
      this.options := options;
      this.schema := normalized;
      this.db := db;
      this.translate := translate;
    }

    /** The collection opened on `files`: the store file named by
        `options.filename` is loaded if it exists; a new file gets the
        schema's indexes. The result is what the constructor's callback gets. */
    static method Open(options: Record, schema: Schema, translate: Translator, matches: Matcher, order: Sorter,
                       files: map<string, seq<Record>>) returns (c: Collection, err: Option<Error>)
      requires schema.Valid()
      ensures fresh(c) && fresh(c.db) && c.db.Valid()
      ensures c.options == options && c.schema == NormalizedSchema(schema) && c.translate == translate
      ensures c.db.matches == matches && c.db.order == order
      ensures err == OpenOutcome(options, schema, files)
      ensures (c.db.docs, c.db.indexes) == OpenedStore(options, schema, files)
    {
      var filename := Get(options, "filename");
      var isNew := !(filename.Str? && filename.s in files);
      var db := new Datastore(matches, order);
      c := new Collection(options, schema, db, translate);
      err := db.LoadDatabase(if isNew then [] else files[filename.s]);
      if err.None? && isNew {
        err := c.BuildIndex();
        NormalizedIndexPlan(schema);
        EnsureAllEmptyStore([], IndexPlan(schema));
        FirstUnnamedPlan(schema);
      }
    }

    /** `buildIndex`: every index request of the plan is issued; the first
        error is the one reported. */
    method BuildIndex() returns (err: Option<Error>)
      requires db.Valid()
      modifies db
      ensures db.Valid() && db.docs == old(db.docs)
      ensures (db.indexes, err) == EnsureAll(old(db.indexes), db.docs, IndexPlan(schema))
    {
      var fields := Without(schema.keys, "id");
      ghost var goal := EnsureAll(db.indexes, db.docs, PlanFor(schema, fields));
      err := None;
      var i := 0;
      while i < |fields|
        invariant 0 <= i <= |fields|
        invariant db.docs == old(db.docs)
        invariant goal.0 == EnsureAll(db.indexes, db.docs, PlanFor(schema, fields[i..])).0
        invariant goal.1 == if err.Some? then err else EnsureAll(db.indexes, db.docs, PlanFor(schema, fields[i..])).1
      {
        PlanStep(db.indexes, db.docs, schema, fields, i);
        var request := IndexRequest(schema, fields[i]);
        if request.Some? {
          var e := db.EnsureIndex(request.value);
          if err.None? {
            err := e;
          }
        }
        i := i + 1;
      }
    }

    /** `_getPK`: one pass over the schema keys remembering the last
        primary-key field, then `id` if none (or a falsy name) was found. */
    method GetPK() returns (pk: string)
      ensures pk == PrimaryKey(schema)
    {
      var found: Option<string> := None;
      var i := 0;
      while i < |schema.keys|
        invariant 0 <= i <= |schema.keys|
        invariant LastPrimary(schema, schema.keys) ==
                    if LastPrimary(schema, schema.keys[i..]).Some? then LastPrimary(schema, schema.keys[i..]) else found
      {
        assert schema.keys[i..][1..] == schema.keys[i + 1..];
        if Truthy(Get(Descriptor(schema, schema.keys[i]), "primaryKey")) {
          found := Some(schema.keys[i]);
        }
        i := i + 1;
      }
      assert schema.keys[i..] == [];
      pk := if found.Some? && Truthy(Str(found.value)) then found.value else "id";
    }

    /** The translated criteria, after `select` has been stripped. */
    function Translate(criteria: Criteria): Result<Dict<Value>>
    {
      match StripSelect(criteria)
      case Err(e) => Err(e)
      case Ok(c) => translate(c, schema)
    }

    /** What `find` reports: a stripping or translation error before the
        store is consulted, a cursor error, a store error, or every match
        through `_beforeLoad`. */
    function FindResult(criteria: Criteria): (r: Result<seq<Record>>)
      reads db
      ensures Translate(criteria).Err? ==> r == Err(Translate(criteria).error)
      ensures r.Ok? ==> CursorResult(criteria).Ok? && |r.value| <= |db.docs|
    {
      match CursorResult(criteria)
      case Err(e) => Err(e)
      case Ok(cursor) =>
        match db.Exec(cursor)
        case Err(e) => Err(e)
        case Ok(found) => Ok(LoadAll(found))
    }

    /** What `count` reports: only the translated `where` reaches the store. */
    function CountResult(criteria: Criteria): (r: Result<nat>)
      reads db
      ensures Translate(criteria).Err? ==> r == Err(Translate(criteria).error)
      ensures r.Ok? ==> r.value <= |db.docs|
    {
      match Translate(criteria)
      case Err(e) => Err(e)
      case Ok(q) => db.Count(Get(q.vals, "where"))
    }

    /** The cursor `find` runs: the criteria stripped of `select`,
        translated, and turned into cursor calls. */
    function CursorResult(criteria: Criteria): Result<Cursor>
    {
      match Translate(criteria)
      case Err(e) => Err(e)
      case Ok(q) => CursorFor(q)
    }

    /** The first half of `find`: translation, then one cursor call per
        criteria key other than `where`, in key order. */
    method MakeCursor(criteria: Criteria) returns (res: Result<Cursor>)
      ensures res == CursorResult(criteria)
    {
      var stripped := StripSelect(criteria);
      if stripped.Err? {
        return Err(stripped.error);
      }
      var query := translate(stripped.value, schema);
      if query.Err? {
        return Err(query.error);
      }
      var q := query.value;
      var where := Get(q.vals, "where");
      if !Truthy(where) {
        where := Obj(map[]);
      }
      var names := Without(q.keys, "where");
      var cursor := NewCursor(where);
      var i := 0;
      while i < |names|
        invariant 0 <= i <= |names|
        invariant CursorFor(q) == ApplyOptions(cursor, q, names[i..])
      {
        assert names[i..][1..] == names[i + 1..];
        var next := CallCursor(cursor, names[i], Get(q.vals, names[i]));
        if next.Err? {
          return Err(next.error);
        }
        cursor := next.value;
        i := i + 1;
      }
      assert names[i..] == [];
      res := Ok(cursor);
    }

    method Find(criteria: Criteria) returns (res: Result<seq<Record>>)
      ensures res == FindResult(criteria)
    {
      var cursor := MakeCursor(criteria);
      if cursor.Err? {
        return Err(cursor.error);
      }
      var found := db.Exec(cursor.value);
      if found.Err? {
        return Err(found.error);
      }
      var results := LoadEach(found.value);
      res := Ok(results);
    }

    method Count(criteria: Criteria) returns (res: Result<nat>)
      ensures res == CountResult(criteria)
    {
      var stripped := StripSelect(criteria);
      if stripped.Err? {
        return Err(stripped.error);
      }
      var query := translate(stripped.value, schema);
      if query.Err? {
        return Err(query.error);
      }
      res := db.Count(Get(query.value.vals, "where"));
    }

    /** `update`: the criteria are translated first (an error leaves the
        store alone); then every matching document gets the update
        document; the result is the number of documents modified. */
    method Update(criteria: Criteria, values: Record) returns (res: Result<nat>)
      requires db.Valid()
      modifies db
      ensures db.Valid() && db.indexes == old(db.indexes)
      ensures |db.docs| == |old(db.docs)|
      ensures forall i | 0 <= i < |db.docs| :: Get(db.docs[i], "_id") == Get(old(db.docs)[i], "_id")
      ensures match Translate(criteria)
              case Err(e) => res == Err(e) && db.docs == old(db.docs)
              case Ok(q) =>
                match db.UpdateAll(old(db.docs), Get(q.vals, "where"), UpdateModifier(values))
                case Err(e) => res == Err(e) && db.docs == old(db.docs)
                case Ok((after, n)) =>
                  if Consistent(after, db.indexes) then res == Ok(n) && db.docs == after
                  else res.Err? && db.docs == old(db.docs)
    {
      var stripped := StripSelect(criteria);
      if stripped.Err? {
        return Err(stripped.error);
      }
      var query := translate(stripped.value, schema);
      if query.Err? {
        return Err(query.error);
      }
      var modifier := MakeModifier(values);
      res := db.Update(Get(query.value.vals, "where"), modifier);
    }

    /** `destroy`: every document matching the translated `where` is removed;
        the result is how many. */
    method Destroy(criteria: Criteria) returns (res: Result<nat>)
      requires db.Valid()
      modifies db
      ensures db.Valid() && db.indexes == old(db.indexes)
      ensures match Translate(criteria)
              case Err(e) => res == Err(e) && db.docs == old(db.docs)
              case Ok(q) =>
                match db.RemoveAll(old(db.docs), Get(q.vals, "where"))
                case Err(e) => res == Err(e) && db.docs == old(db.docs)
                case Ok((left, n)) => res == Ok(n) && db.docs == left
    {
      var stripped := StripSelect(criteria);
      if stripped.Err? {
        return Err(stripped.error);
      }
      var query := translate(stripped.value, schema);
      if query.Err? {
        return Err(query.error);
      }
      res := db.Remove(Get(query.value.vals, "where"));
    }

    /** `createEach`: every record through `_beforeSave`, one insert, every
        inserted document through `_beforeLoad`. `ids` are the identifiers
        the store generates for records without one. */
    method CreateEach(data: Data, ids: seq<string>) returns (res: Result<seq<Record>>)
      requires db.Valid()
      requires |ids| == |Items(data)|
      requires forall i, j | 0 <= i < j < |ids| :: ids[i] != ids[j]
      requires forall i, d | 0 <= i < |ids| && d in db.docs :: Get(d, "_id") != Str(ids[i])
      modifies db
      ensures db.Valid() && db.indexes == old(db.indexes)
      ensures var batch := WithIds(SaveAll(Items(data)), ids);
              if Insertable(old(db.docs), batch, db.indexes)
              then res == Ok(LoadAll(batch)) && db.docs == old(db.docs) + batch
              else res.Err? && db.docs == old(db.docs)
    {
      var items := Items(data);
      var i := 0;
      while i < |items|
        modifies {}
        invariant 0 <= i <= |items| && |items| == |Items(data)|
        invariant forall k | 0 <= k < i :: items[k] == ToStore(Items(data)[k])
        invariant forall k | i <= k < |items| :: items[k] == Items(data)[k]
      {
        var saved := BeforeSave(items[i]);
        items := items[i := saved];
        i := i + 1;
      }
      assert items == SaveAll(Items(data));
      var inserted := db.Insert(items, ids);
      if inserted.Err? {
        return Err(inserted.error);
      }
      var results := inserted.value;
      var j := 0;
      while j < |results|
        modifies {}
        invariant 0 <= j <= |results| && |results| == |inserted.value|
        invariant forall k | 0 <= k < j :: results[k] == FromStore(inserted.value[k])
        invariant forall k | j <= k < |results| :: results[k] == inserted.value[k]
      {
        var loaded := BeforeLoad(results[j]);
        results := results[j := loaded];
        j := j + 1;
      }
      assert results == LoadAll(inserted.value);
      res := Ok(results);
    }

    /** `create`: `createEach`, then the first result (undefined when
        nothing was inserted). */
    method Create(data: Data, ids: seq<string>) returns (res: Result<Option<Record>>)
      requires db.Valid()
      requires |ids| == |Items(data)|
      requires forall i, j | 0 <= i < j < |ids| :: ids[i] != ids[j]
      requires forall i, d | 0 <= i < |ids| && d in db.docs :: Get(d, "_id") != Str(ids[i])
      modifies db
      ensures db.Valid() && db.indexes == old(db.indexes)
      ensures var batch := WithIds(SaveAll(Items(data)), ids);
              if Insertable(old(db.docs), batch, db.indexes)
              then res == Ok(if batch == [] then None else Some(FromStore(batch[0]))) && db.docs == old(db.docs) + batch
              else res.Err? && db.docs == old(db.docs)
    {
      var results := CreateEach(data, ids);
      if results.Err? {
        return Err(results.error);
      }
      res := Ok(if results.value == [] then None else Some(results.value[0]));
    }
  }

  /** The index build of a new store fails exactly when an attribute with
      the empty name asks for an index. */
  predicate UnnamedIndex(schema: Schema)
  {
    "" in schema.keys && IndexRequest(schema, "").Some?
  }

  lemma {:induction false} FirstUnnamedPlanFor(schema: Schema, fields: seq<string>)
    ensures FirstUnnamed(PlanFor(schema, fields)) ==
              if "" in fields && IndexRequest(schema, "").Some? then Some(StoreError(MissingFieldName)) else None
  {
    if fields != [] {
      FirstUnnamedPlanFor(schema, fields[1..]);
      assert fields == [fields[0]] + fields[1..];
    }
  }

  /** Over a store without documents no unique index can be refused, so the
      only request of the plan that fails is one without a field name. */
  lemma FirstUnnamedPlan(schema: Schema)
    ensures FirstUnnamed(IndexPlan(schema)) == if UnnamedIndex(schema) then Some(StoreError(MissingFieldName)) else None
  {
    FirstUnnamedPlanFor(schema, Without(schema.keys, "id"));
  }

  /** What the collection constructor reports: for an existing file, a
      load failure; for a new file, the index build's first failure. */
  function OpenOutcome(options: Record, schema: Schema, files: map<string, seq<Record>>): Option<Error>
  {
    var filename := Get(options, "filename");
    if filename.Str? && filename.s in files then
      if Consistent(files[filename.s], []) then None else Some(StoreError(CorruptData))
    else if UnnamedIndex(schema) then Some(StoreError(MissingFieldName))
    else None
  }

  /** The store the collection constructor leaves behind: an existing file's
      documents without indexes (nothing, if they are corrupt); for a new
      file, an empty store with the indexes the schema's plan built. */
  function OpenedStore(options: Record, schema: Schema, files: map<string, seq<Record>>): (seq<Record>, seq<IndexSpec>)
  {
    var filename := Get(options, "filename");
    if filename.Str? && filename.s in files then
      if Consistent(files[filename.s], []) then (files[filename.s], []) else ([], [])
    else ([], EnsureAll([], [], IndexPlan(schema)).0)
  }

  /** A new store whose schema names every index field gets an index on
      each field the schema asks to index, and on no other. */
  lemma NewStoreIndexes(options: Record, schema: Schema, files: map<string, seq<Record>>)
    requires !(Get(options, "filename").Str? && Get(options, "filename").s in files)
    requires !UnnamedIndex(schema)
    ensures OpenedStore(options, schema, files).0 == []
    ensures forall s | s in IndexPlan(schema) :: HasIndexOn(OpenedStore(options, schema, files).1, s.fieldName)
    ensures forall x | x in OpenedStore(options, schema, files).1 :: x in IndexPlan(schema)
  {
    EnsureAllEmptyStore([], IndexPlan(schema));
    FirstUnnamedPlan(schema);
    EnsureAllCovers([], [], IndexPlan(schema));
    EnsureAllFromPlan([], [], IndexPlan(schema));
  }

  /** Criteria with and without a `select` key are the same query to every
      operation. */
  lemma SelectIgnored(c: Collection, d: Dict<Value>)
    ensures c.Translate(Object(d.Delete("select"))) == c.Translate(Object(d))
    ensures c.FindResult(Object(d.Delete("select"))) == c.FindResult(Object(d))
    ensures c.CountResult(Object(d.Delete("select"))) == c.CountResult(Object(d))
  {
    StripSelectIgnoresSelect(d);
  }

  /** For criteria that translate to nothing but a `where` and a `sort`
      (no `skip`, no `limit`), `count` equals the number of documents
      `find` returns, and both fail together: sorting only reorders. */
  lemma CountMatchesFind(c: Collection, criteria: Criteria)
    requires c.Translate(criteria).Ok?
    requires forall k | k in c.Translate(criteria).value.keys :: k == "where" || k == "sort"
    ensures c.CountResult(criteria).Ok? <==> c.FindResult(criteria).Ok?
    ensures c.CountResult(criteria).Ok? ==> c.CountResult(criteria).value == |c.FindResult(criteria).value|
  {
    var q := c.Translate(criteria).value;
    var names := Without(q.keys, "where");
    forall i | 0 <= i < |names| ensures names[i] == "sort" {
      assert names[i] in names;
    }
    ApplyOptionsFields(NewCursor(WhereOrEmpty(q)), q, names);
    var sort := if "sort" in names then Get(q.vals, "sort") else Undefined;
    assert CursorFor(q) == Ok(Cursor(WhereOrEmpty(q), sort, Undefined, Undefined));
    assert CursorQuery(WhereOrEmpty(q)) == CursorQuery(Get(q.vals, "where"));
    var found := c.db.Filter(c.db.docs, CursorQuery(Get(q.vals, "where")));
    if found.Ok? && Truthy(sort) {
      assert Permutes(c.db.order);
      assert |multiset(c.db.order(sort, found.value))| == |multiset(found.value)|;
    }
  }

  /** Every record `find` returns is in the model's form: `id` present, no `_id`. */
  lemma FoundRecordsLoaded(c: Collection, criteria: Criteria)
    requires c.FindResult(criteria).Ok?
    ensures forall r | r in c.FindResult(criteria).value :: "id" in r && "_id" !in r
  {
  }
}
