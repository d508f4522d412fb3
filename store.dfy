/** The embedded document store (NeDB) that every collection owns: an
    in-memory sequence of documents with a unique `_id` field, optional
    secondary indexes, query cursors and multi-document update and remove.
    Query matching and sorting belong to the store's own dialect and are
    parameters (`matches`, `order`). */
module Store {
  import opened Js
  import opened Errors

  /** An index request as passed to `ensureIndex`: `{fieldName}` is
      IndexSpec(f, false, false); `{fieldName, unique: true, sparse: true}`
      is IndexSpec(f, true, true). */
  datatype IndexSpec = IndexSpec(fieldName: string, unique: bool, sparse: bool)

  /** The state outside the process: existing directories, and the store
      files with the documents they hold. */
  datatype FileSystem = FileSystem(dirs: set<string>, files: map<string, seq<Record>>)

  /** A query cursor. `sort`, `skip` and `limit` only record their argument;
      `exec` applies them, always sort first, then skip, then limit. */
  datatype Cursor = Cursor(query: Value, sort: Value, skip: Value, limit: Value)

  /** The update document `{ $set: …, $unset: … }`. */
  datatype Modifier = Modifier(setFields: Record, unset: Option<Value>)

  /** The store's query matcher; an error stands for a malformed native
      query. The empty query `{}` matches every document. */
  type Matcher = f: (Value, Record) -> Result<bool> | EmptyMatchesAll(f)
    witness (q: Value, d: Record) => Ok(true)

  ghost predicate EmptyMatchesAll(f: (Value, Record) -> Result<bool>)
  {
    forall d: Record :: f(Obj(map[]), d) == Ok(true)
  }

  /** The store's ordering of documents by a sort specification: a
      permutation of the documents it is given. */
  type Sorter = f: (Value, seq<Record>) -> seq<Record> | Permutes(f)
    witness (v: Value, s: seq<Record>) => s

  ghost predicate Permutes(f: (Value, seq<Record>) -> seq<Record>)
  {
    forall v: Value, s: seq<Record> :: multiset(f(v, s)) == multiset(s)
  }

  function NewCursor(query: Value): (c: Cursor)
    ensures c.query == query && c.sort == Undefined && c.skip == Undefined && c.limit == Undefined
  {
    Cursor(query, Undefined, Undefined, Undefined)
  }

  /** `cursor[name](arg)`: only `sort`, `skip` and `limit` are cursor
      methods; anything else is not a function and throws. */
  function CallCursor(c: Cursor, name: string, arg: Value): (r: Result<Cursor>)
    ensures r.Err? <==> name != "sort" && name != "skip" && name != "limit"
    ensures r.Ok? ==> r.value.query == c.query
    ensures r.Ok? ==> r.value.sort == (if name == "sort" then arg else c.sort)
    ensures r.Ok? ==> r.value.skip == (if name == "skip" then arg else c.skip)
    ensures r.Ok? ==> r.value.limit == (if name == "limit" then arg else c.limit)
  {
    if name == "sort" then Ok(c.(sort := arg))
    else if name == "skip" then Ok(c.(skip := arg))
    else if name == "limit" then Ok(c.(limit := arg))
    else Err(TypeError("cursor." + name + " is not a function"))
  }

  /** A cursor query that is falsy means "match everything" (`query || {}`). */
  function CursorQuery(q: Value): (r: Value)
    ensures Truthy(r)
    ensures Truthy(q) ==> r == q
    ensures !Truthy(q) ==> r == Obj(map[])
  {
    if Truthy(q) then q else Obj(map[])
  }

  function Min(a: int, b: int): int { if a <= b then a else b }

  /** Skip, then limit: `limit || length` and `skip || 0`; only positive
      integers take effect. */
  function SkipFrom(skip: Value, len: nat): (from: nat)
    ensures from <= len
  {
    if skip.Num? && skip.n > 0 then Min(skip.n, len) else 0
  }

  function Page(s: seq<Record>, skip: Value, limit: Value): (r: seq<Record>)
    ensures SkipFrom(skip, |s|) + |r| <= |s|
    ensures |r| == if limit.Num? && limit.n > 0 then Min(limit.n, |s| - SkipFrom(skip, |s|)) else |s| - SkipFrom(skip, |s|)
    ensures !(skip.Num? && skip.n > 0) && !(limit.Num? && limit.n > 0) ==> r == s
    ensures limit.Num? && limit.n > 0 ==> |r| <= limit.n
    ensures forall i | 0 <= i < |r| :: r[i] == s[SkipFrom(skip, |s|) + i]
  {
    var from := SkipFrom(skip, |s|);
    var count := if limit.Num? && limit.n > 0 then limit.n else |s|;
    s[from..Min(from + count, |s|)]
  }

  /** The keys `$unset` removes: the own keys of its argument, which must be an object. */
  function UnsetKeys(u: Value): (r: Option<set<string>>)
    ensures r.None? <==> !(u.Obj? || u.Arr?)
    ensures u.Obj? ==> r == Some(u.fields.Keys)
  {
    match u
    case Obj(fields) => Some(fields.Keys)
    case Arr(items) => Some(set i | 0 <= i < |items| :: NatToString(i))
    case _ => None
  }

  /** The fields a modifier's `$unset` removes (none without `$unset`). */
  function Unset(m: Modifier): set<string>
  {
    if m.unset.Some? && UnsetKeys(m.unset.value).Some? then UnsetKeys(m.unset.value).value else {}
  }

  predicate StartsWithDollar(k: string) { |k| > 0 && k[0] == '$' }

  /** Apply `$set`, then `$unset`, to one document; the store refuses to
      change `_id` and refuses field names that start with `$`. The update
      succeeds exactly when `$unset` (if any) is an object, `_id` stays, and
      no field name starts with `$`. */
  function ApplyModifier(doc: Record, m: Modifier): (r: Result<Record>)
    ensures r.Ok? ==> Get(r.value, "_id") == Get(doc, "_id")
    ensures r.Ok? <==>
              && (m.unset.None? || UnsetKeys(m.unset.value).Some?)
              && Get((doc + m.setFields) - Unset(m), "_id") == Get(doc, "_id")
              && forall k | k in (doc + m.setFields) - Unset(m) :: !StartsWithDollar(k)
    ensures r.Ok? ==> r.value == (doc + m.setFields) - Unset(m)
  {
    var afterSet := doc + m.setFields;
    var after :=
      match m.unset
      case None => Some(afterSet)
      case Some(u) => match UnsetKeys(u) { case None => None case Some(ks) => Some(afterSet - ks) };
    match after
    case None => Err(StoreError("Modifier $unset's argument must be an object"))
    case Some(d) =>
      if Get(d, "_id") != Get(doc, "_id") then Err(StoreError("You cannot change a document's _id"))
      else if exists k | k in d :: StartsWithDollar(k) then Err(StoreError("Field names cannot begin with the $ character"))
      else Ok(d)
  }

  /** A successful update: set fields carry their new values, unset fields
      are gone, every other field is untouched, nothing else appears, and no
      field name starts with `$`; a non-object `$unset` is refused. */
  lemma ApplyModifierFields(doc: Record, m: Modifier)
    ensures m.unset.Some? && UnsetKeys(m.unset.value).None? ==> ApplyModifier(doc, m).Err?
    ensures var r := ApplyModifier(doc, m);
            r.Ok? ==>
              && (forall k | k in r.value :: !StartsWithDollar(k))
              && (forall k | k in m.setFields && k !in Unset(m) :: k in r.value && r.value[k] == m.setFields[k])
              && (forall k | k in Unset(m) :: k !in r.value)
              && (forall k | k in doc && k !in m.setFields && k !in Unset(m) :: k in r.value && r.value[k] == doc[k])
              && (forall k | k in r.value :: k in doc || k in m.setFields)
  {
  }

  /** `a` is `b` with some elements left out, the rest in order. */
  ghost predicate Subsequence(a: seq<Record>, b: seq<Record>)
    decreases |b|
  {
    if a == [] then true
    else if b == [] then false
    else (a[0] == b[0] && Subsequence(a[1..], b[1..])) || Subsequence(a, b[1..])
  }

  /** Whether an index holds an entry for `d`: a sparse index skips documents without the field. */
  predicate Indexed(x: IndexSpec, d: Record)
  {
    !x.sparse || Get(d, x.fieldName) != Undefined
  }

  /** Two documents that a unique index refuses to hold together. */
  predicate Clash(x: IndexSpec, a: Record, b: Record)
  {
    x.unique && Indexed(x, a) && Indexed(x, b) && Get(a, x.fieldName) == Get(b, x.fieldName)
  }

  /** What the store's indexes guarantee: every document has an `_id`, the
      `_id`s are distinct, and no unique index sees two equal keys. */
  predicate Consistent(ds: seq<Record>, idx: seq<IndexSpec>)
  {
    && (forall i | 0 <= i < |ds| :: "_id" in ds[i])
    && (forall i, j | 0 <= i < j < |ds| :: Get(ds[i], "_id") != Get(ds[j], "_id"))
    && (forall k, i, j | 0 <= k < |idx| && 0 <= i < j < |ds| :: !Clash(idx[k], ds[i], ds[j]))
  }

  predicate HasIndexOn(idx: seq<IndexSpec>, field: string)
  {
    exists k | 0 <= k < |idx| :: idx[k].fieldName == field
  }

  /** One `ensureIndex` call: a missing field name is an error, an index
      already on the field makes it a no-op, and building a unique index
      over clashing documents fails and leaves no index behind. */
  function EnsureStep(idx: seq<IndexSpec>, ds: seq<Record>, s: IndexSpec): (r: (seq<IndexSpec>, Option<Error>))
    ensures r.1.None? ==> HasIndexOn(r.0, s.fieldName)
    ensures r.0 == idx || r.0 == idx + [s]
    ensures r.1.Some? ==> r.0 == idx
    ensures HasIndexOn(idx, s.fieldName) && s.fieldName != "" ==> r == (idx, None)
    ensures Consistent(ds, idx) ==> Consistent(ds, r.0)
    ensures s.fieldName == "" ==> r == (idx, Some(StoreError(MissingFieldName)))
    ensures s.fieldName != "" && !HasIndexOn(idx, s.fieldName) ==> (r.1.None? <==> Consistent(ds, idx + [s]))
  {
    if s.fieldName == "" then (idx, Some(StoreError(MissingFieldName)))
    else if HasIndexOn(idx, s.fieldName) then (idx, None)
    else if Consistent(ds, idx + [s]) then
      assert (idx + [s])[|idx|].fieldName == s.fieldName;
      (idx + [s], None)
    else (idx, Some(StoreError("Unique constraint violated on " + s.fieldName)))
  }

  /** Every request of `plan` issued in order; the first error is the one reported. */
  function EnsureAll(idx: seq<IndexSpec>, ds: seq<Record>, plan: seq<IndexSpec>): (r: (seq<IndexSpec>, Option<Error>))
    ensures Consistent(ds, idx) ==> Consistent(ds, r.0)
    ensures forall k | 0 <= k < |idx| :: k < |r.0| && r.0[k] == idx[k]
    decreases |plan|
  {
    if plan == [] then (idx, None)
    else
      var (idx1, e1) := EnsureStep(idx, ds, plan[0]);
      assert |idx| <= |idx1| && forall k | 0 <= k < |idx| :: idx1[k] == idx[k];
      var rest := EnsureAll(idx1, ds, plan[1..]);
      assert forall k | 0 <= k < |idx| :: k < |rest.0| && rest.0[k] == idx1[k];
      (rest.0, if e1.Some? then e1 else rest.1)
  }

  const MissingFieldName := "Cannot create an index without a fieldName"

  /** The error of the first request without a field name, if any. */
  function FirstUnnamed(plan: seq<IndexSpec>): Option<Error>
  {
    if plan == [] then None
    else if plan[0].fieldName == "" then Some(StoreError(MissingFieldName))
    else FirstUnnamed(plan[1..])
  }

  /** Over a store without documents no unique index can be refused, so
      the only request that fails is one without a field name. */
  lemma {:induction false} EnsureAllEmptyStore(idx: seq<IndexSpec>, plan: seq<IndexSpec>)
    ensures EnsureAll(idx, [], plan).1 == FirstUnnamed(plan)
    decreases |plan|
  {
    if plan != [] {
      var (idx1, e1) := EnsureStep(idx, [], plan[0]);
      EnsureAllEmptyStore(idx1, plan[1..]);
    }
  }

  /** Ensuring the same indexes again after a call that succeeded changes
      nothing and reports no error. */
  lemma {:induction false} EnsureAllIdempotent(idx: seq<IndexSpec>, ds: seq<Record>, plan: seq<IndexSpec>)
    requires EnsureAll(idx, ds, plan).1.None?
    ensures EnsureAll(EnsureAll(idx, ds, plan).0, ds, plan) == (EnsureAll(idx, ds, plan).0, None)
  {
    EnsureAllCovers(idx, ds, plan);
    var done := EnsureAll(idx, ds, plan).0;
    EnsureAllNoop(done, ds, plan);
  }

  /** After a successful call every requested field has an index, and no
      field name was empty. */
  lemma {:induction false} EnsureAllCovers(idx: seq<IndexSpec>, ds: seq<Record>, plan: seq<IndexSpec>)
    requires EnsureAll(idx, ds, plan).1.None?
    ensures forall s | s in plan :: s.fieldName != "" && HasIndexOn(EnsureAll(idx, ds, plan).0, s.fieldName)
    decreases |plan|
  {
    if plan != [] {
      var (idx1, e1) := EnsureStep(idx, ds, plan[0]);
      EnsureAllCovers(idx1, ds, plan[1..]);
      var done := EnsureAll(idx1, ds, plan[1..]).0;
      var k :| 0 <= k < |idx1| && idx1[k].fieldName == plan[0].fieldName;
      assert done[k] == idx1[k];
      forall s | s in plan ensures s.fieldName != "" && HasIndexOn(done, s.fieldName) {
        if s != plan[0] { assert s in plan[1..]; }
      }
    }
  }

  /** Every index added by a run of requests is one of the requests. */
  lemma {:induction false} EnsureAllFromPlan(idx: seq<IndexSpec>, ds: seq<Record>, plan: seq<IndexSpec>)
    ensures forall x | x in EnsureAll(idx, ds, plan).0 :: x in idx || x in plan
    decreases |plan|
  {
    if plan != [] {
      var (idx1, e1) := EnsureStep(idx, ds, plan[0]);
      EnsureAllFromPlan(idx1, ds, plan[1..]);
      forall x | x in EnsureAll(idx, ds, plan).0 ensures x in idx || x in plan {
        if x in idx1 && x !in idx { assert x == plan[0]; }
        else if x !in idx1 { assert x in plan[1..]; }
      }
    }
  }

  lemma {:induction false} EnsureAllNoop(idx: seq<IndexSpec>, ds: seq<Record>, plan: seq<IndexSpec>)
    requires forall s | s in plan :: s.fieldName != "" && HasIndexOn(idx, s.fieldName)
    ensures EnsureAll(idx, ds, plan) == (idx, None)
    decreases |plan|
  {
    if plan != [] {
      assert plan[0] in plan;
      forall s | s in plan[1..] ensures s.fieldName != "" && HasIndexOn(idx, s.fieldName) {
        assert s in plan;
      }
      EnsureAllNoop(idx, ds, plan[1..]);
    }
  }

  /** The documents with fresh identifiers: one without `_id` takes the next generated one. */
  function WithIds(batch: seq<Record>, ids: seq<string>): (r: seq<Record>)
    requires |ids| == |batch|
    ensures |r| == |batch|
    ensures forall i | 0 <= i < |r| :: Get(batch[i], "_id") != Undefined ==> r[i] == batch[i]
    ensures forall i | 0 <= i < |r| :: Get(batch[i], "_id") == Undefined ==> r[i] == batch[i]["_id" := Str(ids[i])]
  {
    seq(|batch|, i requires 0 <= i < |batch| =>
      if Get(batch[i], "_id") == Undefined then batch[i]["_id" := Str(ids[i])] else batch[i])
  }

  /** No top-level field name of any document begins with `$`. */
  predicate FieldNamesAllowed(batch: seq<Record>)
  {
    forall i, k | 0 <= i < |batch| && k in batch[i] :: !StartsWithDollar(k)
  }

  /** Whether `insert` accepts `added` over the stored documents `ds`. */
  predicate Insertable(ds: seq<Record>, added: seq<Record>, idx: seq<IndexSpec>)
  {
    FieldNamesAllowed(added) && Consistent(ds + added, idx)
  }

  /** A document with a top-level field beginning with `$` (other than
      the generated `_id`) makes the whole insert refused. */
  lemma DollarFieldRefused(ds: seq<Record>, batch: seq<Record>, ids: seq<string>, idx: seq<IndexSpec>, i: nat, k: string)
    requires |ids| == |batch| && i < |batch| && k in batch[i] && StartsWithDollar(k)
    ensures !Insertable(ds, WithIds(batch, ids), idx)
  {
    assert k in WithIds(batch, ids)[i];
  }

  const CorruptData := "Data is corrupted"

  class Datastore {
    var docs: seq<Record>
    var indexes: seq<IndexSpec>
    const matches: Matcher
    const order: Sorter

    ghost predicate Valid()
      reads this
    {
      Consistent(docs, indexes)
    }

    constructor (matches: Matcher, order: Sorter)
      ensures Valid() && docs == [] && indexes == []
      ensures this.matches == matches && this.order == order
    {
      this.matches := matches;
      this.order := order;
      docs := [];
      indexes := [];
    }

    /** The documents of `ds` that `q` matches, in order; the first matcher error wins. */
    function Filter(ds: seq<Record>, q: Value): (r: Result<seq<Record>>)
      ensures r.Ok? ==> |r.value| <= |ds|
      ensures r.Ok? ==> forall d | d in r.value :: d in ds && matches(q, d) == Ok(true)
      ensures r.Ok? ==> forall d | d in ds && matches(q, d) == Ok(true) :: d in r.value
      ensures r.Ok? ==> Subsequence(r.value, ds)
      ensures r.Ok? <==> forall d | d in ds :: matches(q, d).Ok?
      ensures (forall d | d in ds :: matches(q, d) == Ok(true)) ==> r == Ok(ds)
    {
      if ds == [] then Ok([])
      else match matches(q, ds[0])
        case Err(e) => Err(e)
        case Ok(hit) =>
          match Filter(ds[1..], q)
          case Err(e) => Err(e)
          case Ok(rest) =>
            assert ds == [ds[0]] + ds[1..];
            Ok(if hit then [ds[0]] + rest else rest)
    }

    /** `cursor.exec`: filter, then sort, then skip and limit. */
    function Exec(c: Cursor): (r: Result<seq<Record>>)
      reads this
      ensures r.Ok? <==> Filter(docs, CursorQuery(c.query)).Ok?
      ensures r.Ok? ==> |r.value| <= |Filter(docs, CursorQuery(c.query)).value|
      ensures r.Ok? ==> forall d | d in r.value :: d in docs && matches(CursorQuery(c.query), d) == Ok(true)
    {
      match Filter(docs, CursorQuery(c.query))
      case Err(e) => Err(e)
      case Ok(found) =>
        var sorted := if Truthy(c.sort) then order(c.sort, found) else found;
        assert multiset(sorted) == multiset(found) by {
          if Truthy(c.sort) { assert Permutes(order); }
        }
        var page := Page(sorted, c.skip, c.limit);
        assert forall d | d in page :: d in multiset(sorted);
        Ok(page)
    }

    /** `count(query)`: the number of matching documents. */
    function Count(q: Value): (r: Result<nat>)
      reads this
      ensures r.Ok? ==> r.value <= |docs|
      ensures r.Ok? <==> forall d | d in docs :: matches(CursorQuery(q), d).Ok?
    {
      match Filter(docs, CursorQuery(q))
      case Err(e) => Err(e)
      case Ok(found) => Ok(|found|)
    }

    /** Counting agrees with a cursor that has no modifiers. */
    lemma CountIsExecLength(q: Value)
      ensures Count(q).Ok? <==> Exec(NewCursor(q)).Ok?
      ensures Count(q).Ok? ==> Count(q).value == |Exec(NewCursor(q)).value|
      ensures Count(q).Err? ==> Count(q).error == Exec(NewCursor(q)).error
    {
    }

    /** A falsy query selects every document, in store order. */
    lemma EmptyQuerySelectsAll(q: Value)
      requires !Truthy(q)
      ensures Count(q) == Ok(|docs|)
      ensures Exec(NewCursor(q)) == Ok(docs)
    {
      assert EmptyMatchesAll(matches);
      assert forall d | d in docs :: matches(CursorQuery(q), d) == Ok(true);
    }

    /** The documents after a multi-document update and how many were modified. */
    function UpdateAll(ds: seq<Record>, q: Value, m: Modifier): (r: Result<(seq<Record>, nat)>)
      ensures r.Ok? ==> |r.value.0| == |ds| && r.value.1 <= |ds|
      ensures r.Ok? ==> forall i | 0 <= i < |ds| :: Get(r.value.0[i], "_id") == Get(ds[i], "_id")
      ensures r.Ok? ==> forall i | 0 <= i < |ds| :: matches(q, ds[i]) == Ok(false) ==> r.value.0[i] == ds[i]
      ensures r.Ok? ==> forall i | 0 <= i < |ds| :: matches(q, ds[i]) == Ok(true) ==> ApplyModifier(ds[i], m) == Ok(r.value.0[i])
    {
      if ds == [] then Ok(([], 0))
      else match matches(q, ds[0])
        case Err(e) => Err(e)
        case Ok(hit) =>
          var first := if hit then ApplyModifier(ds[0], m) else Ok(ds[0]);
          match first
          case Err(e) => Err(e)
          case Ok(d) =>
            match UpdateAll(ds[1..], q, m)
            case Err(e) => Err(e)
            case Ok((rest, n)) =>
              var r := ([d] + rest, if hit then n + 1 else n);
              assert forall i | 1 <= i < |ds| :: ds[i] == ds[1..][i - 1] && r.0[i] == rest[i - 1];
              Ok(r)
    }

    /** A multi-document update succeeds exactly when the query can be
        evaluated on every document and every match accepts the update. */
    lemma {:induction false} UpdateAllOutcome(ds: seq<Record>, q: Value, m: Modifier)
      ensures UpdateAll(ds, q, m).Ok? <==>
                forall i | 0 <= i < |ds| :: matches(q, ds[i]).Ok? && (matches(q, ds[i]) == Ok(true) ==> ApplyModifier(ds[i], m).Ok?)
    {
      if ds != [] {
        UpdateAllOutcome(ds[1..], q, m);
        assert forall i | 1 <= i < |ds| :: ds[i] == ds[1..][i - 1];
      }
    }

    /** The count of a successful update is the number of documents `find`
        would return. */
    lemma {:induction false} UpdateAllCount(ds: seq<Record>, q: Value, m: Modifier)
      ensures UpdateAll(ds, q, m).Ok? ==> Filter(ds, q).Ok? && UpdateAll(ds, q, m).value.1 == |Filter(ds, q).value|
    {
      if ds != [] {
        UpdateAllCount(ds[1..], q, m);
      }
    }

    /** The documents left after removing every match, and how many went. */
    function RemoveAll(ds: seq<Record>, q: Value): (r: Result<(seq<Record>, nat)>)
      ensures r.Ok? ==> |r.value.0| + r.value.1 == |ds|
      ensures r.Ok? ==> forall d | d in r.value.0 :: d in ds && matches(q, d) == Ok(false)
    {
      if ds == [] then Ok(([], 0))
      else match matches(q, ds[0])
        case Err(e) => Err(e)
        case Ok(hit) =>
          match RemoveAll(ds[1..], q)
          case Err(e) => Err(e)
          case Ok((rest, n)) => if hit then Ok((rest, n + 1)) else Ok(([ds[0]] + rest, n))
    }

    /** A removal succeeds exactly when the query can be evaluated on every
        document; every document it does not match stays, in order; the
        count is the number of documents `find` would return. */
    lemma {:induction false} RemoveAllOutcome(ds: seq<Record>, q: Value)
      ensures RemoveAll(ds, q).Ok? <==> forall d | d in ds :: matches(q, d).Ok?
      ensures RemoveAll(ds, q).Ok? ==>
                && (forall d | d in ds && matches(q, d) == Ok(false) :: d in RemoveAll(ds, q).value.0)
                && Subsequence(RemoveAll(ds, q).value.0, ds)
                && Filter(ds, q).Ok? && RemoveAll(ds, q).value.1 == |Filter(ds, q).value|
    {
      if ds != [] {
        RemoveAllOutcome(ds[1..], q);
        assert forall d | d in ds :: d == ds[0] || d in ds[1..];
      }
    }

    /** `loadDatabase`: the store takes the persisted documents, or fails if
        they break the store's invariant (missing or repeated `_id`). */
    method LoadDatabase(persisted: seq<Record>) returns (err: Option<Error>)
      requires Valid() && indexes == []
      modifies this
      ensures Valid() && indexes == old(indexes)
      ensures Consistent(persisted, []) ==> err == None && docs == persisted
      ensures !Consistent(persisted, []) ==> err == Some(StoreError(CorruptData)) && docs == old(docs)
    {
      if Consistent(persisted, []) {
        docs := persisted;
        err := None;
      } else {
        err := Some(StoreError(CorruptData));
      }
    }

    /** `insert(batch)`: documents without `_id` take a generated one
        (`ids`, assumed distinct and unused by the stored documents); all are
        inserted, or none if a field name begins with `$` or an index
        refuses. */
    method Insert(batch: seq<Record>, ids: seq<string>) returns (res: Result<seq<Record>>)
      requires Valid()
      requires |ids| == |batch|
      requires forall i, j | 0 <= i < j < |ids| :: ids[i] != ids[j]
      requires forall i, d | 0 <= i < |ids| && d in docs :: Get(d, "_id") != Str(ids[i])
      modifies this
      ensures Valid() && indexes == old(indexes)
      ensures Insertable(old(docs), WithIds(batch, ids), indexes) ==>
                docs == old(docs) + WithIds(batch, ids) && res == Ok(WithIds(batch, ids))
      ensures !Insertable(old(docs), WithIds(batch, ids), indexes) ==> docs == old(docs) && res.Err?
    {
      var added := WithIds(batch, ids);
      if !FieldNamesAllowed(added) {
        res := Err(StoreError("Field names cannot begin with the $ character"));
      } else if Consistent(docs + added, indexes) {
        docs := docs + added;
        res := Ok(added);
      } else {
        res := Err(StoreError("Unique constraint violated"));
      }
    }

    /** `update(q, m, {multi: true})`: every match is modified, or none if
        a modification or an index refuses; the result is the count. */
    method Update(q: Value, m: Modifier) returns (res: Result<nat>)
      requires Valid()
      modifies this
      ensures Valid() && indexes == old(indexes)
      ensures |docs| == |old(docs)|
      ensures forall i | 0 <= i < |docs| :: Get(docs[i], "_id") == Get(old(docs)[i], "_id")
      ensures match UpdateAll(old(docs), q, m)
              case Err(e) => res == Err(e) && docs == old(docs)
              case Ok((after, n)) =>
                if Consistent(after, indexes) then res == Ok(n) && docs == after
                else res.Err? && docs == old(docs)
    {
      match UpdateAll(docs, q, m)
      case Err(e) => res := Err(e);
      case Ok((after, n)) =>
        if Consistent(after, indexes) {
          docs := after;
          res := Ok(n);
        } else {
          res := Err(StoreError("Unique constraint violated"));
        }
    }

    /** `remove(q, {multi: true})`: every match goes; the result is the count. */
    method Remove(q: Value) returns (res: Result<nat>)
      requires Valid()
      modifies this
      ensures Valid() && indexes == old(indexes)
      ensures match RemoveAll(old(docs), q)
              case Err(e) => res == Err(e) && docs == old(docs)
              case Ok((left, n)) => res == Ok(n) && docs == left
    {
      match RemoveAll(docs, q)
      case Err(e) => res := Err(e);
      case Ok((left, n)) =>
        RemoveKeepsConsistent(docs, q);
        docs := left;
        res := Ok(n);
    }

    /** Removing documents never breaks the store's invariant. */
    lemma {:induction false} RemoveKeepsConsistent(ds: seq<Record>, q: Value)
      requires Consistent(ds, indexes) && RemoveAll(ds, q).Ok?
      ensures Consistent(RemoveAll(ds, q).value.0, indexes)
    {
      if ds != [] {
        var tail := ds[1..];
        assert Consistent(tail, indexes) by {
          forall i, j | 0 <= i < j < |tail| ensures Get(tail[i], "_id") != Get(tail[j], "_id") {
            assert tail[i] == ds[i + 1] && tail[j] == ds[j + 1];
          }
          forall k, i, j | 0 <= k < |indexes| && 0 <= i < j < |tail| ensures !Clash(indexes[k], tail[i], tail[j]) {
            assert tail[i] == ds[i + 1] && tail[j] == ds[j + 1];
          }
        }
        RemoveKeepsConsistent(tail, q);
        var hit := matches(q, ds[0]).value;
        var (rest, n) := RemoveAll(tail, q).value;
        if !hit {
          var left := [ds[0]] + rest;
          SubsetConsistent(ds, left, indexes);
        }
      }
    }

    /** `ensureIndex(s)`. */
    method EnsureIndex(s: IndexSpec) returns (err: Option<Error>)
      modifies this
      ensures docs == old(docs)
      ensures (indexes, err) == EnsureStep(old(indexes), docs, s)
    {
      var (idx, e) := EnsureStep(indexes, docs, s);
      indexes := idx;
      err := e;
    }
  }

  /** A list whose head comes from `ds` and whose tail keeps a subset of
      `ds[1..]` distinct-by-construction stays consistent. */
  lemma SubsetConsistent(ds: seq<Record>, left: seq<Record>, idx: seq<IndexSpec>)
    requires |ds| > 0 && |left| > 0 && left[0] == ds[0]
    requires Consistent(ds, idx) && Consistent(left[1..], idx)
    requires forall d | d in left[1..] :: d in ds[1..]
    ensures Consistent(left, idx)
  {
    forall j | 1 <= j < |left| ensures Get(left[0], "_id") != Get(left[j], "_id") {
      assert left[j] == left[1..][j - 1];
      assert left[j] in left[1..];
      assert left[j] in ds[1..];
      var m :| 0 <= m < |ds[1..]| && ds[1..][m] == left[j];
      assert ds[m + 1] == left[j];
    }
    forall k, j | 0 <= k < |idx| && 1 <= j < |left| ensures !Clash(idx[k], left[0], left[j]) {
      assert left[j] == left[1..][j - 1];
      assert left[j] in left[1..];
      assert left[j] in ds[1..];
      var m :| 0 <= m < |ds[1..]| && ds[1..][m] == left[j];
      assert ds[m + 1] == left[j];
    }
    forall i, j | 0 <= i < j < |left| ensures Get(left[i], "_id") != Get(left[j], "_id") {
      if i > 0 { assert left[i] == left[1..][i - 1] && left[j] == left[1..][j - 1]; }
    }
    forall k, i, j | 0 <= k < |idx| && 0 <= i < j < |left| ensures !Clash(idx[k], left[i], left[j]) {
      if i > 0 { assert left[i] == left[1..][i - 1] && left[j] == left[1..][j - 1]; }
    }
  }
}
