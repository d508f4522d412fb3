/** The adapter object (lib/adapter.js): a registry of connections keyed by
    identity, its registration and teardown, and the `join` entry point with
    the two callbacks it hands to the join engine. */
module Adapter {
  import opened Js
  import opened Errors
  import opened Store
  import Collection
  import Connection

  /** The property key a value names: `o[v]` reads the key `String(v)`. */
  function Key(v: Value): string
  {
    ToString(v)
  }

  /** Whether `path` exists, and whether it is a directory. */
  predicate Exists(fs: FileSystem, path: Value)
  {
    path.Str? && (path.s in fs.dirs || path.s in fs.files)
  }

  predicate IsDirectory(fs: FileSystem, path: Value)
  {
    path.Str? && path.s in fs.dirs
  }

  /** Why `registerConnection` refuses a configuration, checked in order:
      no identity, an identity already registered, a `dbPath` that does not
      exist, a `dbPath` that is not a directory. */
  function Rejection(registered: set<string>, config: Record, fs: FileSystem): (r: Option<Error>)
    ensures !Truthy(Get(config, "identity")) ==> r == Some(IdentityMissing)
    ensures r == Some(IdentityDuplicate) <==> Truthy(Get(config, "identity")) && Key(Get(config, "identity")) in registered
    ensures r.None? ==> IsDirectory(fs, Get(config, "dbPath"))
  {
    var identity := Get(config, "identity");
    var dbPath := Get(config, "dbPath");
    if !Truthy(identity) then Some(IdentityMissing)
    else if Key(identity) in registered then Some(IdentityDuplicate)
    else if !Exists(fs, dbPath) then Some(DbPathMissing(dbPath))
    else if !IsDirectory(fs, dbPath) then Some(DbPathNotDirectory(dbPath))
    else None
  }

  /** A configuration is accepted exactly when it has an identity not yet
      registered and its `dbPath` names an existing directory. */
  lemma RejectionAccepts(registered: set<string>, config: Record, fs: FileSystem)
    ensures Rejection(registered, config, fs).None? <==>
              && Truthy(Get(config, "identity"))
              && Key(Get(config, "identity")) !in registered
              && Get(config, "dbPath").Str?
              && Get(config, "dbPath").s in fs.dirs
  {
  }

  /** The checks come in order: a missing identity is reported whatever the
      registry and the file system, and a duplicate whatever the file system. */
  lemma RejectionOrder(registered: set<string>, config: Record, fs: FileSystem, other: set<string>, fs2: FileSystem)
    ensures !Truthy(Get(config, "identity")) ==> Rejection(other, config, fs2) == Some(IdentityMissing)
    ensures Rejection(registered, config, fs) == Some(IdentityDuplicate) ==>
              Rejection(registered, config, fs2) == Some(IdentityDuplicate)
    ensures Rejection(registered, config, fs) == Some(IdentityDuplicate) ==>
              forall r | registered <= r :: Rejection(r, config, fs2) == Some(IdentityDuplicate)
  {
  }

  /** Once a configuration has been accepted, registering it again is
      refused as a duplicate, whatever the file system has become. */
  lemma SecondRegistrationRejected(registered: set<string>, config: Record, fs: FileSystem, fs2: FileSystem)
    requires Rejection(registered, config, fs).None?
    ensures Rejection(registered + {Key(Get(config, "identity"))}, config, fs2) == Some(IdentityDuplicate)
  {
  }

  /** The first argument of `teardown`: a callback in its place, or a
      connection name. */
  datatype TeardownTarget = Callback | Name(connection: Value)

  /** The registry after `teardown`: emptied for a callback, `null` or
      `undefined`, else without the named connection (unchanged when that
      name is not registered). */
  function Remaining<V>(registry: map<string, V>, target: TeardownTarget): (r: map<string, V>)
    ensures forall k | k in r :: k in registry && r[k] == registry[k]
    ensures target.Callback? || target.connection == Null || target.connection == Undefined ==> r == map[]
    ensures target.Name? && target.connection != Null && target.connection != Undefined ==>
              Key(target.connection) !in r &&
              forall k | k in registry && k != Key(target.connection) :: k in r
  {
    match target
    case Callback => map[]
    case Name(v) => if v == Null || v == Undefined then map[] else registry - {Key(v)}
  }

  /** Tearing down twice is tearing down once. */
  lemma TeardownIdempotent<V>(registry: map<string, V>, target: TeardownTarget)
    ensures Remaining(Remaining(registry, target), target) == Remaining(registry, target)
  {
  }

  /** After a connection is torn down its identity can be registered again. */
  lemma TeardownFreesIdentity<V>(registry: map<string, V>, config: Record, fs: FileSystem)
    requires Truthy(Get(config, "identity"))
    ensures Rejection(Remaining(registry, Name(Get(config, "identity"))).Keys, config, fs) != Some(IdentityDuplicate)
  {
  }

  /** The request `join` hands to the join engine: the criteria without
      `select`, and the parent collection's name. */
  datatype JoinRequest = JoinRequest(instructions: Collection.Criteria, parentCollection: Value)

  /** The adapter's registry of open connections. */
  class Registry {
    var connections: map<string, Connection.Connection>

    /** Every connection is registered under its own configuration's
        identity, and no connection object is registered twice. */
    ghost predicate Valid()
      reads this
    {
      && (forall k | k in connections ::
            Truthy(Get(connections[k].config, "identity")) && Key(Get(connections[k].config, "identity")) == k)
      && (forall a, b | a in connections && b in connections && a != b :: connections[a] != connections[b])
    }

    constructor ()
      ensures connections == map[] && Valid()
    {
      connections := map[];
    }

    /** `registerConnection`: a refused configuration leaves the registry
        as it was and reports why; an accepted one is registered under its
        identity as a new connection whose collections are opened, and the
        callback gets what the connection's loading reports. */
    method RegisterConnection(config: Record, models: Dict<Connection.Model>, fs: FileSystem,
                              translate: Collection.Translator, matches: Matcher, order: Sorter)
      returns (err: Option<Error>)
      requires Valid() && Connection.WellFormed(models)
      modifies this
      ensures Valid()
      ensures Rejection(old(connections).Keys, config, fs).Some? ==>
                err == Rejection(old(connections).Keys, config, fs) && connections == old(connections)
      ensures Rejection(old(connections).Keys, config, fs).None? ==>
                var key := Key(Get(config, "identity"));
                && key !in old(connections) && key in connections
                && connections == old(connections)[key := connections[key]]
                && fresh(connections[key]) && connections[key].config == config
                && Connection.OneEach(config, connections[key].collections, models.vals.Keys, models, translate, matches, order)
                && err == Connection.ConnectOutcome(config, models, fs.files)
    {
      var rejection := Rejection(connections.Keys, config, fs);
      if rejection.Some? {
        return rejection;
      }
      RejectionAccepts(connections.Keys, config, fs);
      var conn := new Connection.Connection(config);
      err := conn.LoadCollections(models, fs.files, translate, matches, order);
      connections := connections[Key(Get(config, "identity")) := conn];
    }

    /** `teardown`: the registry loses the named connection, or every
        connection when no name is given. */
    method Teardown(target: TeardownTarget)
      requires Valid()
      modifies this
      ensures connections == Remaining(old(connections), target)
      ensures Valid()
    {
      match target
      case Callback =>
        connections := map[];
      case Name(connection) =>
        if connection == Null || connection == Undefined {
          connections := map[];
        } else if Key(connection) in connections {
          connections := connections - {Key(connection)};
        }
    }

    /** `connections[connectionName].collections[collectionName]`, when both exist. */
    function CollectionAt(connectionName: Value, collectionName: Value): Option<Collection.Collection>
      reads this, connections.Values
    {
      var key := Key(connectionName);
      if key in connections && Key(collectionName) in connections[key].collections
      then Some(connections[key].collections[Key(collectionName)])
      else None
    }

    /** `join`: `select` is removed from object criteria (null criteria
        throw), the connection is looked up (an unknown one throws), and the
        join engine is started on the stripped criteria and the parent
        collection's name. */
    function Join(connectionName: Value, collectionName: Value, criteria: Collection.Criteria): (r: Result<JoinRequest>)
      reads this
      ensures r.Err? <==> criteria.Null? || Key(connectionName) !in connections
      ensures r.Err? ==> r.error.TypeError?
      ensures r.Ok? ==> r.value.parentCollection == collectionName && Collection.StripSelect(criteria) == Ok(r.value.instructions)
      ensures r.Ok? && criteria.Object? ==>
                r.value.instructions.Object? && "select" !in r.value.instructions.d.vals &&
                forall k | k != "select" && k in criteria.d.vals :: r.value.instructions.d.vals[k] == criteria.d.vals[k]
    {
      match Collection.StripSelect(criteria)
      case Err(e) => Err(e)
      case Ok(instructions) =>
        if Key(connectionName) in connections then Ok(JoinRequest(instructions, collectionName))
        else Err(TypeError("Cannot read properties of undefined (reading 'collections')"))
    }

    /** `$find`: the named collection of the join's connection runs `find`;
        a connection or collection that is not there throws. */
    method FindVia(connectionName: Value, collectionIdentity: Value, criteria: Collection.Criteria)
      returns (res: Result<seq<Record>>)
      ensures var found := CollectionAt(connectionName, collectionIdentity);
              if found.Some? then res == found.value.FindResult(criteria) else res.Err? && res.error.TypeError?
    {
      var found := CollectionAt(connectionName, collectionIdentity);
      if found.None? {
        return Err(TypeError("Cannot read properties of undefined (reading 'find')"));
      }
      res := found.value.Find(criteria);
    }

    /** `$getPK`: nothing for a falsy identity (before any lookup), else the
        named collection's primary key; a connection or collection that is
        not there throws. */
    method PrimaryKeyVia(connectionName: Value, collectionIdentity: Value) returns (res: Result<Option<string>>)
      ensures !Truthy(collectionIdentity) ==> res == Ok(None)
      ensures var found := CollectionAt(connectionName, collectionIdentity);
              Truthy(collectionIdentity) ==>
                if found.Some? then res == Ok(Some(Collection.PrimaryKey(found.value.schema)))
                else res.Err? && res.error.TypeError?
    {
      if !Truthy(collectionIdentity) {
        return Ok(None);
      }
      var found := CollectionAt(connectionName, collectionIdentity);
      if found.None? {
        return Err(TypeError("Cannot read properties of undefined (reading '_getPK')"));
      }
      var pk := found.value.GetPK();
      res := Ok(Some(pk));
    }
  }
}
