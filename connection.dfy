/** One registered connection (lib/connection.js): per-model store options
    derived from the connection's configuration, and one collection per
    model. */
module Connection {
  import opened Js
  import opened Errors
  import opened Store
  import Collection

  /** A model as the ORM hands it over: its attribute definitions. */
  datatype Model = Model(definition: Collection.Schema)

  const Extension := ".nedb"

  predicate StartsWith(s: string, prefix: string)
  {
    |prefix| <= |s| && s[..|prefix|] == prefix
  }

  predicate EndsWith(s: string, suffix: string)
  {
    |suffix| <= |s| && s[|s| - |suffix|..] == suffix
  }

  /** `getDbFilename`: the directory joined with `<model>.nedb`, one `/`
      between them (none when the directory is empty or already ends in one). */
  function DbFilename(dbPath: string, modelName: string): (name: string)
    ensures name == Directory(dbPath) + modelName + Extension
    ensures Directory(dbPath) == "" || Directory(dbPath)[|Directory(dbPath)| - 1] == '/'
  {
    if dbPath == "" then modelName + Extension
    else if dbPath[|dbPath| - 1] == '/' then dbPath + modelName + Extension
    else dbPath + "/" + modelName + Extension
  }

  /** Every store file lies under the connection's directory and is named
      after its model, with the `.nedb` extension. */
  lemma DbFilenameShape(dbPath: string, modelName: string)
    ensures EndsWith(DbFilename(dbPath, modelName), modelName + Extension)
    ensures EndsWith(DbFilename(dbPath, modelName), Extension)
    ensures StartsWith(DbFilename(dbPath, modelName), dbPath)
  {
  }

  /** The directory part of every file name of one connection. */
  function Directory(dbPath: string): string
  {
    if dbPath == "" || dbPath[|dbPath| - 1] == '/' then dbPath else dbPath + "/"
  }

  /** Different models of one connection never share a store file. */
  lemma DbFilenameInjective(dbPath: string, a: string, b: string)
    requires DbFilename(dbPath, a) == DbFilename(dbPath, b)
    ensures a == b
  {
    var dir := Directory(dbPath);
    assert DbFilename(dbPath, a) == dir + a + Extension;
    assert DbFilename(dbPath, b) == dir + b + Extension;
    assert a == (dir + a + Extension)[|dir|..|dir| + |a|];
    assert b == (dir + b + Extension)[|dir|..|dir| + |b|];
  }

  /** The options one model's collection is opened with: a copy of the
      configuration without `dbPath`, with that model's `filename`. */
  function ModelOptions(config: Record, modelName: string): (options: Record)
    requires Get(config, "dbPath").Str?
    ensures "dbPath" !in options && "filename" in options
  {
    config["filename" := Str(DbFilename(config["dbPath"].s, modelName))] - {"dbPath"}
  }

  /** The per-model options drop `dbPath`, name the model's store file, and
      copy every other setting (`inMemoryOnly`, `autoload`, ...). */
  lemma ModelOptionsFields(config: Record, modelName: string)
    requires Get(config, "dbPath").Str?
    ensures "dbPath" !in ModelOptions(config, modelName)
    ensures Get(ModelOptions(config, modelName), "filename") == Str(DbFilename(config["dbPath"].s, modelName))
    ensures forall k | k != "dbPath" && k != "filename" :: Get(ModelOptions(config, modelName), k) == Get(config, k)
  {
  }

  function Definition(models: Dict<Model>, name: string): Collection.Schema
  {
    if name in models.vals then models.vals[name].definition else EmptyDict()
  }

  /** The models' definitions are well-formed ordered objects. */
  ghost predicate WellFormed(models: Dict<Model>)
  {
    models.Valid() && forall n | n in models.vals :: models.vals[n].definition.Valid()
  }

  /** What opening each model's collection reports, in key order. */
  function Outcomes(config: Record, models: Dict<Model>, files: map<string, seq<Record>>): seq<Option<Error>>
    requires Get(config, "dbPath").Str?
  {
    OutcomesOf(config, models, files, models.keys)
  }

  function OutcomesOf(config: Record, models: Dict<Model>, files: map<string, seq<Record>>, names: seq<string>): (r: seq<Option<Error>>)
    requires Get(config, "dbPath").Str?
    ensures |r| == |names|
  {
    if names == [] then []
    else [Collection.OpenOutcome(ModelOptions(config, names[0]), Definition(models, names[0]), files)] + OutcomesOf(config, models, files, names[1..])
  }

  lemma {:induction false} OutcomesOfAt(config: Record, models: Dict<Model>, files: map<string, seq<Record>>, names: seq<string>, j: nat)
    requires Get(config, "dbPath").Str? && j < |names|
    ensures OutcomesOf(config, models, files, names)[j] == Collection.OpenOutcome(ModelOptions(config, names[j]), Definition(models, names[j]), files)
  {
    if j > 0 {
      OutcomesOfAt(config, models, files, names[1..], j - 1);
    }
  }

  /** The first failure among the outcomes from the `i`-th on. */
  function FirstFailure(outcomes: seq<Option<Error>>, i: nat): Option<Error>
    decreases |outcomes| - i
  {
    if i >= |outcomes| then None
    else if outcomes[i].Some? then outcomes[i]
    else FirstFailure(outcomes, i + 1)
  }

  /** The reported failure is the earliest one from `i` on; none is reported
      only when every one of those outcomes succeeded. */
  lemma {:induction false} FirstFailureIsFirst(outcomes: seq<Option<Error>>, i: nat)
    ensures FirstFailure(outcomes, i).None? <==> forall j | i <= j < |outcomes| :: outcomes[j].None?
    ensures FirstFailure(outcomes, i).Some? ==>
              exists j | i <= j < |outcomes| :: outcomes[j] == FirstFailure(outcomes, i) && forall k | i <= k < j :: outcomes[k].None?
    decreases |outcomes| - i
  {
    if i < |outcomes| {
      if outcomes[i].None? {
        FirstFailureIsFirst(outcomes, i + 1);
      } else {
        assert outcomes[i] == FirstFailure(outcomes, i);
      }
    }
  }

  /** What the connection constructor's callback receives: nothing when
      every collection opened, else the first failure in key order, wrapped
      so that its `originalError` is the underlying error. */
  function ConnectOutcome(config: Record, models: Dict<Model>, files: map<string, seq<Record>>): (r: Option<Error>)
    requires Get(config, "dbPath").Str?
    ensures r.None? <==> FirstFailure(Outcomes(config, models, files), 0).None?
    ensures r.Some? ==> r.value == ConnectFailed(FirstFailure(Outcomes(config, models, files), 0).value)
  {
    match FirstFailure(Outcomes(config, models, files), 0)
    case None => None
    case Some(e) => Some(ConnectFailed(e))
  }

  /** The callback receives no error exactly when every model's collection
      opened, and otherwise the earliest failure, wrapped. */
  lemma ConnectOutcomeIsFirst(config: Record, models: Dict<Model>, files: map<string, seq<Record>>)
    requires Get(config, "dbPath").Str?
    ensures var r := ConnectOutcome(config, models, files);
            && (r.None? <==> forall j | 0 <= j < |models.keys| :: Outcomes(config, models, files)[j].None?)
            && (r.Some? ==>
                  && r.value.ConnectFailed?
                  && exists j | 0 <= j < |models.keys| ::
                       && Outcomes(config, models, files)[j] == Some(r.value.originalError)
                       && forall k | 0 <= k < j :: Outcomes(config, models, files)[k].None?)
  {
    FirstFailureIsFirst(Outcomes(config, models, files), 0);
  }

  /** Collection `c` is model `n`'s as the constructor opens it: that
      model's options and normalised schema, the shared translator, and a
      store of the given matcher and sorter. */
  ghost predicate OpenedFor(config: Record, c: Collection.Collection, n: string, models: Dict<Model>,
                      translate: Collection.Translator, matches: Matcher, order: Sorter)
  {
    && Get(config, "dbPath").Str? && n in models.vals
    && c.options == ModelOptions(config, n)
    && c.schema == Collection.NormalizedSchema(models.vals[n].definition)
    && c.translate == translate
    && c.db.matches == matches && c.db.order == order
  }

  /** One collection for each name of `names`, each opened for its model,
      no two sharing a store. */
  ghost predicate OneEach(config: Record, made: map<string, Collection.Collection>, names: set<string>, models: Dict<Model>,
                          translate: Collection.Translator, matches: Matcher, order: Sorter)
  {
    && made.Keys == names
    && (forall n | n in made :: OpenedFor(config, made[n], n, models, translate, matches, order))
    && (forall a, b | a in made && b in made && a != b :: made[a].db != made[b].db)
  }

  lemma AllKeysOpened(models: Dict<Model>, made: map<string, Collection.Collection>)
    requires models.Valid()
    requires forall j | 0 <= j < |models.keys| :: models.keys[j] in made
    requires forall n | n in made :: n in models.vals
    ensures made.Keys == models.vals.Keys
  {
  }

  /** Adding the collection opened for the `i`-th name keeps the loop's
      account of the collections opened so far. */
  lemma OpenedAdded(config: Record, made: map<string, Collection.Collection>, names: seq<string>, i: nat,
                    c: Collection.Collection, after: map<string, Collection.Collection>, models: Dict<Model>,
                    translate: Collection.Translator, matches: Matcher, order: Sorter)
    requires i < |names| && OpenedFor(config, c, names[i], models, translate, matches, order)
    requires after == made[names[i] := c]
    requires forall j | 0 <= j < i :: names[j] in made
    requires forall n | n in made :: OpenedFor(config, made[n], n, models, translate, matches, order)
    requires forall a, b | a in made && b in made && a != b :: made[a].db != made[b].db
    requires forall n | n in made :: made[n].db != c.db
    ensures forall j | 0 <= j < i + 1 :: names[j] in after
    ensures forall n | n in after :: OpenedFor(config, after[n], n, models, translate, matches, order)
    ensures forall a, b | a in after && b in after && a != b :: after[a].db != after[b].db
  {
  }

  class Connection {
    const config: Record
    var collections: map<string, Collection.Collection>

    constructor (config: Record)
      ensures this.config == config && collections == map[]
    {
      this.config := config;
      collections := map[];
    }

    /** One model's collection, opened with that model's options. */
    method OpenModel(name: string, models: Dict<Model>, files: map<string, seq<Record>>, translate: Collection.Translator,
                     matches: Matcher, order: Sorter) returns (c: Collection.Collection, err: Option<Error>)
      requires WellFormed(models) && Get(config, "dbPath").Str? && name in models.vals
      ensures fresh(c) && fresh(c.db) && OpenedFor(config, c, name, models, translate, matches, order)
      ensures err == Collection.OpenOutcome(ModelOptions(config, name), Definition(models, name), files)
      ensures c.db.Valid() && (c.db.docs, c.db.indexes) == Collection.OpenedStore(ModelOptions(config, name), Definition(models, name), files)
    {
      var options := ModelOptions(config, name);
      c, err := Collection.Collection.Open(options, models.vals[name].definition, translate, matches, order, files);
    }

    /** Every model's collection, in key order; the first failure is kept. */
    method OpenAll(models: Dict<Model>, files: map<string, seq<Record>>, translate: Collection.Translator,
                   matches: Matcher, order: Sorter) returns (made: map<string, Collection.Collection>, first: Option<Error>)
      requires WellFormed(models) && Get(config, "dbPath").Str?
      ensures OneEach(config, made, models.vals.Keys, models, translate, matches, order)
      ensures first == FirstFailure(Outcomes(config, models, files), 0)
    {
      var names := models.keys;
      ghost var outcomes := Outcomes(config, models, files);
      made := map[];
      first := None;
      var i := 0;
      while i < |names|
        invariant 0 <= i <= |names|
        invariant forall j | 0 <= j < i :: names[j] in made
        invariant forall n | n in made :: OpenedFor(config, made[n], n, models, translate, matches, order)
        invariant forall a, b | a in made && b in made && a != b :: made[a].db != made[b].db
        invariant FirstFailure(outcomes, 0) == if first.Some? then first else FirstFailure(outcomes, i)
      {
        var name := names[i];
        var c, e := OpenModel(name, models, files, translate, matches, order);
        OutcomesOfAt(config, models, files, names, i);
        assert forall n | n in made :: made[n].db != c.db;
        OpenedAdded(config, made, names, i, c, made[name := c], models, translate, matches, order);
        made := made[name := c];
        if first.None? {
          first := e;
        }
        i := i + 1;
      }
      AllKeysOpened(models, made);
    }

    /** The constructor's loop: one collection per model, created in key
        order with its own options and its own store. A `dbPath` that is not
        a string makes the first file-name computation throw before any
        collection exists. */
    method LoadCollections(models: Dict<Model>, files: map<string, seq<Record>>, translate: Collection.Translator,
                           matches: Matcher, order: Sorter) returns (err: Option<Error>)
      requires WellFormed(models)
      requires collections == map[]
      modifies this
      ensures !Get(config, "dbPath").Str? && models.keys != [] ==> err.Some? && err.value.TypeError? && collections == map[]
      ensures Get(config, "dbPath").Str? ==>
                OneEach(config, collections, models.vals.Keys, models, translate, matches, order) &&
                err == ConnectOutcome(config, models, files)
      ensures models.keys == [] ==> err == None && collections == map[]
    {
      if models.keys == [] {
        assert models.vals.Keys == {};
        if Get(config, "dbPath").Str? {
          assert FirstFailure(Outcomes(config, models, files), 0) == None;
        }
        return None;
      }
      if !Get(config, "dbPath").Str? {
        return Some(TypeError("The \"path\" argument must be of type string"));
      }
      var made, first := OpenAll(models, files, translate, matches, order);
      collections := made;
      err := if first.Some? then Some(ConnectFailed(first.value)) else None;
    }
  }
}
