/** data_engineering_exports/push.py: push datasets, the per-user write
    policy on the export bucket, and `PushExportDatasets`, which must load its
    configs before it can build Lambda functions or role policies. The
    mutable object is modelled as a record and each method as a function from
    the record before the call to the record after it plus the error raised,
    if any. */
module Push {
  import opened Results
  import opened Values
  import opened Policy
  import opened Transfer
  import opened Dicts
  import opened Grants

  /** `PushExportDataset`: one push dataset and, once built, its function. */
  datatype PushDataset = PushDataset(
    name: string,
    exportBucket: BucketRef,
    targetBucket: string,
    users: seq<string>,
    keepFiles: Value,
    lambdaFunction: Option<TransferFunction>)

  /** The keys a push config must carry for construction to succeed. */
  predicate CompleteConfig(config: Args) {
    && "name" in config && config["name"].Str?
    && "target_bucket" in config && config["target_bucket"].Str?
    && "users" in config && config["users"].Strs?
    && "keep_files" in config
  }

  /** The keys `PushExportDataset` reads, in order. */
  const DatasetKeys: seq<(string, Kind)> :=
    [("name", StrKind), ("target_bucket", StrKind), ("users", StrsKind), ("keep_files", AnyKind)]

  /** `PushExportDataset(config, export_bucket, tagger)`: reads `name`,
      `target_bucket`, `users` and `keep_files` in that order; the first
      key that is missing (or unusable) is the error. */
  function NewDataset(config: Args, exportBucket: BucketRef): (r: Result<PushDataset, ArgError>)
    ensures r.Success? <==> CompleteConfig(config)
    ensures r.Success? <==> AllKeysFit(config, DatasetKeys)
    ensures r.Failure? ==> FirstBadKey(config, DatasetKeys, r.error)
    ensures "name" !in config ==> r == Failure(MissingKey("name"))
    ensures "name" in config && config["name"].Str? && "target_bucket" !in config ==>
      r == Failure(MissingKey("target_bucket"))
    ensures r.Success? ==>
      && r.value.name == config["name"].s
      && r.value.exportBucket == exportBucket
      && r.value.targetBucket == config["target_bucket"].s
      && r.value.users == config["users"].l
      && r.value.keepFiles == config["keep_files"]
      && r.value.lambdaFunction == None
  {
    // Names each key's read for the first-bad-key witness.
    assert KeyError(config, DatasetKeys[0]) == KeyError(config, ("name", StrKind));
    assert KeyError(config, DatasetKeys[1]) == KeyError(config, ("target_bucket", StrKind));
    assert KeyError(config, DatasetKeys[2]) == KeyError(config, ("users", StrsKind));
    assert KeyError(config, DatasetKeys[3]) == KeyError(config, ("keep_files", AnyKind));
    var name :- ReadStr(config, "name");
    var targetBucket :- ReadStr(config, "target_bucket");
    var users :- ReadStrs(config, "users");
    var keepFiles :- Read(config, "keep_files");
    Success(PushDataset(name, exportBucket, targetBucket, users, keepFiles, None))
  }

  /** `build_lambda_function()`: stores a copy function when `keep_files`
      is truthy and a move function otherwise; nothing else changes. */
  function BuildLambdaFunction(d: PushDataset): (r: PushDataset)
    ensures r == d.(lambdaFunction := r.lambdaFunction)
    ensures r.lambdaFunction.Some?
    ensures r.lambdaFunction.value.kind == Copy <==> Truthy(d.keepFiles)
    ensures r.lambdaFunction.value.name == "export-" + d.name
    ensures r.lambdaFunction.value.prefix == d.name
    ensures r.lambdaFunction.value.destinationBucket == d.targetBucket
    ensures r.lambdaFunction.value.sourceBucket == d.exportBucket
  {
    d.(lambdaFunction := Some(BuildTransferFunction(d.name, d.targetBucket, d.keepFiles, d.exportBucket)))
  }

  /** `WriteToExportBucketRolePolicy(username, export_bucket, prefixes)`:
      the user may put objects below each prefix and list the bucket. */
  function WriteToExportBucketRolePolicy(username: string, exportBucket: BucketRef, prefixes: seq<string>): (r: RolePolicy)
    ensures r.resourceName == username && r.role == username
    ensures r.name == "hub-exports"
    ensures IsWritePrefixesDocument(r.document, exportBucket.arn, prefixes)
  {
    RolePolicy(username, username, "hub-exports", WritePrefixesDocument(exportBucket.arn, prefixes))
  }

  /** The named errors of the build steps, and a config that cannot be read. */
  datatype PushError = DatasetsNotLoaded | UsersNotLoaded | ConfigError(cause: ArgError)

  /** `PushExportDatasets`: `configs` stands for the parsed config files, in
      the order of `config_paths`. */
  datatype Exports = Exports(
    configs: seq<Args>,
    exportBucket: BucketRef,
    datasets: Option<seq<PushDataset>>,
    lambdas: Option<seq<Option<TransferFunction>>>,
    users: Option<UserIndex>,
    rolePolicies: Option<seq<RolePolicy>>)

  /** The object after a method call, and the error it raised, if any. */
  datatype Step = Step(state: Exports, error: Option<PushError>)

  /** `PushExportDatasets(config_paths, export_bucket, tagger)`. */
  function NewExports(configs: seq<Args>, exportBucket: BucketRef): (r: Exports)
    ensures r.configs == configs && r.exportBucket == exportBucket
    ensures r.datasets.None? && r.lambdas.None? && r.users.None? && r.rolePolicies.None?
  {
    Exports(configs, exportBucket, None, None, None, None)
  }

  /** The datasets read before the first config that fails, and its error. */
  datatype Loaded = Loaded(datasets: seq<PushDataset>, error: Option<ArgError>)

  /** Reads the configs in order, stopping at the first that fails. */
  function LoadDatasets(configs: seq<Args>, exportBucket: BucketRef): (r: Loaded)
    ensures |r.datasets| <= |configs|
    ensures forall i :: 0 <= i < |r.datasets| ==> NewDataset(configs[i], exportBucket) == Success(r.datasets[i])
    ensures r.error.None? <==> |r.datasets| == |configs|
    ensures r.error.Some? ==> NewDataset(configs[|r.datasets|], exportBucket) == Failure(r.error.value)
  {
    if configs == [] then Loaded([], None)
    else
      match NewDataset(configs[0], exportBucket)
      case Failure(e) => Loaded([], Some(e))
      case Success(d) =>
        var rest := LoadDatasets(configs[1..], exportBucket);
        Loaded([d] + rest.datasets, rest.error)
  }

  /** What the datasets contribute to the user index. */
  function Listings(ds: seq<PushDataset>): (ls: seq<Listing>)
    ensures |ls| == |ds|
    ensures forall i :: 0 <= i < |ds| ==> ls[i] == Listing(ds[i].name, ds[i].users)
  {
    seq(|ds|, i requires 0 <= i < |ds| => Listing(ds[i].name, ds[i].users))
  }

  /** `load_datasets_and_users()`: one dataset per config, in order, and
      the user index over them. A config that cannot be read raises after
      the datasets before it have been stored. */
  function LoadDatasetsAndUsers(s: Exports): (r: Step)
    ensures r.state.configs == s.configs && r.state.exportBucket == s.exportBucket
    ensures r.state.lambdas == s.lambdas && r.state.rolePolicies == s.rolePolicies
    ensures r.state.datasets.Some? && r.state.users.Some?
    ensures var ds := r.state.datasets.value;
      && |ds| <= |s.configs|
      && (r.error.None? <==> |ds| == |s.configs|)
      && (forall i :: 0 <= i < |ds| ==> NewDataset(s.configs[i], s.exportBucket) == Success(ds[i]))
      && (r.error.Some? ==>
            && r.error.value.ConfigError?
            && NewDataset(s.configs[|ds|], s.exportBucket) == Failure(r.error.value.cause))
    ensures var ds := r.state.datasets.value; var index := r.state.users.value;
      && Valid(index)
      && index.keys == Dedup(AllUsers(Listings(ds)))
      && (forall u :: u in index.items <==> u in AllUsers(Listings(ds)))
      && (forall u :: GetOr(index, u, []) == PrefixesOf(Listings(ds), u))
  {
    var loaded := LoadDatasets(s.configs, s.exportBucket);
    var index := IndexUsers(Listings(loaded.datasets));
    IndexUsersSpec(Listings(loaded.datasets));
    var error := if loaded.error.None? then None else Some(ConfigError(loaded.error.value));
    Step(s.(datasets := Some(loaded.datasets), users := Some(index)), error)
  }

  /** `build_lambda_functions()`: with no datasets loaded (or none at all)
      it raises `DatasetsNotLoadedError` and changes nothing; otherwise every
      dataset gets its function, and `lambdas` gets one entry per dataset,
      each the `None` that `build_lambda_function` returns. */
  function BuildLambdaFunctions(s: Exports): (r: Step)
    ensures r.error.Some? <==> s.datasets.None? || s.datasets.value == []
    ensures r.error.Some? ==> r.error.value == DatasetsNotLoaded && r.state == s
    ensures r.error.None? ==>
      var ds := s.datasets.value;
      && r.state == s.(datasets := r.state.datasets, lambdas := r.state.lambdas)
      && r.state.datasets.Some? && |r.state.datasets.value| == |ds|
      && (forall i :: 0 <= i < |ds| ==> r.state.datasets.value[i] == BuildLambdaFunction(ds[i]))
      && r.state.lambdas.Some? && |r.state.lambdas.value| == |ds|
      && (forall i :: 0 <= i < |ds| ==> r.state.lambdas.value[i] == None)
  {
    if s.datasets.None? || s.datasets.value == [] then Step(s, Some(DatasetsNotLoaded))
    else
      var ds := s.datasets.value;
      var built := seq(|ds|, i requires 0 <= i < |ds| => BuildLambdaFunction(ds[i]));
      var lambdas := seq(|ds|, i => None);
      Step(s.(datasets := Some(built), lambdas := Some(lambdas)), None)
  }

  /** `[WriteToExportBucketRolePolicy(user, ...) for user, prefixes in
      users.items()]`: on a well-formed index, one `hub-exports` policy per
      indexed user and no other, each attached to that user's role and
      granting exactly that user's prefixes. */
  function UserPolicies(index: UserIndex, exportBucket: BucketRef): (ps: seq<RolePolicy>)
    ensures |ps| == |index.keys|
    ensures forall i :: 0 <= i < |ps| ==>
      && ps[i].role == index.keys[i]
      && ps[i].resourceName == ps[i].role
      && ps[i].name == "hub-exports"
      && IsWritePrefixesDocument(ps[i].document, exportBucket.arn, GetOr(index, ps[i].role, []))
    ensures Valid(index) ==>
      && (forall i, j :: 0 <= i < j < |ps| ==> ps[i].role != ps[j].role)
      && (forall u :: u in index.items <==> exists i :: 0 <= i < |ps| && ps[i].role == u)
  {
    seq(|index.keys|, i requires 0 <= i < |index.keys| =>
      WriteToExportBucketRolePolicy(index.keys[i], exportBucket, GetOr(index, index.keys[i], [])))
  }

  /** `build_role_policies()`: with no users loaded (or an empty index) it
      raises `UsersNotLoadedError` and changes nothing; otherwise it stores
      one write policy per user of the index. */
  function BuildRolePolicies(s: Exports): (r: Step)
    ensures r.error.Some? <==> s.users.None? || s.users.value.items == map[]
    ensures r.error.Some? ==> r.error.value == UsersNotLoaded && r.state == s
    ensures r.error.None? ==>
      && r.state == s.(rolePolicies := r.state.rolePolicies)
      && r.state.rolePolicies.Some?
      && r.state.rolePolicies.value == UserPolicies(s.users.value, s.exportBucket)
  {
    if s.users.None? || s.users.value.items == map[] then Step(s, Some(UsersNotLoaded))
    else Step(s.(rolePolicies := Some(UserPolicies(s.users.value, s.exportBucket))), None)
  }

  /** Neither build step works on a fresh object: each raises its named
      error and leaves the object as it was. */
  lemma BuildBeforeLoadFails(configs: seq<Args>, exportBucket: BucketRef)
    ensures BuildLambdaFunctions(NewExports(configs, exportBucket)) ==
            Step(NewExports(configs, exportBucket), Some(DatasetsNotLoaded))
    ensures BuildRolePolicies(NewExports(configs, exportBucket)) ==
            Step(NewExports(configs, exportBucket), Some(UsersNotLoaded))
  {
  }

  /** Loading no configs still leaves both build steps failing, because
      they test the loaded collections for emptiness, not for presence. */
  lemma EmptyLoadStillFails(exportBucket: BucketRef)
    ensures var loaded := LoadDatasetsAndUsers(NewExports([], exportBucket)).state;
      && BuildLambdaFunctions(loaded).error == Some(DatasetsNotLoaded)
      && BuildRolePolicies(loaded).error == Some(UsersNotLoaded)
  {
    var loaded := LoadDatasetsAndUsers(NewExports([], exportBucket)).state;
    assert loaded.users.value.items == map[] by {
      forall u ensures u !in loaded.users.value.items {
        assert u !in AllUsers(Listings([]));
      }
    }
  }

  /** After a successful load, building the functions gives every dataset a
      copy function exactly when it keeps files, and a move function
      otherwise. */
  lemma LoadedDatasetsGetTheirKind(s: Exports, i: int)
    requires var l := LoadDatasetsAndUsers(s); l.error.None?
    requires 0 <= i < |s.configs|
    ensures var l := LoadDatasetsAndUsers(s).state;
      var b := BuildLambdaFunctions(l);
      && b.error.None?
      && var f := b.state.datasets.value[i].lambdaFunction.value;
      && (f.kind == Copy <==> Truthy(s.configs[i]["keep_files"]))
      && f.name == "export-" + s.configs[i]["name"].s
      && f.prefix == s.configs[i]["name"].s
      && f.destinationBucket == s.configs[i]["target_bucket"].s
      && f.sourceBucket == s.exportBucket
  {
    var l := LoadDatasetsAndUsers(s).state;
    assert NewDataset(s.configs[i], s.exportBucket) == Success(l.datasets.value[i]);
  }

  /** The policies built from a user index over `ls`: one per distinct
      user, each for that user's prefixes. */
  lemma {:induction false} IndexPolicies(index: UserIndex, ls: seq<Listing>, exportBucket: BucketRef)
    requires Valid(index)
    requires index.keys == Dedup(AllUsers(ls))
    requires forall u :: GetOr(index, u, []) == PrefixesOf(ls, u)
    ensures var ps := UserPolicies(index, exportBucket);
      && |ps| == |set u | u in AllUsers(ls)|
      && (forall i, j :: 0 <= i < j < |ps| ==> ps[i].role != ps[j].role)
      && (forall u :: u in AllUsers(ls) <==> exists i :: 0 <= i < |ps| && ps[i].role == u)
      && (forall i :: 0 <= i < |ps| ==>
            IsWritePrefixesDocument(ps[i].document, exportBucket.arn, PrefixesOf(ls, ps[i].role)))
  {
    var ps := UserPolicies(index, exportBucket);
    DedupSpec(AllUsers(ls));
    forall u | u in AllUsers(ls) ensures exists i :: 0 <= i < |ps| && ps[i].role == u {
      var i :| 0 <= i < |index.keys| && index.keys[i] == u;
      assert ps[i].role == u;
    }
  }

  /** After loading, building the role policies yields exactly one policy
      per distinct user named by the loaded datasets, in order of first
      mention, each granting that user the names of the datasets that list
      it; it fails exactly when no dataset lists anyone. */
  lemma OnePolicyPerDistinctUser(s: Exports)
    ensures var l := LoadDatasetsAndUsers(s).state;
      var users := AllUsers(Listings(l.datasets.value));
      var b := BuildRolePolicies(l);
      && (b.error.None? <==> users != [])
      && (b.error.None? ==>
            var ps := b.state.rolePolicies.value;
            && |ps| == |set u | u in users|
            && (forall i, j :: 0 <= i < j < |ps| ==> ps[i].role != ps[j].role)
            && (forall u :: u in users <==> exists i :: 0 <= i < |ps| && ps[i].role == u)
            && (forall i :: 0 <= i < |ps| ==>
                  IsWritePrefixesDocument(ps[i].document, s.exportBucket.arn,
                                          PrefixesOf(Listings(l.datasets.value), ps[i].role))))
  {
    var l := LoadDatasetsAndUsers(s).state;
    var ls := Listings(l.datasets.value);
    var index := l.users.value;
    IndexEmptyIff(index, AllUsers(ls));
    if AllUsers(ls) != [] {
      IndexPolicies(index, ls, s.exportBucket);
    }
  }

  /** An index holding exactly the listed users is empty exactly when
      nobody is listed. */
  lemma IndexEmptyIff(index: UserIndex, users: seq<string>)
    requires forall u :: u in index.items <==> u in users
    ensures index.items == map[] <==> users == []
  {
    if users != [] {
      assert users[0] in index.items;
    } else {
      forall u ensures u !in index.items {
        assert u !in users;
      }
    }
  }
}
