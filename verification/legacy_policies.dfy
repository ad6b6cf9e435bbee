/** The earlier revision data_engineering_exports/policies.py: a push
    dataset without users, the per-user export write policy, and pull
    builders that only ever grant read access. __main__.py uses these pull
    builders. */
module LegacyPolicies {
  import opened Results
  import opened Values
  import opened Policy
  import opened Transfer
  import Pull
  import Push

  /** A push dataset of this revision: no users list. */
  datatype LegacyDataset = LegacyDataset(
    name: string,
    targetBucket: string,
    keepFiles: Value,
    exportBucket: BucketRef,
    lambdaFunction: Option<TransferFunction>)

  /** The keys this revision's `PushExportDataset` reads, in order. */
  const DatasetKeys: seq<(string, Kind)> := [("name", StrKind), ("target_bucket", StrKind), ("keep_files", AnyKind)]

  /** `PushExportDataset(config, export_bucket, tagger)`: reads `name`,
      `target_bucket` and `keep_files` in that order; the first key that is
      missing (or unusable) is the error. */
  function NewDataset(config: Args, exportBucket: BucketRef): (r: Result<LegacyDataset, ArgError>)
    ensures r.Success? <==> AllKeysFit(config, DatasetKeys)
    ensures r.Failure? ==> FirstBadKey(config, DatasetKeys, r.error)
    ensures r.Success? <==>
      && "name" in config && config["name"].Str?
      && "target_bucket" in config && config["target_bucket"].Str?
      && "keep_files" in config
    ensures "name" !in config ==> r == Failure(MissingKey("name"))
    ensures "name" in config && config["name"].Str? && "target_bucket" !in config ==>
      r == Failure(MissingKey("target_bucket"))
    ensures r.Success? ==>
      && r.value.name == config["name"].s
      && r.value.targetBucket == config["target_bucket"].s
      && r.value.keepFiles == config["keep_files"]
      && r.value.exportBucket == exportBucket
      && r.value.lambdaFunction == None
  {
    // Names each key's read for the first-bad-key witness.
    assert KeyError(config, DatasetKeys[0]) == KeyError(config, ("name", StrKind));
    assert KeyError(config, DatasetKeys[1]) == KeyError(config, ("target_bucket", StrKind));
    assert KeyError(config, DatasetKeys[2]) == KeyError(config, ("keep_files", AnyKind));
    var name :- ReadStr(config, "name");
    var targetBucket :- ReadStr(config, "target_bucket");
    var keepFiles :- Read(config, "keep_files");
    Success(LegacyDataset(name, targetBucket, keepFiles, exportBucket, None))
  }

  /** `build_lambda_function()`: stores a copy function when `keep_files`
      is truthy and a move function otherwise; nothing else changes. */
  function BuildLambdaFunction(d: LegacyDataset): (r: LegacyDataset)
    ensures r == d.(lambdaFunction := r.lambdaFunction)
    ensures r.lambdaFunction.Some?
    ensures r.lambdaFunction.value.kind == Copy <==> Truthy(d.keepFiles)
    ensures r.lambdaFunction.value.name == "export-" + d.name
    ensures r.lambdaFunction.value.prefix == d.name
    ensures r.lambdaFunction.value.destinationBucket == d.targetBucket
    ensures r.lambdaFunction.value.sourceBucket == d.exportBucket
  {
    d.(lambdaFunction := Some(BuildTransferFunction(d.name, d.targetBucket, d.keepFiles, d.exportBucket)))
  }

  /** `WriteToExportBucketRolePolicy(username, export_bucket, prefixes)`:
      the class moved to push.py unchanged, so this revision's policy is the
      one built there. */
  function WriteToExportBucketRolePolicy(username: string, exportBucket: BucketRef, prefixes: seq<string>): (r: RolePolicy)
    ensures r.resourceName == username && r.role == username
    ensures r.name == "hub-exports"
    ensures IsWritePrefixesDocument(r.document, exportBucket.arn, prefixes)
  {
    Push.WriteToExportBucketRolePolicy(username, exportBucket, prefixes)
  }

  /** `create_pull_bucket_policy(args)` of this revision: read access only. */
  function CreatePullBucketPolicy(args: Args): (r: Built)
    ensures "bucket_arn" !in args ==> r == Built(Failure(MissingKey("bucket_arn")), args)
    ensures "bucket_arn" in args && "pull_arns" !in args ==>
      r == Built(Failure(MissingKey("pull_arns")), args - {"bucket_arn"})
    ensures "bucket_arn" in args && "pull_arns" in args ==>
      && r.rest == args - {"bucket_arn", "pull_arns"}
      && (r.result.Success? <==> args["bucket_arn"].Str?)
      && (r.result.Failure? ==> r.result.error == WrongType("bucket_arn"))
    ensures r.result.Success? ==>
      var arn := args["bucket_arn"].s;
      var doc := r.result.value;
      && |doc| == 2
      && (forall i :: 0 <= i < 2 ==> doc[i].effect == Allow && doc[i].principals == [Principal("AWS", args["pull_arns"])])
      && doc[0].actions == ["s3:GetObject", "s3:GetObjectAcl", "s3:GetObjectVersion"]
      && doc[0].resources == [arn + "/*"]
      && doc[1].actions == ["s3:ListBucket"]
      && doc[1].resources == [arn]
  {
    if "bucket_arn" !in args then Built(Failure(MissingKey("bucket_arn")), args)
    else if "pull_arns" !in args then Built(Failure(MissingKey("pull_arns")), args - {"bucket_arn"})
    else
      var rest := args - {"bucket_arn", "pull_arns"};
      var principals := [Principal("AWS", args["pull_arns"])];
      match args["bucket_arn"]
      case Str(arn) =>
        Built(Success([ Statement(Allow, ["s3:GetObject", "s3:GetObjectAcl", "s3:GetObjectVersion"], [arn + "/*"], principals),
                        Statement(Allow, ["s3:ListBucket"], [arn], principals) ]), rest)
      case _ => Built(Failure(WrongType("bucket_arn")), rest)
  }

  /** `create_read_write_role_policy(args)` of this revision. */
  function CreateReadWriteRolePolicy(args: Args): (r: Built)
    ensures "bucket_arn" !in args ==> r == Built(Failure(MissingKey("bucket_arn")), args)
    ensures "bucket_arn" in args ==>
      && r.rest == args - {"bucket_arn"}
      && (r.result.Success? <==> args["bucket_arn"].Str?)
      && (r.result.Failure? ==> r.result.error == WrongType("bucket_arn"))
    ensures r.result.Success? ==>
      var arn := args["bucket_arn"].s;
      var doc := r.result.value;
      && |doc| == 2
      && (forall i :: 0 <= i < 2 ==> doc[i].effect == Allow && doc[i].principals == [])
      && doc[0].actions == ["s3:GetObject", "s3:GetObjectAcl", "s3:GetObjectVersion",
                            "s3:DeleteObject", "s3:DeleteObjectVersion", "s3:PutObject",
                            "s3:PutObjectAcl", "s3:PutObjectTagging", "s3:RestoreObject"]
      && doc[0].resources == [arn + "/*"]
      && doc[1].actions == ["s3:ListBucket"]
      && doc[1].resources == [arn]
  {
    if "bucket_arn" !in args then Built(Failure(MissingKey("bucket_arn")), args)
    else
      var rest := args - {"bucket_arn"};
      match args["bucket_arn"]
      case Str(arn) =>
        Built(Success([ Statement(Allow, ["s3:GetObject", "s3:GetObjectAcl", "s3:GetObjectVersion",
                                          "s3:DeleteObject", "s3:DeleteObjectVersion", "s3:PutObject",
                                          "s3:PutObjectAcl", "s3:PutObjectTagging", "s3:RestoreObject"],
                                  [arn + "/*"], []),
                        Statement(Allow, ["s3:ListBucket"], [arn], []) ]), rest)
      case _ => Built(Failure(WrongType("bucket_arn")), rest)
  }

  /** This revision's pull policy is the later one with `allow_push` false:
      the same result, and the same remaining mapping once `allow_push`
      is left out. */
  lemma PullPolicyIsReadOnlyLaterPolicy(args: Args)
    requires "allow_push" !in args || !Truthy(args["allow_push"])
    ensures CreatePullBucketPolicy(args).result == Pull.CreatePullBucketPolicy(args).result
    ensures "allow_push" !in args ==> CreatePullBucketPolicy(args) == Pull.CreatePullBucketPolicy(args)
  {
    if "allow_push" !in args && "bucket_arn" in args && "pull_arns" in args {
      assert args - {"bucket_arn", "pull_arns"} == args - {"bucket_arn", "pull_arns", "allow_push"};
    }
  }

  /** Adding `users` to the push dataset changed nothing else: on a config
      whose `users` is a list, this revision's constructor succeeds exactly
      when the later one does, fails with the same error, and the two
      datasets build the same transfer function. */
  lemma DatasetMatchesLaterDataset(config: Args, exportBucket: BucketRef)
    requires "users" in config && config["users"].Strs?
    ensures NewDataset(config, exportBucket).Success? <==> Push.NewDataset(config, exportBucket).Success?
    ensures NewDataset(config, exportBucket).Failure? ==>
      NewDataset(config, exportBucket).error == Push.NewDataset(config, exportBucket).error
    ensures NewDataset(config, exportBucket).Success? ==>
      var l := NewDataset(config, exportBucket).value;
      var p := Push.NewDataset(config, exportBucket).value;
      && l.name == p.name && l.targetBucket == p.targetBucket && l.keepFiles == p.keepFiles
      && l.exportBucket == p.exportBucket && l.lambdaFunction == p.lambdaFunction
      && BuildLambdaFunction(l).lambdaFunction == Push.BuildLambdaFunction(p).lambdaFunction
  {
  }

  /** Without a `users` list this revision still builds a dataset, where
      the later one raises for the missing key. */
  lemma DatasetWithoutUsers(config: Args, exportBucket: BucketRef)
    requires "users" !in config
    requires NewDataset(config, exportBucket).Success?
    ensures Push.NewDataset(config, exportBucket) == Failure(MissingKey("users"))
  {
  }

  /** Both revisions' read-write role policies agree on every input. */
  lemma ReadWriteRolePolicyUnchanged(args: Args)
    ensures CreateReadWriteRolePolicy(args) == Pull.CreateReadWriteRolePolicy(args)
  {
  }
}
