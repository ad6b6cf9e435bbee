/** The pull-bucket policy builders of data_engineering_exports/pull.py: a
    bucket policy letting external principals read (and, with `allow_push`,
    write) a pull bucket, and a role policy giving a same-account role full
    object access to it. Both pop their inputs from the caller's args. */
module Pull {
  import opened Results
  import opened Values
  import opened Policy

  /** The object actions granted when `allow_push` is set. */
  const WritableActions: seq<string> := [
    "s3:GetObject",
    "s3:GetObjectAcl",
    "s3:GetObjectVersion",
    "s3:DeleteObject",
    "s3:DeleteObjectVersion",
    "s3:PutObject",
    "s3:PutObjectAcl",
    "s3:PutObjectTagging",
    "s3:RestoreObject"
  ]

  /** The read-only object actions. */
  const StandardActions: seq<string> := [
    "s3:GetObject",
    "s3:GetObjectAcl",
    "s3:GetObjectVersion"
  ]

  /** The object actions of the read-write role policy. */
  const RoleObjectActions: seq<string> := [
    "s3:GetObject",
    "s3:GetObjectAcl",
    "s3:GetObjectVersion",
    "s3:DeleteObject",
    "s3:DeleteObjectVersion",
    "s3:PutObject",
    "s3:PutObjectAcl",
    "s3:PutObjectTagging",
    "s3:RestoreObject"
  ]

  /** `args.pop("allow_push", False)`, read as a condition. */
  predicate AllowPush(args: Args) {
    "allow_push" in args && Truthy(args["allow_push"])
  }

  /** The principal block both pull statements carry. */
  function PullPrincipals(pullArns: Value): seq<Principal> {
    [Principal("AWS", pullArns)]
  }

  function PullStatements(bucketArn: string, pullArns: Value, allowPush: bool): Document
  {
    if allowPush then
      [ Statement(Allow, WritableActions, [bucketArn + "/*"], PullPrincipals(pullArns)),
        Statement(Allow, ["s3:ListBucket"], [bucketArn], PullPrincipals(pullArns)) ]
    else
      [ Statement(Allow, StandardActions, [bucketArn + "/*"], PullPrincipals(pullArns)),
        Statement(Allow, ["s3:ListBucket"], [bucketArn], PullPrincipals(pullArns)) ]
  }

  /** `create_pull_bucket_policy(args)`. */
  function CreatePullBucketPolicy(args: Args): (r: Built)
    // A missing key raises before anything else is popped.
    ensures "bucket_arn" !in args ==> r == Built(Failure(MissingKey("bucket_arn")), args)
    ensures "bucket_arn" in args && "pull_arns" !in args ==>
      r == Built(Failure(MissingKey("pull_arns")), args - {"bucket_arn"})
    // Otherwise exactly the three inputs leave the mapping, and only a
    // non-string bucket ARN (which cannot be concatenated) is an error.
    ensures "bucket_arn" in args && "pull_arns" in args ==>
      && r.rest == args - {"bucket_arn", "pull_arns", "allow_push"}
      && (r.result.Success? <==> args["bucket_arn"].Str?)
      && (r.result.Failure? ==> r.result.error == WrongType("bucket_arn"))
    ensures r.result.Success? ==>
      var arn := args["bucket_arn"].s;
      var doc := r.result.value;
      && |doc| == 2
      && (forall i :: 0 <= i < 2 ==> doc[i].effect == Allow && doc[i].principals == [Principal("AWS", args["pull_arns"])])
      && doc[0].resources == [arn + "/*"]
      && doc[0].actions == (if AllowPush(args) then WritableActions else StandardActions)
      && doc[1].actions == ["s3:ListBucket"]
      && doc[1].resources == [arn]
  {
    if "bucket_arn" !in args then Built(Failure(MissingKey("bucket_arn")), args)
    else if "pull_arns" !in args then Built(Failure(MissingKey("pull_arns")), args - {"bucket_arn"})
    else
      var rest := args - {"bucket_arn", "pull_arns", "allow_push"};
      match args["bucket_arn"]
      case Str(arn) => Built(Success(PullStatements(arn, args["pull_arns"], AllowPush(args))), rest)
      case _ => Built(Failure(WrongType("bucket_arn")), rest)
  }

  /** `create_read_write_role_policy(args)`. */
  function CreateReadWriteRolePolicy(args: Args): (r: Built)
    ensures "bucket_arn" !in args ==> r == Built(Failure(MissingKey("bucket_arn")), args)
    ensures "bucket_arn" in args ==>
      && r.rest == args - {"bucket_arn"}
      && (r.result.Success? <==> args["bucket_arn"].Str?)
      && (r.result.Failure? ==> r.result.error == WrongType("bucket_arn"))
    ensures r.result.Success? ==>
      var arn := args["bucket_arn"].s;
      var doc := r.result.value;
      && |doc| == 2
      && (forall i :: 0 <= i < 2 ==> doc[i].effect == Allow && doc[i].principals == [])
      && doc[0].actions == RoleObjectActions
      && doc[0].resources == [AllObjects(arn)]
      && doc[1].actions == [ListBucket]
      && doc[1].resources == [arn]
  {
    if "bucket_arn" !in args then Built(Failure(MissingKey("bucket_arn")), args)
    else
      var rest := args - {"bucket_arn"};
      match args["bucket_arn"]
      case Str(arn) =>
        Built(Success([ Statement(Allow, RoleObjectActions, [AllObjects(arn)], []),
                        Statement(Allow, [ListBucket], [arn], []) ]), rest)
      case _ => Built(Failure(WrongType("bucket_arn")), rest)
  }

  /** The args of a well-formed call: both required keys, a string ARN. */
  predicate WellFormedPullArgs(args: Args) {
    "bucket_arn" in args && "pull_arns" in args && args["bucket_arn"].Str?
  }

  /** The writable list keeps the read-only actions as its first three and
      adds exactly the delete, put and restore actions: a strict superset. */
  lemma WritableExtendsStandard()
    ensures WritableActions[..3] == StandardActions
    ensures (set a | a in StandardActions) < (set a | a in WritableActions)
    ensures (set a | a in WritableActions) - (set a | a in StandardActions) ==
      {"s3:DeleteObject", "s3:DeleteObjectVersion", "s3:PutObject", "s3:PutObjectAcl",
       "s3:PutObjectTagging", "s3:RestoreObject"}
  {
    var w := set a | a in WritableActions;
    var s := set a | a in StandardActions;
    assert "s3:RestoreObject" in w - s;
  }

  /** Setting `allow_push` grants the same principals strictly more actions
      on the same objects. */
  lemma AllowPushStrictlyWidens(args: Args)
    requires WellFormedPullArgs(args)
    ensures var ro := CreatePullBucketPolicy(args["allow_push" := Flag(false)]).result.value;
            var rw := CreatePullBucketPolicy(args["allow_push" := Flag(true)]).result.value;
            && ro[0].resources == rw[0].resources
            && ro[0].principals == rw[0].principals
            && (set a | a in ro[0].actions) < (set a | a in rw[0].actions)
  {
    WritableExtendsStandard();
  }

  /** Only the object statement depends on `allow_push`: the list statement
      is the same for both settings. */
  lemma ListStatementIgnoresAllowPush(args: Args, v: Value, w: Value)
    requires WellFormedPullArgs(args)
    ensures CreatePullBucketPolicy(args["allow_push" := v]).result.value[1] ==
            CreatePullBucketPolicy(args["allow_push" := w]).result.value[1]
  {
  }

  /** Leaving `allow_push` out is the same as passing `False`: the same
      policy, and (once both required keys are present) the same remaining
      mapping. */
  lemma MissingAllowPushIsFalse(args: Args)
    requires "allow_push" !in args
    ensures CreatePullBucketPolicy(args).result == CreatePullBucketPolicy(args["allow_push" := Flag(false)]).result
    ensures "bucket_arn" in args && "pull_arns" in args ==>
      CreatePullBucketPolicy(args).rest == CreatePullBucketPolicy(args["allow_push" := Flag(false)]).rest
  {
    var args' := args["allow_push" := Flag(false)];
    if "bucket_arn" in args && "pull_arns" in args {
      assert args - {"bucket_arn", "pull_arns", "allow_push"} == args' - {"bucket_arn", "pull_arns", "allow_push"};
    }
  }

  /** The principals are passed through untouched, also when empty. */
  lemma EmptyPrincipalsKept(bucketArn: string, allowPush: bool)
    ensures var doc := CreatePullBucketPolicy(map["bucket_arn" := Str(bucketArn), "pull_arns" := Strs([]), "allow_push" := Flag(allowPush)]).result;
            doc.Success? && |doc.value| == 2 && doc.value[0].principals == [Principal("AWS", Strs([]))]
  {
  }

  /** The writable pull actions are, element for element, the object actions
      of the read-write role policy. */
  lemma WritableMatchesRolePolicy(args: Args)
    requires "bucket_arn" in args && args["bucket_arn"].Str?
    ensures CreateReadWriteRolePolicy(args).result.value[0].actions == WritableActions
  {
  }
}
