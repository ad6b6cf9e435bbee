/** data_engineering_hub_exports/policies.py: `create_get_policy` writes the
    two-statement read policy of a pull bucket by hand as a JSON object. The
    JSON is modelled as a value tree whose objects keep their members in
    insertion order, the order in which `json.dumps` writes them. */
module HubPolicies {
  import opened Results
  import opened Values
  import opened Policy
  import LegacyPolicies

  datatype Json =
    | JString(str: string)
    | JBool(b: bool)
    | JArray(elems: seq<Json>)
    | JObject(members: seq<(string, Json)>)

  /** The result of `create_get_policy` and what is left of its args. */
  datatype JsonBuilt = JsonBuilt(result: Result<Json, ArgError>, rest: Args)

  const PolicyVersion: string := "2012-10-17"

  /** How a config value is written into the document. */
  function ValueJson(v: Value): Json {
    match v
    case Str(s) => JString(s)
    case Strs(l) => JArray(seq(|l|, i requires 0 <= i < |l| => JString(l[i])))
    case Flag(b) => JBool(b)
  }

  function StringArray(l: seq<string>): Json {
    ValueJson(Strs(l))
  }

  /** The member names of an object, in order. */
  function MemberNames(j: Json): seq<string>
    requires j.JObject?
  {
    seq(|j.members|, i requires 0 <= i < |j.members| => j.members[i].0)
  }

  /** `create_get_policy(args)`. */
  function CreateGetPolicy(args: Args): (r: JsonBuilt)
    ensures "bucket_arn" !in args ==> r == JsonBuilt(Failure(MissingKey("bucket_arn")), args)
    ensures "bucket_arn" in args && "pull_arns" !in args ==>
      r == JsonBuilt(Failure(MissingKey("pull_arns")), args - {"bucket_arn"})
    ensures "bucket_arn" in args && "pull_arns" in args ==>
      && r.rest == args - {"bucket_arn", "pull_arns"}
      && (r.result.Success? <==> args["bucket_arn"].Str?)
      && (r.result.Failure? ==> r.result.error == WrongType("bucket_arn"))
    ensures r.result.Success? ==>
      var arn := args["bucket_arn"].s;
      var principal := JObject([("AWS", ValueJson(args["pull_arns"]))]);
      && r.result.value.JObject?
      && |r.result.value.members| == 2
      && r.result.value.members[0] == ("Version", JString(PolicyVersion))
      && r.result.value.members[1].0 == "Statement"
      && r.result.value.members[1].1.JArray?
      && var ss := r.result.value.members[1].1.elems;
      && |ss| == 2
      && (forall i :: 0 <= i < 2 ==>
            && ss[i].JObject?
            && MemberNames(ss[i]) == ["Effect", "Principal", "Action", "Resource"]
            && ss[i].members[0].1 == JString("Allow")
            && ss[i].members[1].1 == principal)
      && ss[0].members[2].1 == StringArray(["s3:GetObject", "s3:GetObjectAcl", "s3:GetObjectVersion"])
      && ss[0].members[3].1 == JString(arn + "/*")
      && ss[1].members[2].1 == StringArray(["s3:ListBucket"])
      && ss[1].members[3].1 == JString(arn)
  {
    if "bucket_arn" !in args then JsonBuilt(Failure(MissingKey("bucket_arn")), args)
    else if "pull_arns" !in args then JsonBuilt(Failure(MissingKey("pull_arns")), args - {"bucket_arn"})
    else
      var rest := args - {"bucket_arn", "pull_arns"};
      var principal := JObject([("AWS", ValueJson(args["pull_arns"]))]);
      match args["bucket_arn"]
      case Str(arn) =>
        var statements := [
          JObject([ ("Effect", JString("Allow")),
                    ("Principal", principal),
                    ("Action", StringArray(["s3:GetObject", "s3:GetObjectAcl", "s3:GetObjectVersion"])),
                    ("Resource", JString(arn + "/*")) ]),
          JObject([ ("Effect", JString("Allow")),
                    ("Principal", principal),
                    ("Action", StringArray(["s3:ListBucket"])),
                    ("Resource", JString(arn)) ])
        ];
        JsonBuilt(Success(JObject([("Version", JString(PolicyVersion)), ("Statement", JArray(statements))])), rest)
      case _ => JsonBuilt(Failure(WrongType("bucket_arn")), rest)
  }

  /** How a one-resource, one-principal-block statement is written by hand:
      the single resource as a bare string. */
  function StatementJson(st: Statement): Json
    requires |st.resources| == 1 && |st.principals| == 1
  {
    JObject([ ("Effect", JString(if st.effect == Allow then "Allow" else "Deny")),
              ("Principal", JObject([(st.principals[0].kind, ValueJson(st.principals[0].identifiers))])),
              ("Action", StringArray(st.actions)),
              ("Resource", JString(st.resources[0])) ])
  }

  /** The hand-written document is the policies.py pull policy written out:
      the same errors, the same remaining args, and statement for statement
      the same effect, principals, actions and resource. */
  lemma GetPolicyRendersPullPolicy(args: Args)
    ensures CreateGetPolicy(args).rest == LegacyPolicies.CreatePullBucketPolicy(args).rest
    ensures CreateGetPolicy(args).result.Success? <==> LegacyPolicies.CreatePullBucketPolicy(args).result.Success?
    ensures CreateGetPolicy(args).result.Failure? ==>
      CreateGetPolicy(args).result.error == LegacyPolicies.CreatePullBucketPolicy(args).result.error
    ensures CreateGetPolicy(args).result.Success? ==>
      var doc := LegacyPolicies.CreatePullBucketPolicy(args).result.value;
      CreateGetPolicy(args).result.value ==
        JObject([("Version", JString(PolicyVersion)),
                 ("Statement", JArray([StatementJson(doc[0]), StatementJson(doc[1])]))])
  {
  }
}
