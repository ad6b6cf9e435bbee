# Data engineering exports: policy and declaration model

A Dafny model of the configuration-to-IAM-policy logic of the
data-engineering-exports repository. Analytical Platform users push files
into prefixes of one export bucket, and a Lambda function moves or copies
them to each dataset's target bucket. External accounts pull files from
per-dataset pull buckets. The model covers four parts:

- the policy-statement builders;
- the push-dataset objects and their load-then-build sequencing;
- the folds the deployment script runs over all dataset configs;
- the hand-written JSON pull policy of the hub package.

## Modules and files

| file | module | models |
|---|---|---|
| results.dfy | Results | `Option` and `Result`, with `:-` propagation |
| values.dfy | Values | config and `args` values: strings, string lists, booleans. Covers Python truthiness and `KeyError` on a missing key. A read also fails when the value is not of the kind the code goes on to use; Python does not check this (see "Left out"). `AllKeysFit` and `FirstBadKey` are the reference for a sequence of reads: all keys fit, or the error of the first key that does not |
| policy.dfy | Policy | statements, policy documents and role policies, plus the resource names shared by all builders |
| dicts.dfy | Dicts | the insertion-ordered Python `dict`: assignment, `get`, `append` on a list value, and `items()` |
| grants.dfy | Grants | the user → prefixes index, with a reference definition of what it must hold |
| transfer.dfy | Transfer | the move-or-copy choice of a dataset's Lambda function |
| pull.dfy | Pull | `data_engineering_exports/pull.py` |
| legacy_policies.dfy | LegacyPolicies | the earlier revision `data_engineering_exports/policies.py` |
| hub_policies.dfy | HubPolicies | `data_engineering_hub_exports/policies.py` |
| push.dfy | Push | `data_engineering_exports/push.py` |
| compiler.dfy | Compiler | `__main__.py` |

## Modelling choices

- **Policy documents.** `get_policy_document` returns its statement list
  unchanged, as the unit tests' stand-in for it does
  (`tests/conftest.py:15-19`). So a document is the `seq<Statement>` the
  builder passes in.
- **Builders pop their arguments.** A builder that calls `args.pop` returns
  a `Built` pair: the document (or the error raised) and what is left of
  the caller's mapping. When `pull_arns` is missing, `bucket_arn` has
  already been popped, and the model keeps that partial pop.
- **`PushExportDatasets` is a record.** Each method is a function from the
  record before the call to the record after it, plus the error raised.
  A config that fails to load raises only after the datasets before it
  have been stored, as in the Python loop.
- **The deployment script is a method.** `Compile` reads the parsed configs
  in file order, runs the folds, and returns every declaration. The export
  role policy lists one resource per target bucket in the iteration order
  of a Python `set`, which the code leaves unspecified. `ExportRolePolicy`
  therefore picks buckets with `:|` and its contract holds for every order.
- **Resolved ARNs are plain strings.** A bucket the script declares by name
  has the ARN `arn:aws:s3:::<name>`.
- **The hub policy is a JSON tree.** Object members stay in insertion
  order, which is the order `json.dumps` writes them.

Three properties are worth calling out:

- `Compiler.CaseCollisionLaterWins`: two dataset names that differ only in
  case share one Lambda environment variable, and the later one's bucket
  wins.
- `Compiler.SharedPullUserKeepsResourceName`: a user listed by two pull
  datasets gets two `RolePolicy` resources with the same resource name.
  Two resources of one type with one name are a duplicate declaration, so
  the deployment fails. The pull grants are meant to be independent per
  dataset. `Compiler.DeclarePullNamespaced` namespaces the resource name
  by dataset (see "Findings"). `Compile` keeps the script as written.
- `Push.EmptyLoadStillFails`: loading an empty list of configs still makes
  both build steps raise.

## Model

| member | source | states |
|---|---|---|
| Pull.CreatePullBucketPolicy | data_engineering_exports/pull.py:13-94 | A missing `bucket_arn` or `pull_arns` is an error, and only the keys popped before it leave the mapping. Otherwise `bucket_arn`, `pull_arns` and `allow_push` are removed and every other key is kept. The result has exactly two statements, both Allow with the one AWS principal block `pull_arns`. The first is on `arn/*` with the writable actions iff `allow_push` is truthy, the read-only ones otherwise. The second is ListBucket on the bare ARN |
| Pull.CreateReadWriteRolePolicy | data_engineering_exports/pull.py:97-137 | Pops only `bucket_arn`, which is an error when missing. Returns two principal-less statements: the nine object actions in order on `arn/*`, then ListBucket on the ARN |
| Pull.WritableExtendsStandard | data_engineering_exports/pull.py:32-47 | The writable list begins with the three read-only actions. As sets, writable is a strict superset of read-only, and the difference is exactly the Delete, Put and Restore actions |
| Pull.AllowPushStrictlyWidens | data_engineering_exports/pull.py:48-93 | With `allow_push` true, the object statement covers the same resources for the same principals as with false, and grants a strictly larger set of actions |
| Pull.ListStatementIgnoresAllowPush | data_engineering_exports/pull.py:60-91 | The ListBucket statement is identical whatever value `allow_push` holds |
| Pull.MissingAllowPushIsFalse | data_engineering_exports/pull.py:29-31 | Leaving `allow_push` out gives the same policy as passing `False`. When both required keys are present, it also leaves the same mapping |
| Pull.EmptyPrincipalsKept | data_engineering_exports/pull.py:52-56 | An empty `pull_arns` list is passed through as the principal identifiers, not dropped |
| Pull.WritableMatchesRolePolicy | data_engineering_exports/pull.py:113-136 | The read-write role policy's object actions equal the writable pull actions element for element |
| LegacyPolicies.NewDataset | data_engineering_exports/policies.py:24-41 | Success iff `name` and `target_bucket` are strings and `keep_files` is present. Otherwise the error is that of the first key, in the order `name`, `target_bucket`, `keep_files`, that is missing or of the wrong kind. The dataset holds those values, the export bucket and no function |
| LegacyPolicies.BuildLambdaFunction | data_engineering_exports/policies.py:43-70 | Only the function changes. It is a copy iff `keep_files` is truthy, is named `export-<name>`, has prefix `name`, and goes from the export bucket to the target bucket |
| LegacyPolicies.WriteToExportBucketRolePolicy | data_engineering_exports/policies.py:73-101 | Resource name and role are the username, and the policy is named `hub-exports`. The document is Put actions on `arn/<p>/*` for each prefix in order and length, then ListBucket on the bare ARN |
| LegacyPolicies.CreatePullBucketPolicy | data_engineering_exports/policies.py:104-149 | Pops `bucket_arn` and `pull_arns`, failing on either missing. Returns the three Get actions on `arn/*` and ListBucket on the ARN, both with the AWS principal `pull_arns` |
| LegacyPolicies.CreateReadWriteRolePolicy | data_engineering_exports/policies.py:152-192 | Pops `bucket_arn`. Returns the nine object actions on `arn/*` and ListBucket on the ARN, with no principals |
| LegacyPolicies.PullPolicyIsReadOnlyLaterPolicy | data_engineering_exports/policies.py:120-148 | On every mapping without a truthy `allow_push`, the earlier pull policy equals the later one (pull.py). Without the key at all, the remaining mapping is equal too |
| LegacyPolicies.DatasetMatchesLaterDataset | data_engineering_exports/policies.py:36-50 | On a config whose `users` is a list, this revision's `PushExportDataset` succeeds iff push.py's does, with the same error otherwise. On success both hold the same name, target bucket, `keep_files`, export bucket and no function, and they build the same transfer function |
| LegacyPolicies.DatasetWithoutUsers | data_engineering_exports/policies.py:36-41 | A config without `users` that this revision accepts is rejected by push.py with `KeyError('users')` |
| LegacyPolicies.ReadWriteRolePolicyUnchanged | data_engineering_exports/policies.py:168-191 | The two revisions' read-write role policies agree on every input, errors and remaining mapping included |
| HubPolicies.CreateGetPolicy | data_engineering_hub_exports/policies.py:4-26 | Pops `bucket_arn` and then `pull_arns`, failing on either missing. The result is an object with `Version` `2012-10-17` and a two-element `Statement` array. Each element has keys Effect, Principal, Action and Resource in that order, with `"Allow"` and `{"AWS": pull_arns}`. Resource is the bare string `arn/*` for the Get actions, then the bare ARN for ListBucket |
| HubPolicies.GetPolicyRendersPullPolicy | data_engineering_hub_exports/policies.py:8-26 | The hand-written JSON is the earlier pull policy statement by statement: the same errors, the same remaining mapping, and the same effect, principal, actions and single resource |
| Transfer.BuildTransferFunction | data_engineering_exports/push.py:166-193 | A copy function iff `keep_files` is truthy, a move function iff it is not. Named `export-<name>` with prefix `name`, from the export bucket to the target bucket |
| Push.NewDataset | data_engineering_exports/push.py:115-145 | Success iff `name` and `target_bucket` are strings, `users` is a list and `keep_files` is present. Otherwise the error is that of the first key, in the order `name`, `target_bucket`, `users`, `keep_files`, that is missing or of the wrong kind. The fields hold those values, with no function |
| Push.BuildLambdaFunction | data_engineering_exports/push.py:166-193 | Only the function changes. It is a copy iff `keep_files` is truthy, with name, prefix, destination and source as in the source |
| Push.WriteToExportBucketRolePolicy | data_engineering_exports/push.py:196-239 | Username as resource name and role, and the name `hub-exports`. Put actions on `arn/<p>/*` per prefix, in order and length, then ListBucket on the bare ARN |
| Push.NewExports | data_engineering_exports/push.py:36-62 | A fresh object keeps its configs and export bucket. Datasets, lambdas, users and role policies are all unset |
| Push.LoadDatasets | data_engineering_exports/push.py:69-73 | The datasets are the configs' datasets, in order, up to the first config that fails. There is no error iff every config loads, and otherwise the error is that config's |
| Push.LoadDatasetsAndUsers | data_engineering_exports/push.py:64-76 | There is one dataset per config in path order, or the ones before the failing config plus its error. The user index holds exactly the distinct users, in order of first mention, each mapped to the names of the datasets listing it, once per mention. Lambdas and role policies are untouched |
| Push.BuildLambdaFunctions | data_engineering_exports/push.py:78-91 | Raises `DatasetsNotLoadedError` iff datasets are unset or empty, and then changes nothing. Otherwise each dataset gets its function and `lambdas` holds one `None` per dataset |
| Push.UserPolicies | data_engineering_exports/push.py:96-99 | Each policy is named `hub-exports`, is attached to a user's role under that user's resource name, and grants exactly that user's prefix list. On a well-formed index the roles are pairwise distinct and are exactly the indexed users |
| Push.IndexEmptyIff | data_engineering_exports/push.py:95-103 | An index holding exactly the listed users is empty iff nobody is listed, which is when `build_role_policies` raises |
| Push.BuildRolePolicies | data_engineering_exports/push.py:93-103 | Raises `UsersNotLoadedError` iff users are unset or empty, and then changes nothing. Otherwise it stores one write policy per indexed user and changes nothing else |
| Push.BuildBeforeLoadFails | data_engineering_exports/push.py:59-103 | On a fresh object, both build steps raise their named error and leave the object unchanged |
| Push.EmptyLoadStillFails | data_engineering_exports/push.py:80-103 | After loading zero configs, both build steps still raise, because the guards test emptiness |
| Push.LoadedDatasetsGetTheirKind | data_engineering_exports/push.py:64-91 | After a clean load, building succeeds. Config `i`'s function is a copy iff its `keep_files` is truthy, with that config's name, prefix and target bucket |
| Push.IndexPolicies | data_engineering_exports/push.py:93-99 | From an index of the listed users, the policies number the distinct users, have pairwise distinct roles and cover every listed user. Each grants its user's prefixes |
| Push.OnePolicyPerDistinctUser | data_engineering_exports/push.py:64-103 | After loading, building role policies fails iff no dataset lists a user. Otherwise it gives exactly one policy per distinct user, for that user's dataset names |
| Grants.AddUsersSpec | data_engineering_exports/push.py:75-76 | Appending a dataset name for each listed user keeps the index well formed and adds new users at the end. Each user's list grows by the name once per mention |
| Grants.IndexUsersSpec | data_engineering_exports/push.py:67-76 | The index over datasets in order has the distinct users as keys, in first-mention order, and maps each to the reference list of dataset names |
| Grants.IndexUsersCount | data_engineering_exports/push.py:67-76 | The index has exactly as many entries as there are distinct users |
| Compiler.ReadPushConfig | __main__.py:39-49 | A push config is read iff `name` and `bucket` are strings and `users` is a list. Otherwise the error is that of the first key, in the order `name`, `bucket`, `users`, that is missing or of the wrong kind |
| Compiler.ReadPullConfig | __main__.py:179-184 | A pull config is read iff `name` is a string, `pull_arns` is present and `users` is a list. Otherwise the error is that of the first key, in the order `name`, `pull_arns`, `users`, that is missing or of the wrong kind |
| Compiler.TargetBucketsSpec | __main__.py:36-46 | The target buckets are exactly the buckets the configs name |
| Compiler.DatasetsToBucketsSpec | __main__.py:37-47 | Every dataset name has an entry, in order of first occurrence. A name's bucket comes from its last config, so a later config overwrites an earlier one |
| Compiler.AddUsersWithGetIsAppend | __main__.py:49-51 | The redundant `users.get` adds nothing: each pass equals a plain append per mention |
| Compiler.UsersFoldIsIndex | __main__.py:38-51 | The script's users map is the push index over the same configs. It has the distinct users in first-mention order, each sent to the names listing it in file order, once per mention |
| Compiler.EnvironmentKeys | __main__.py:106-108 | The variables are exactly the uppercased dataset names |
| Compiler.EnvironmentValues | __main__.py:106-108 | A name's variable holds that name's bucket when no later name uppercases to the same key |
| Compiler.EnvironmentSpec | __main__.py:106-108 | The variables are exactly the uppercased dataset names. A name holds its bucket unless a later name uppercases to the same key |
| Compiler.CaseCollisionLaterWins | __main__.py:106-108 | `sales` and `SALES` collapse into one variable `SALES` holding the later bucket |
| Compiler.ExportRolePolicy | __main__.py:76-91 | Two statements: Get and DeleteObject on `export_arn/*`, then Put and PutObjectAcl with exactly one distinct `arn:aws:s3:::<b>/*` per target bucket and nothing else, in whatever order the set is walked |
| Compiler.CombinedNotification | __main__.py:158-170 | One notification named `export` on the given bucket. It has one entry per name, in order, with filter `name/`, the object-created event and the single function ARN |
| Compiler.NotificationPerDistinctName | __main__.py:158-170 | The script's notification has exactly one entry per distinct dataset name, with pairwise distinct filters, and covers every config |
| Compiler.WritePoliciesPerDistinctUser | __main__.py:133-156 | One `hub-exports` write policy per distinct push user, with the user as resource name and role and the user's prefixes as resources |
| Compiler.DeclarePull | __main__.py:176-212 | The bucket is `mojap-<name>` with a bucket policy `<name>-bucket-policy` granting the pull principals read access. Each listed user gets a `hub-exports-pull-<name>` read-write policy with resource name and role the user |
| Compiler.SharedPullUserKeepsResourceName | __main__.py:206-212 | A user listed by two pull datasets gets two role policies with distinct names but the same resource name |
| Compiler.PushAndPullUserShareResourceName | __main__.py:133-135 | A user listed by push config `m` and by a pull config gets a push write policy and a pull role policy with the same resource name, the user (with __main__.py:206-208) |
| Compiler.ListedUserIsInAllUsers | __main__.py:49-51 | Every user any push config lists is among the users the script folds into its users map |
| Compiler.DeclarePullNamespaced | __main__.py:202-212 | The corrected pull declaration. Everything is as in `DeclarePull` except that user `u` of dataset `n` has the role-policy resource name `n/u` |
| Compiler.PullResourceNameInjective | __main__.py:206-212 | For dataset names made of bucket-name characters, `n/u` determines both `n` and `u` |
| Compiler.NamespacedPullResourcesDistinct | __main__.py:206-212 | For dataset names made of bucket-name characters, two namespaced pull role policies share a resource name iff they are for the same user of the same dataset |
| Compiler.NamespacedPullAvoidsPushNames | __main__.py:133-135 | A namespaced pull resource name never equals a valid IAM role name, so it never equals a push write policy's resource name (with __main__.py:206-208) |
| Compiler.Compile | __main__.py:26-212 | The script succeeds iff every push config and then every pull config can be read. Otherwise it fails with the error of the first unreadable config: the first push config if any push config fails, else the first pull config. On success, the declarations are the folds above over the configs in file order, including the export role policy: get and delete on the export bucket's objects, then put and put-ACL, both Allow with no principals, on one distinct `arn:aws:s3:::<b>/*` per target bucket and nothing else. Each pull declaration is `DeclarePull` of its config |

## Findings

| source | as written | input that shows it | evidently intended | confidence | as-written member | corrected member |
|---|---|---|---|---|---|---|
| __main__.py:206-212 | every pull user's `RolePolicy` has `resource_name=user`, whichever dataset it is for | two pull configs `sales` and `hr` both listing `alpha_x`: two `RolePolicy` resources named `alpha_x` | one resource per user per dataset, with the resource name namespaced by dataset name | medium, not executed | Compiler.SharedPullUserKeepsResourceName | Compiler.NamespacedPullResourcesDistinct |
| __main__.py:206-208 | a pull user's `RolePolicy` has the same `resource_name=user` as that user's push write policy at __main__.py:133-135 | a push config and a pull config both listing `alpha_x`: two `RolePolicy` resources named `alpha_x` | pull role policies named apart from push write policies | medium, not executed | Compiler.PushAndPullUserShareResourceName | Compiler.NamespacedPullAvoidsPushNames |

The corrected declaration is `Compiler.DeclarePullNamespaced`. The resource
name spelling `<name>/<user>` is a choice of this model. It relies on two
naming rules of AWS: a pull dataset name is part of the S3 bucket name
`mojap-<name>`, so it holds only lowercase letters, digits, `.` and `-`,
and every user is an IAM role name, made of letters, digits and
`+=,.@_-`. Neither contains `/`. A separator a dataset name may contain,
such as `-`, would not do: `a` with user `b-c` and `a-b` with user `c`
would both give `a-b-c`.

## Left out

- Pulumi and AWS plumbing is not modelled. That covers resource construction
  (`Bucket`, `Role`, `RolePolicy`, `BucketPolicy`, `Function`, `Permission`,
  `BucketNotification`, `RolePolicyAttachment`), `Output.all(...).apply`
  resolution, `pulumi.export` and the `Tagger`. ARNs are already-resolved
  strings, and the export function's ARN is a parameter of `Compile`.
- The export role's assume-role policy, its attachment and the Lambda
  permission (`__main__.py:54-71, 97-103, 122-130`) are fixed
  declarations with no inputs, so they are left out.
- `MoveObjectFunction` and `CopyObjectFunction` come from a library that is
  not part of this model. Only the kind built and its arguments are
  recorded, not the role policies the library attaches.
- `data_engineering_exports/utils.py` (YAML loading and globbing) is not
  part of this model. Configs are parsed records, given in file order.
- The Lambda handler `pulumi/lambda_/export/export.py` does boto3 I/O and
  is not part of this model.
- `pulumi/__main__.py` is an earlier set of resource declarations and is not
  part of this model.
- The test harnesses and `make_combined_bucket_notification` are not part
  of this model. The notification shape follows `__main__.py:158-170`.
- `json.dumps` text is not produced. `HubPolicies.CreateGetPolicy` returns
  the JSON value tree, so string escaping and whitespace are not modelled.
- `Compiler.Upper` maps only ASCII letters. Python's `str.upper` also
  changes non-ASCII letters and can lengthen a string.
- Pull.CreateReadWriteRolePolicy: reports a non-string `bucket_arn` as an
  error. Python's f-string (pull.py:129) would format any value.
- LegacyPolicies.CreateReadWriteRolePolicy: reports a non-string
  `bucket_arn` as an error. Python's f-string (policies.py:184) would format
  any value.
- LegacyPolicies.NewDataset: fails on a non-string `name` or
  `target_bucket`. Python (policies.py:36-38) stores any value, and the
  function name `export-<name>` would then be formatted from it (for
  example `export-True`). Values are restricted to the kinds the code is
  written for.
- Push.NewDataset: fails on a non-string `name` or `target_bucket` and on
  a non-list `users`. Python (push.py:139-143) stores any value. A
  non-string name would be formatted, and a string `users` would later be
  iterated one character at a time.
- Push.LoadDatasetsAndUsers: a dataset whose `users` cannot be iterated is
  not stored. In Python, push.py:73 appends the dataset before line 75
  raises. In the model, such a config already fails at construction.
- Compiler.ReadPushConfig: fails on a non-string `name` or `bucket` and on
  a non-list `users`. Python reads any YAML value: a boolean `bucket` is
  added to the set and formatted into the ARN as `True` (__main__.py:46,
  87), and a string `users` is iterated one character at a time
  (__main__.py:49).
- Compiler.ReadPullConfig: fails on a non-string `name` and a non-list
  `users`. Python formats any `name` into `mojap-<name>` (__main__.py:187),
  and a string `users` is iterated one character at a time
  (__main__.py:206).
- Compiler.Compile: inherits the typed reads of `ReadPushConfig` and
  `ReadPullConfig`, so a config Python would deploy with a formatted or
  character-split value is a failure here. It also returns only a failure
  when a config cannot be read, while the program has already declared
  the resources of the configs before it.
- Repeated calls of the build steps are not guarded in the source either.
  The model makes them deterministic re-computations from the stored
  datasets and users.
- Where the tests disagree with the code, the model follows the code:
  - `tests/test_pull.py:21-44` expects reversed actions and a TLS-deny
    statement that `pull.py` never builds.
  - `tests/test_push.py:78-80` expects function objects in `lambdas`, but
    `build_lambda_function` returns `None`.
  - `tests/test_push.py:248` expects the policy name `hub_exports`, but the
    code uses `hub-exports`.
  - `tests/test_utils.py:11-15` uses a `bucket` key, but `push.py` reads
    `target_bucket`.
  - `tests/test_policies.py:33-34` calls a builder with no arguments.
