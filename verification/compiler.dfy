/** __main__.py: the script that folds every push config into the export
    bucket's declarations (target buckets, the export role policy, the
    Lambda environment, per-user write policies and one combined bucket
    notification), then declares a bucket and its policies per pull config.
    The folds are pure functions over the parsed configs in file order. */
module Compiler {
  import opened Results
  import opened Values
  import opened Policy
  import opened Transfer
  import opened Dicts
  import opened Grants
  import LegacyPolicies
  import Push

  const ExportBucketName: string := "mojap-hub-exports"

  /** The keys this script reads from a push config. */
  datatype PushConfig = PushConfig(name: string, bucket: string, users: seq<string>)

  /** The keys this script reads from a pull config. */
  datatype PullConfig = PullConfig(name: string, pullArns: Value, users: seq<string>)

  /** The keys a push config is read for, in order. */
  const PushKeys: seq<(string, Kind)> := [("name", StrKind), ("bucket", StrKind), ("users", StrsKind)]

  /** Reads `name`, `bucket` and `users`, in the order the loop does; the
      first key that is missing (or unusable) is the error. */
  function ReadPushConfig(c: Args): (r: Result<PushConfig, ArgError>)
    ensures r.Failure? ==> FirstBadKey(c, PushKeys, r.error)
    ensures r.Success? <==>
      "name" in c && c["name"].Str? && "bucket" in c && c["bucket"].Str? && "users" in c && c["users"].Strs?
    ensures "name" !in c ==> r == Failure(MissingKey("name"))
    ensures r.Success? ==> r.value == PushConfig(c["name"].s, c["bucket"].s, c["users"].l)
  {
    // Names each key's read for the first-bad-key witness.
    assert KeyError(c, PushKeys[0]) == KeyError(c, ("name", StrKind));
    assert KeyError(c, PushKeys[1]) == KeyError(c, ("bucket", StrKind));
    assert KeyError(c, PushKeys[2]) == KeyError(c, ("users", StrsKind));
    var name :- ReadStr(c, "name");
    var bucket :- ReadStr(c, "bucket");
    var users :- ReadStrs(c, "users");
    Success(PushConfig(name, bucket, users))
  }

  /** The keys a pull config is read for, in order. */
  const PullKeys: seq<(string, Kind)> := [("name", StrKind), ("pull_arns", AnyKind), ("users", StrsKind)]

  /** Reads `name`, `pull_arns` and `users`, in the order the loop does; the
      first key that is missing (or unusable) is the error. */
  function ReadPullConfig(c: Args): (r: Result<PullConfig, ArgError>)
    ensures r.Failure? ==> FirstBadKey(c, PullKeys, r.error)
    ensures r.Success? <==>
      "name" in c && c["name"].Str? && "pull_arns" in c && "users" in c && c["users"].Strs?
    ensures "name" !in c ==> r == Failure(MissingKey("name"))
    ensures r.Success? ==> r.value == PullConfig(c["name"].s, c["pull_arns"], c["users"].l)
  {
    // Names each key's read for the first-bad-key witness.
    assert KeyError(c, PullKeys[0]) == KeyError(c, ("name", StrKind));
    assert KeyError(c, PullKeys[1]) == KeyError(c, ("pull_arns", AnyKind));
    assert KeyError(c, PullKeys[2]) == KeyError(c, ("users", StrsKind));
    var name :- ReadStr(c, "name");
    var pullArns :- Read(c, "pull_arns");
    var users :- ReadStrs(c, "users");
    Success(PullConfig(name, pullArns, users))
  }

  // The folds over the push configs.

  /** `target_buckets.add(target_bucket)` for every config. */
  function TargetBuckets(cs: seq<PushConfig>): set<string>
  {
    if cs == [] then {} else TargetBuckets(cs[..|cs| - 1]) + {cs[|cs| - 1].bucket}
  }

  function NameBucketPairs(cs: seq<PushConfig>): (ps: seq<(string, string)>)
    ensures |ps| == |cs|
    ensures forall i :: 0 <= i < |cs| ==> ps[i] == (cs[i].name, cs[i].bucket)
  {
    seq(|cs|, i requires 0 <= i < |cs| => (cs[i].name, cs[i].bucket))
  }

  /** `datasets_to_buckets[dataset_name] = target_bucket` for every config. */
  function DatasetsToBuckets(cs: seq<PushConfig>): Dict<string, string>
  {
    PutAll(Empty(), NameBucketPairs(cs))
  }

  /** One pass of the users loop: `users[user] = users.get(user, [])`
      followed by `users.setdefault(user, []).append(dataset_name)`. */
  function AddUsersWithGet(d: UserIndex, name: string, users: seq<string>): UserIndex
    decreases |users|
  {
    if users == [] then d
    else
      var d' := AddUsersWithGet(d, name, users[..|users| - 1]);
      var user := users[|users| - 1];
      Append(Put(d', user, GetOr(d', user, [])), user, name)
  }

  function UsersFold(cs: seq<PushConfig>): UserIndex
  {
    if cs == [] then Empty()
    else
      var last := cs[|cs| - 1];
      AddUsersWithGet(UsersFold(cs[..|cs| - 1]), last.name, last.users)
  }

  function ToListings(cs: seq<PushConfig>): (ls: seq<Listing>)
    ensures |ls| == |cs|
    ensures forall i :: 0 <= i < |cs| ==> ls[i] == Listing(cs[i].name, cs[i].users)
  {
    seq(|cs|, i requires 0 <= i < |cs| => Listing(cs[i].name, cs[i].users))
  }

  /** The set of target buckets is exactly the buckets the configs name. */
  lemma {:induction false} TargetBucketsSpec(cs: seq<PushConfig>)
    ensures forall b :: b in TargetBuckets(cs) <==> exists i :: 0 <= i < |cs| && cs[i].bucket == b
  {
    if cs != [] {
      var init := cs[..|cs| - 1];
      TargetBucketsSpec(init);
      forall b ensures b in TargetBuckets(cs) <==> exists i :: 0 <= i < |cs| && cs[i].bucket == b {
        if b in TargetBuckets(init) {
          var i :| 0 <= i < |init| && init[i].bucket == b;
          assert cs[i].bucket == b;
        }
        if exists i :: 0 <= i < |cs| && cs[i].bucket == b {
          var i :| 0 <= i < |cs| && cs[i].bucket == b;
          if i < |cs| - 1 {
            assert init[i].bucket == b;
          }
        }
      }
    }
  }

  /** Every dataset name maps to a bucket; names keep the position of their
      first config, and a later config with the same name overwrites the
      bucket of an earlier one. */
  lemma DatasetsToBucketsSpec(cs: seq<PushConfig>)
    ensures var d := DatasetsToBuckets(cs);
      && Valid(d)
      && d.keys == Dedup(Firsts(NameBucketPairs(cs)))
      && (forall n :: n in d.items <==> exists i :: 0 <= i < |cs| && cs[i].name == n)
      && (forall i :: 0 <= i < |cs| && (forall j :: i < j < |cs| ==> cs[j].name != cs[i].name) ==>
            d.items[cs[i].name] == cs[i].bucket)
  {
    var ps := NameBucketPairs(cs);
    PutAllSpec(Empty(), ps);
    var d := DatasetsToBuckets(cs);
    forall n ensures n in d.items <==> exists i :: 0 <= i < |cs| && cs[i].name == n {
      if n in Firsts(ps) {
        var i :| 0 <= i < |ps| && Firsts(ps)[i] == n;
        assert cs[i].name == n;
      }
      if exists i :: 0 <= i < |cs| && cs[i].name == n {
        var i :| 0 <= i < |cs| && cs[i].name == n;
        assert Firsts(ps)[i] == n;
      }
    }
    forall i | 0 <= i < |cs| && (forall j :: i < j < |cs| ==> cs[j].name != cs[i].name)
      ensures d.items[cs[i].name] == cs[i].bucket
    {
      assert forall j :: i < j < |ps| ==> ps[j].0 != ps[i].0;
    }
  }

  /** The redundant `users.get` changes nothing: each pass of the users loop
      is a plain append per mention. */
  lemma {:induction false} AddUsersWithGetIsAppend(d: UserIndex, name: string, users: seq<string>)
    requires Valid(d)
    ensures AddUsersWithGet(d, name, users) == AddUsers(d, name, users)
    decreases |users|
  {
    if users != [] {
      var init := users[..|users| - 1];
      AddUsersWithGetIsAppend(d, name, init);
      PutGetThenAppend(AddUsers(d, name, init), users[|users| - 1], name);
    }
  }

  /** The script's users map is the push index over the same configs, so it
      lists each distinct user once and sends it to the names of the
      datasets that list it, in file order, once per mention. */
  lemma {:induction false} UsersFoldIsIndex(cs: seq<PushConfig>)
    ensures UsersFold(cs) == IndexUsers(ToListings(cs))
    ensures var d := UsersFold(cs);
      && Valid(d)
      && d.keys == Dedup(AllUsers(ToListings(cs)))
      && (forall u :: GetOr(d, u, []) == PrefixesOf(ToListings(cs), u))
  {
    if cs != [] {
      var init := cs[..|cs| - 1];
      UsersFoldIsIndex(init);
      assert ToListings(init) == ToListings(cs)[..|cs| - 1];
      IndexUsersSpec(ToListings(init));
      AddUsersWithGetIsAppend(UsersFold(init), cs[|cs| - 1].name, cs[|cs| - 1].users);
    }
    IndexUsersSpec(ToListings(cs));
  }

  // The Lambda environment.

  /** `str.upper` on ASCII letters; other characters are left as they are. */
  function UpperChar(c: char): char {
    if 'a' <= c <= 'z' then (c as int - 32) as char else c
  }

  function Upper(s: string): (u: string)
    ensures |u| == |s|
    ensures forall i :: 0 <= i < |s| ==> u[i] == UpperChar(s[i])
  {
    seq(|s|, i requires 0 <= i < |s| => UpperChar(s[i]))
  }

  function UpperPairs(ps: seq<(string, string)>): (us: seq<(string, string)>)
    ensures |us| == |ps|
    ensures forall i :: 0 <= i < |ps| ==> us[i] == (Upper(ps[i].0), ps[i].1)
  {
    seq(|ps|, i requires 0 <= i < |ps| => (Upper(ps[i].0), ps[i].1))
  }

  /** `{project.upper(): bucket for project, bucket in datasets_to_buckets.items()}` */
  function EnvironmentVariables(d: Dict<string, string>): Dict<string, string>
    requires Valid(d)
  {
    PutAll(Empty(), UpperPairs(Items(d)))
  }

  /** The keys assigned by the comprehension are the uppercased names. */
  lemma UpperKey(d: Dict<string, string>, u: string)
    requires Valid(d)
    ensures u in Firsts(UpperPairs(Items(d))) <==> exists n :: n in d.items && Upper(n) == u
  {
    var ps := UpperPairs(Items(d));
    if u in Firsts(ps) {
      var i :| 0 <= i < |ps| && Firsts(ps)[i] == u;
      assert d.keys[i] in d.items && Upper(d.keys[i]) == u;
    }
    if exists n :: n in d.items && Upper(n) == u {
      var n :| n in d.items && Upper(n) == u;
      var i :| 0 <= i < |d.keys| && d.keys[i] == n;
      assert Firsts(ps)[i] == u;
    }
  }

  /** The environment has exactly one variable per uppercased dataset name. */
  lemma EnvironmentKeys(d: Dict<string, string>)
    requires Valid(d)
    ensures var env := EnvironmentVariables(d);
      && Valid(env)
      && (forall u :: u in env.items <==> exists n :: n in d.items && Upper(n) == u)
  {
    PutAllSpec(Empty(), UpperPairs(Items(d)));
    forall u ensures u in EnvironmentVariables(d).items <==> exists n :: n in d.items && Upper(n) == u {
      UpperKey(d, u);
    }
  }

  /** A name's variable holds its bucket unless a later name uppercases to
      the same key, in which case the later bucket wins. */
  lemma EnvironmentValues(d: Dict<string, string>, i: int)
    requires Valid(d)
    requires 0 <= i < |d.keys|
    requires forall j :: i < j < |d.keys| ==> Upper(d.keys[j]) != Upper(d.keys[i])
    ensures Upper(d.keys[i]) in EnvironmentVariables(d).items
    ensures EnvironmentVariables(d).items[Upper(d.keys[i])] == d.items[d.keys[i]]
  {
    var ps := UpperPairs(Items(d));
    PutAllSpec(Empty(), ps);
    assert ps[i] == (Upper(d.keys[i]), d.items[d.keys[i]]);
    assert forall j :: i < j < |ps| ==> ps[j].0 != ps[i].0;
  }

  /** The environment has one variable per uppercased dataset name, and
      each name's variable holds its bucket unless a later name uppercases
      to the same key, in which case the later bucket wins. */
  lemma EnvironmentSpec(d: Dict<string, string>)
    requires Valid(d)
    ensures var env := EnvironmentVariables(d);
      && Valid(env)
      && (forall u :: u in env.items <==> exists n :: n in d.items && Upper(n) == u)
      && (forall i :: 0 <= i < |d.keys| && (forall j :: i < j < |d.keys| ==> Upper(d.keys[j]) != Upper(d.keys[i])) ==>
            env.items[Upper(d.keys[i])] == d.items[d.keys[i]])
  {
    EnvironmentKeys(d);
    forall i | 0 <= i < |d.keys| && (forall j :: i < j < |d.keys| ==> Upper(d.keys[j]) != Upper(d.keys[i]))
      ensures EnvironmentVariables(d).items[Upper(d.keys[i])] == d.items[d.keys[i]]
    {
      EnvironmentValues(d, i);
    }
  }

  /** Two names that differ only in case share a variable, holding the
      bucket of whichever comes later. */
  lemma CaseCollisionLaterWins()
    ensures var d := Dict(["sales", "SALES"], map["sales" := "bucket-a", "SALES" := "bucket-b"]);
      && Valid(d)
      && EnvironmentVariables(d).keys == ["SALES"]
      && EnvironmentVariables(d).items == map["SALES" := "bucket-b"]
  {
    var d := Dict(["sales", "SALES"], map["sales" := "bucket-a", "SALES" := "bucket-b"]);
    assert Upper("sales") == "SALES";
    assert Upper("SALES") == "SALES";
    var ps := UpperPairs(Items(d));
    assert ps == [("SALES", "bucket-a"), ("SALES", "bucket-b")];
    var e: Dict<string, string> := Empty();
    assert ps[..1] == [("SALES", "bucket-a")];
    assert ps[..1][..0] == [];
    assert PutAll(e, ps[..1][..0]) == e;
    var first := PutAll(e, ps[..1]);
    assert first == Put(e, "SALES", "bucket-a");
    assert first.keys == ["SALES"];
    assert PutAll(e, ps) == Put(first, "SALES", "bucket-b");
  }

  // The export role policy.

  /** The objects of a target bucket, as the export role policy names them. */
  function TargetObjects(bucket: string): string {
    AllObjects(BucketArn(bucket))
  }

  /** The export role may get and delete anything in the export bucket, and
      put objects (with their ACL) into each target bucket. Python iterates
      the set of target buckets in an order of its own, so the resources
      come in an unspecified order, one per bucket. */
  method ExportRolePolicy(exportArn: string, targets: set<string>) returns (doc: Document)
    ensures |doc| == 2
    ensures doc[0] == Statement(Allow, ["s3:GetObject", "s3:DeleteObject"], [AllObjects(exportArn)], [])
    ensures doc[1].effect == Allow && doc[1].principals == []
    ensures doc[1].actions == ["s3:PutObject", "s3:PutObjectAcl"]
    ensures |doc[1].resources| == |targets|
    ensures Distinct(doc[1].resources)
    ensures forall b :: b in targets ==> TargetObjects(b) in doc[1].resources
    ensures forall r :: r in doc[1].resources ==> exists b :: b in targets && r == TargetObjects(b)
  {
    var remaining := targets;
    var resources: seq<string> := [];
    while remaining != {}
      invariant remaining <= targets
      invariant |resources| + |remaining| == |targets|
      invariant Distinct(resources)
      invariant forall b :: b in targets && b !in remaining ==> TargetObjects(b) in resources
      invariant forall b :: b in remaining ==> TargetObjects(b) !in resources
      invariant forall r :: r in resources ==> exists b :: b in targets && b !in remaining && r == TargetObjects(b)
      decreases |remaining|
    {
      var b :| b in remaining;
      forall c | c in remaining - {b} ensures TargetObjects(c) != TargetObjects(b) {
        if TargetObjects(c) == TargetObjects(b) {
          BucketObjectsInjective(c, b);
        }
      }
      resources := resources + [TargetObjects(b)];
      remaining := remaining - {b};
    }
    assert forall b :: b in targets ==> TargetObjects(b) in resources;
    doc := [ Statement(Allow, ["s3:GetObject", "s3:DeleteObject"], [AllObjects(exportArn)], []),
             Statement(Allow, ["s3:PutObject", "s3:PutObjectAcl"], resources, []) ];
  }

  // The combined notification.

  datatype NotificationEntry = NotificationEntry(events: seq<string>, filterPrefix: string, functionArn: string)

  /** One bucket notification resource with its list of Lambda triggers. */
  datatype Notification = Notification(resourceName: string, bucket: string, entries: seq<NotificationEntry>)

  /** The single notification on the export bucket: one trigger per dataset
      name, filtered on `name/`, firing on object creation, all invoking the
      one export function. */
  function CombinedNotification(bucket: string, functionArn: string, names: seq<string>): (n: Notification)
    ensures n.resourceName == "export" && n.bucket == bucket
    ensures |n.entries| == |names|
    ensures forall i :: 0 <= i < |names| ==>
      n.entries[i] == NotificationEntry(["s3:ObjectCreated:*"], names[i] + "/", functionArn)
  {
    Notification("export", bucket,
      seq(|names|, i requires 0 <= i < |names| => NotificationEntry(["s3:ObjectCreated:*"], names[i] + "/", functionArn)))
  }

  /** The distinct names among the configs. */
  lemma DatasetNames(cs: seq<PushConfig>)
    ensures (set x | x in Firsts(NameBucketPairs(cs))) == (set i | 0 <= i < |cs| :: cs[i].name)
  {
    var ps := NameBucketPairs(cs);
    forall x | x in Firsts(ps) ensures x in (set i | 0 <= i < |cs| :: cs[i].name) {
      var i :| 0 <= i < |ps| && Firsts(ps)[i] == x;
      assert cs[i].name == x;
    }
    forall i | 0 <= i < |cs| ensures cs[i].name in Firsts(ps) {
      assert Firsts(ps)[i] == cs[i].name;
    }
  }

  /** Distinct names give distinct `name/` filters. */
  lemma FilterInjective(x: string, y: string)
    requires x + "/" == y + "/"
    ensures x == y
  {
    assert x == (x + "/")[..|x|];
    assert y == (y + "/")[..|y|];
  }

  /** The notification has exactly one trigger per distinct dataset name,
      so no two triggers share a filter, and every dataset is covered. */
  lemma NotificationPerDistinctName(cs: seq<PushConfig>, functionArn: string)
    ensures var names := DatasetsToBuckets(cs).keys;
      var n := CombinedNotification(ExportBucketName, functionArn, names);
      && |n.entries| == |set i | 0 <= i < |cs| :: cs[i].name|
      && (forall i, j :: 0 <= i < j < |n.entries| ==> n.entries[i].filterPrefix != n.entries[j].filterPrefix)
      && (forall i :: 0 <= i < |cs| ==> exists k :: 0 <= k < |n.entries| && n.entries[k].filterPrefix == cs[i].name + "/")
  {
    var ps := NameBucketPairs(cs);
    var names := DatasetsToBuckets(cs).keys;
    DatasetsToBucketsSpec(cs);
    DedupSpec(Firsts(ps));
    DatasetNames(cs);
    var n := CombinedNotification(ExportBucketName, functionArn, names);
    forall i, j | 0 <= i < j < |n.entries| ensures n.entries[i].filterPrefix != n.entries[j].filterPrefix {
      if names[i] + "/" == names[j] + "/" {
        FilterInjective(names[i], names[j]);
      }
    }
    forall i | 0 <= i < |cs| ensures exists k :: 0 <= k < |n.entries| && n.entries[k].filterPrefix == cs[i].name + "/" {
      assert Firsts(ps)[i] == cs[i].name;
      var k :| 0 <= k < |names| && names[k] == cs[i].name;
      assert n.entries[k].filterPrefix == cs[i].name + "/";
    }
  }

  // The per-user write policies on the export bucket.

  /** `for user, prefixes in users.items(): RolePolicy(...)`: exactly one
      write policy per distinct user across all push configs, for that
      user's prefixes. */
  lemma WritePoliciesPerDistinctUser(cs: seq<PushConfig>, exportBucket: BucketRef)
    ensures var ps := Push.UserPolicies(UsersFold(cs), exportBucket);
      var users := AllUsers(ToListings(cs));
      && |ps| == |set u | u in users|
      && (forall i, j :: 0 <= i < j < |ps| ==> ps[i].role != ps[j].role)
      && (forall u :: u in users <==> exists i :: 0 <= i < |ps| && ps[i].role == u)
      && (forall i :: 0 <= i < |ps| ==>
            && ps[i].resourceName == ps[i].role
            && ps[i].name == "hub-exports"
            && IsWritePrefixesDocument(ps[i].document, exportBucket.arn, PrefixesOf(ToListings(cs), ps[i].role)))
  {
    UsersFoldIsIndex(cs);
    Push.IndexPolicies(UsersFold(cs), ToListings(cs), exportBucket);
  }

  // Pull buckets.

  /** What the script declares for one pull config. */
  datatype PullDeclaration = PullDeclaration(
    bucketName: string,
    bucketPolicyName: string,
    bucketPolicy: Document,
    rolePolicies: seq<RolePolicy>)

  /** A bucket named `mojap-<name>`, a read-only bucket policy for the pull
      principals, and a read-write role policy named after the dataset for
      every listed user. */
  function DeclarePull(p: PullConfig): (r: PullDeclaration)
    ensures r.bucketName == "mojap-" + p.name
    ensures r.bucketPolicyName == p.name + "-bucket-policy"
    ensures var arn := BucketArn(r.bucketName);
      && |r.bucketPolicy| == 2
      && r.bucketPolicy[0] == Statement(Allow, ["s3:GetObject", "s3:GetObjectAcl", "s3:GetObjectVersion"],
                                        [arn + "/*"], [Principal("AWS", p.pullArns)])
      && r.bucketPolicy[1] == Statement(Allow, ["s3:ListBucket"], [arn], [Principal("AWS", p.pullArns)])
    ensures |r.rolePolicies| == |p.users|
    ensures forall i :: 0 <= i < |p.users| ==>
      && r.rolePolicies[i].resourceName == p.users[i]
      && r.rolePolicies[i].role == p.users[i]
      && r.rolePolicies[i].name == "hub-exports-pull-" + p.name
      && r.rolePolicies[i].document ==
           LegacyPolicies.CreateReadWriteRolePolicy(map["bucket_arn" := Str(BucketArn(r.bucketName))]).result.value
  {
    var bucketName := "mojap-" + p.name;
    var arn := BucketArn(bucketName);
    var bucketPolicy := LegacyPolicies.CreatePullBucketPolicy(map["bucket_arn" := Str(arn), "pull_arns" := p.pullArns]).result.value;
    var rolePolicy := LegacyPolicies.CreateReadWriteRolePolicy(map["bucket_arn" := Str(arn)]).result.value;
    PullDeclaration(bucketName, p.name + "-bucket-policy", bucketPolicy,
      seq(|p.users|, i requires 0 <= i < |p.users| => RolePolicy(p.users[i], p.users[i], "hub-exports-pull-" + p.name, rolePolicy)))
  }

  /** The same user listed by two pull datasets gets two role policies with
      distinct policy names but the same resource name. */
  lemma SharedPullUserKeepsResourceName(a: PullConfig, b: PullConfig, u: string)
    requires a.name != b.name
    requires u in a.users && u in b.users
    ensures exists i, j ::
      && 0 <= i < |a.users| && 0 <= j < |b.users|
      && DeclarePull(a).rolePolicies[i].resourceName == DeclarePull(b).rolePolicies[j].resourceName == u
      && DeclarePull(a).rolePolicies[i].name != DeclarePull(b).rolePolicies[j].name
  {
    var i :| 0 <= i < |a.users| && a.users[i] == u;
    var j :| 0 <= j < |b.users| && b.users[j] == u;
    var k := |"hub-exports-pull-"|;
    var pa := DeclarePull(a).rolePolicies[i];
    var pb := DeclarePull(b).rolePolicies[j];
    assert pa.resourceName == u && pb.resourceName == u;
    assert pa.name == "hub-exports-pull-" + a.name && pb.name == "hub-exports-pull-" + b.name;
    assert pa.name[k..] == a.name && pb.name[k..] == b.name;
  }

  /** A user listed by push config `m` and by a pull config gets a write
      policy on the export bucket and a pull role policy, both with the
      user as resource name. */
  lemma {:induction false} PushAndPullUserShareResourceName(cs: seq<PushConfig>, exportBucket: BucketRef, a: PullConfig, m: int, n: int, i: int)
    requires 0 <= m < |cs| && 0 <= n < |cs[m].users|
    requires 0 <= i < |a.users| && a.users[i] == cs[m].users[n]
    ensures var ws := Push.UserPolicies(UsersFold(cs), exportBucket);
      exists k :: 0 <= k < |ws| && ws[k].resourceName == DeclarePull(a).rolePolicies[i].resourceName == a.users[i]
  {
    ListedUserIsInAllUsers(ToListings(cs), m, n);
    WritePoliciesPerDistinctUser(cs, exportBucket);
  }

  /** Every user a push config lists is among `AllUsers`. */
  lemma {:induction false} ListedUserIsInAllUsers(ls: seq<Listing>, m: int, n: int)
    requires 0 <= m < |ls| && 0 <= n < |ls[m].users|
    ensures ls[m].users[n] in AllUsers(ls)
  {
    if m < |ls| - 1 {
      ListedUserIsInAllUsers(ls[..|ls| - 1], m, n);
    }
  }

  /** Characters S3 allows in a bucket name. A pull dataset's name is part of
      its bucket name `mojap-<name>`, so it is made of these. */
  predicate BucketNameChar(c: char) {
    'a' <= c <= 'z' || '0' <= c <= '9' || c == '.' || c == '-'
  }

  predicate IsBucketNamePart(s: string) {
    forall k :: 0 <= k < |s| ==> BucketNameChar(s[k])
  }

  /** Characters IAM allows in a role name. Every user is a role name, since
      both scripts attach the user's policies to the role named `user`. */
  predicate RoleNameChar(c: char) {
    'a' <= c <= 'z' || 'A' <= c <= 'Z' || '0' <= c <= '9' || c in "+=,.@_-"
  }

  predicate IsRoleName(s: string) {
    forall k :: 0 <= k < |s| ==> RoleNameChar(s[k])
  }

  /** The pull role-policy resource name `<name>/<user>`. A `/` can occur in
      neither a bucket name nor a role name. */
  function PullResourceName(name: string, user: string): string {
    name + "/" + user
  }

  /** `DeclarePull` with each user's role-policy resource name namespaced
      by the dataset, so that a user listed by several pull datasets gets
      one resource per dataset. Everything else is as declared by
      `DeclarePull`. */
  function DeclarePullNamespaced(p: PullConfig): (r: PullDeclaration)
    ensures r.bucketName == DeclarePull(p).bucketName
    ensures r.bucketPolicyName == DeclarePull(p).bucketPolicyName
    ensures r.bucketPolicy == DeclarePull(p).bucketPolicy
    ensures |r.rolePolicies| == |p.users|
    ensures forall i :: 0 <= i < |p.users| ==>
      r.rolePolicies[i] == DeclarePull(p).rolePolicies[i].(resourceName := PullResourceName(p.name, p.users[i]))
  {
    var d := DeclarePull(p);
    d.(rolePolicies := seq(|p.users|, i requires 0 <= i < |p.users| =>
      d.rolePolicies[i].(resourceName := PullResourceName(p.name, p.users[i]))))
  }

  /** `<name>/<user>` determines both parts when the name has no `/`. */
  lemma PullResourceNameInjective(n: string, u: string, n': string, u': string)
    requires IsBucketNamePart(n) && IsBucketNamePart(n')
    requires PullResourceName(n, u) == PullResourceName(n', u')
    ensures n == n' && u == u'
  {
    var x := PullResourceName(n, u);
    assert x == n' + "/" + u';
    assert x[|n|] == '/' && x[|n'|] == '/';
    assert forall k :: 0 <= k < |n| ==> x[k] == n[k] && BucketNameChar(n[k]);
    assert forall k :: 0 <= k < |n'| ==> x[k] == n'[k] && BucketNameChar(n'[k]);
    assert x[..|n|] == n && x[..|n'|] == n';
    assert x[|n| + 1..] == u && x[|n'| + 1..] == u';
  }

  /** With namespaced resource names, two pull role policies share a
      resource name exactly when they are for the same user of the same
      dataset, whatever the dataset and user names. */
  lemma NamespacedPullResourcesDistinct(a: PullConfig, b: PullConfig, i: int, j: int)
    requires IsBucketNamePart(a.name) && IsBucketNamePart(b.name)
    requires 0 <= i < |a.users| && 0 <= j < |b.users|
    ensures DeclarePullNamespaced(a).rolePolicies[i].resourceName == DeclarePullNamespaced(b).rolePolicies[j].resourceName
        <==> (a.name, a.users[i]) == (b.name, b.users[j])
  {
    if PullResourceName(a.name, a.users[i]) == PullResourceName(b.name, b.users[j]) {
      PullResourceNameInjective(a.name, a.users[i], b.name, b.users[j]);
    }
  }

  /** A namespaced pull resource name is never a push user's write-policy
      resource name, which is the user itself and so a role name. */
  lemma NamespacedPullAvoidsPushNames(a: PullConfig, i: int, u: string)
    requires IsBucketNamePart(a.name) && 0 <= i < |a.users|
    requires IsRoleName(u)
    ensures DeclarePullNamespaced(a).rolePolicies[i].resourceName != u
  {
    var x := PullResourceName(a.name, a.users[i]);
    assert x[|a.name|] == '/';
    if |a.name| < |u| {
      assert RoleNameChar(u[|a.name|]);
    }
  }

  // The whole script.

  /** Everything the script declares. */
  datatype Declarations = Declarations(
    targetBuckets: set<string>,
    datasetsToBuckets: Dict<string, string>,
    users: UserIndex,
    exportRolePolicy: Document,
    environment: Dict<string, string>,
    writePolicies: seq<RolePolicy>,
    notification: Notification,
    pull: seq<PullDeclaration>)

  /** Runs the script over the parsed push and pull configs. A config that
      lacks a key aborts the run: every push config is read before any pull
      config. `functionArn` is the export function's resolved ARN. */
  method Compile(pushConfigs: seq<Args>, pullConfigs: seq<Args>, functionArn: string) returns (r: Result<Declarations, ArgError>)
    ensures r.Success? <==>
      && (forall i :: 0 <= i < |pushConfigs| ==> ReadPushConfig(pushConfigs[i]).Success?)
      && (forall i :: 0 <= i < |pullConfigs| ==> ReadPullConfig(pullConfigs[i]).Success?)
    ensures r.Failure? && (forall i :: 0 <= i < |pushConfigs| ==> ReadPushConfig(pushConfigs[i]).Success?) ==>
      exists i :: 0 <= i < |pullConfigs| && ReadPullConfig(pullConfigs[i]) == Failure(r.error)
        && forall j :: 0 <= j < i ==> ReadPullConfig(pullConfigs[j]).Success?
    ensures r.Failure? && !(forall i :: 0 <= i < |pushConfigs| ==> ReadPushConfig(pushConfigs[i]).Success?) ==>
      exists i :: 0 <= i < |pushConfigs| && ReadPushConfig(pushConfigs[i]) == Failure(r.error)
        && forall j :: 0 <= j < i ==> ReadPushConfig(pushConfigs[j]).Success?
    ensures r.Success? ==>
      var cs := ReadAll(pushConfigs, ReadPushConfig).value;
      var exportBucket := BucketRef(ExportBucketName, BucketArn(ExportBucketName));
      var d := r.value;
      && d.targetBuckets == TargetBuckets(cs)
      && d.datasetsToBuckets == DatasetsToBuckets(cs)
      && d.users == UsersFold(cs)
      && |d.exportRolePolicy| == 2
      && d.exportRolePolicy[0] == Statement(Allow, ["s3:GetObject", "s3:DeleteObject"], [AllObjects(exportBucket.arn)], [])
      && d.exportRolePolicy[1].effect == Allow && d.exportRolePolicy[1].principals == []
      && d.exportRolePolicy[1].actions == ["s3:PutObject", "s3:PutObjectAcl"]
      && |d.exportRolePolicy[1].resources| == |d.targetBuckets|
      && Distinct(d.exportRolePolicy[1].resources)
      && (forall b :: b in d.targetBuckets ==> TargetObjects(b) in d.exportRolePolicy[1].resources)
      && (forall x :: x in d.exportRolePolicy[1].resources ==> exists b :: b in d.targetBuckets && x == TargetObjects(b))
      && Valid(d.datasetsToBuckets)
      && d.environment == EnvironmentVariables(d.datasetsToBuckets)
      && d.writePolicies == Push.UserPolicies(d.users, exportBucket)
      && d.notification == CombinedNotification(ExportBucketName, functionArn, d.datasetsToBuckets.keys)
      && |d.pull| == |pullConfigs|
      && (forall i :: 0 <= i < |pullConfigs| ==> d.pull[i] == DeclarePull(ReadPullConfig(pullConfigs[i]).value))
  {
    var cs :- ReadAll(pushConfigs, ReadPushConfig);
    var exportBucket := BucketRef(ExportBucketName, BucketArn(ExportBucketName));
    var targets := TargetBuckets(cs);
    var toBuckets := DatasetsToBuckets(cs);
    var users := UsersFold(cs);
    PutAllSpec(Empty(), NameBucketPairs(cs));
    var exportPolicy := ExportRolePolicy(exportBucket.arn, targets);
    var environment := EnvironmentVariables(toBuckets);
    var writePolicies := Push.UserPolicies(users, exportBucket);
    var notification := CombinedNotification(ExportBucketName, functionArn, toBuckets.keys);
    var pcs :- ReadAll(pullConfigs, ReadPullConfig);
    var pull := seq(|pcs|, i requires 0 <= i < |pcs| => DeclarePull(pcs[i]));
    r := Success(Declarations(targets, toBuckets, users, exportPolicy, environment, writePolicies, notification, pull));
  }
}
