/** IAM policy documents as produced by `get_policy_document`, which is taken
    to return its statement list unchanged. */
module Policy {
  import opened Results
  import opened Values

  datatype Effect = Allow | Deny

  /** A principal block: its type (`"AWS"`) and its identifiers, passed
      through exactly as the caller supplied them. */
  datatype Principal = Principal(kind: string, identifiers: Value)

  /** One statement; `principals == []` is a statement without principals. */
  datatype Statement = Statement(
    effect: Effect,
    actions: seq<string>,
    resources: seq<string>,
    principals: seq<Principal>)

  type Document = seq<Statement>

  /** An IAM role policy resource: its resource name, the role it attaches
      to, its policy name and its document. */
  datatype RolePolicy = RolePolicy(
    resourceName: string,
    role: string,
    name: string,
    document: Document)

  /** The outcome of a builder that pops its inputs from the caller's args:
      the document or the error raised, and what is left of the mapping. */
  datatype Built = Built(result: Result<Document, ArgError>, rest: Args)

  const ListBucket: string := "s3:ListBucket"

  const PutActions: seq<string> := ["s3:PutObject", "s3:PutObjectAcl", "s3:PutObjectTagging"]

  /** The resource naming every object of a bucket. */
  function AllObjects(bucketArn: string): string {
    bucketArn + "/*"
  }

  /** The resource naming every object under `prefix/` in a bucket. */
  function PrefixObjects(bucketArn: string, prefix: string): string {
    bucketArn + "/" + prefix + "/*"
  }

  const ArnPrefix: string := "arn:aws:s3:::"

  /** The ARN the code builds for a bucket known only by name. */
  function BucketArn(bucket: string): string {
    ArnPrefix + bucket
  }

  function PrefixResources(bucketArn: string, prefixes: seq<string>): (r: seq<string>)
    ensures |r| == |prefixes|
    ensures forall i :: 0 <= i < |prefixes| ==> r[i] == PrefixObjects(bucketArn, prefixes[i])
  {
    seq(|prefixes|, i requires 0 <= i < |prefixes| => PrefixObjects(bucketArn, prefixes[i]))
  }

  /** The two statements that let a user write below each of `prefixes` in
      an export bucket and list that bucket. */
  function WritePrefixesDocument(bucketArn: string, prefixes: seq<string>): Document
  {
    [ Statement(Allow, PutActions, PrefixResources(bucketArn, prefixes), []),
      Statement(Allow, [ListBucket], [bucketArn], []) ]
  }

  /** The shape every per-user export write policy has. */
  ghost predicate IsWritePrefixesDocument(doc: Document, bucketArn: string, prefixes: seq<string>)
  {
    && |doc| == 2
    && doc[0].effect == Allow && doc[1].effect == Allow
    && doc[0].actions == PutActions
    && |doc[0].resources| == |prefixes|
    && (forall i :: 0 <= i < |prefixes| ==> doc[0].resources[i] == PrefixObjects(bucketArn, prefixes[i]))
    && doc[0].principals == []
    && doc[1].actions == [ListBucket]
    && doc[1].resources == [bucketArn]
    && doc[1].principals == []
  }

  /** Distinct bucket names give distinct object resources. */
  lemma BucketObjectsInjective(b: string, c: string)
    requires AllObjects(BucketArn(b)) == AllObjects(BucketArn(c))
    ensures b == c
  {
    var x := AllObjects(BucketArn(b));
    assert |b| == |c|;
    var k := |ArnPrefix|;
    assert x[k..k + |b|] == b;
    assert AllObjects(BucketArn(c))[k..k + |c|] == c;
  }
}
