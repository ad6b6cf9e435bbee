/** The transfer function a push dataset builds: a Lambda function that
    either moves (copies, then deletes the source) or copies objects from the
    export bucket to the dataset's target bucket. Only which kind is built
    and the arguments it receives are modelled. */
module Transfer {
  import opened Values

  /** A bucket resource: its name and its ARN. */
  datatype BucketRef = BucketRef(name: string, arn: string)

  datatype TransferKind = Move | Copy

  datatype TransferFunction = TransferFunction(
    kind: TransferKind,
    name: string,
    prefix: string,
    destinationBucket: string,
    sourceBucket: BucketRef)

  /** `build_lambda_function`'s choice: a copy function when `keep_files`
      is truthy, a move function otherwise, named after the dataset and
      filtered on its name. */
  function BuildTransferFunction(name: string, targetBucket: string, keepFiles: Value, exportBucket: BucketRef): (f: TransferFunction)
    ensures f.kind == Copy <==> Truthy(keepFiles)
    ensures f.kind == Move <==> !Truthy(keepFiles)
    ensures f.name == "export-" + name && f.prefix == name
    ensures f.destinationBucket == targetBucket && f.sourceBucket == exportBucket
  {
    var kind := if Truthy(keepFiles) then Copy else Move;
    TransferFunction(kind, "export-" + name, name, targetBucket, exportBucket)
  }
}
