/** The values a parsed configuration record or a builder's `args` mapping
    can hold, Python's truthiness on them, and the errors raised when a key
    is missing or holds a value of the wrong kind. */
module Values {
  import opened Results

  /** A YAML scalar string, a list of strings, or a boolean. */
  datatype Value = Str(s: string) | Strs(l: seq<string>) | Flag(b: bool)

  /** A Python `dict` from string keys (a config record or builder args). */
  type Args = map<string, Value>

  /** `KeyError` for a missing key; `TypeError` (or a value the code cannot
      iterate or concatenate) for a key holding the wrong kind of value. */
  datatype ArgError = MissingKey(key: string) | WrongType(key: string)

  /** Python's `bool(v)`: empty strings and empty lists are false. */
  predicate Truthy(v: Value) {
    match v
    case Str(s) => s != ""
    case Strs(l) => l != []
    case Flag(b) => b
  }

  /** The kind of value the code goes on to use a key as. */
  datatype Kind = AnyKind | StrKind | StrsKind

  predicate Fits(v: Value, k: Kind) {
    match k
    case AnyKind => true
    case StrKind => v.Str?
    case StrsKind => v.Strs?
  }

  /** The error reading `key` as a value of `kind` raises, if any. */
  function KeyError(config: Args, key: (string, Kind)): Option<ArgError> {
    if key.0 !in config then Some(MissingKey(key.0))
    else if !Fits(config[key.0], key.1) then Some(WrongType(key.0))
    else None
  }

  /** `config[key]`, for a key whose value may be of any kind. */
  function Read(config: Args, key: string): (r: Result<Value, ArgError>)
    ensures r.Failure? <==> KeyError(config, (key, AnyKind)).Some?
    ensures r.Failure? ==> KeyError(config, (key, AnyKind)) == Some(r.error)
    ensures r.Success? <==> key in config
    ensures r.Success? ==> r.value == config[key]
    ensures r.Failure? ==> r.error == MissingKey(key)
  {
    if key in config then Success(config[key]) else Failure(MissingKey(key))
  }

  /** `config[key]`, where the code goes on to use the value as a string. */
  function ReadStr(config: Args, key: string): (r: Result<string, ArgError>)
    ensures r.Failure? <==> KeyError(config, (key, StrKind)).Some?
    ensures r.Failure? ==> KeyError(config, (key, StrKind)) == Some(r.error)
    ensures r.Success? <==> key in config && config[key].Str?
    ensures r.Success? ==> r.value == config[key].s
    ensures r.Failure? ==> r.error == if key in config then WrongType(key) else MissingKey(key)
  {
    if key !in config then Failure(MissingKey(key))
    else if config[key].Str? then Success(config[key].s)
    else Failure(WrongType(key))
  }

  /** `config[key]`, where the code goes on to iterate the value as a list
      of strings. */
  function ReadStrs(config: Args, key: string): (r: Result<seq<string>, ArgError>)
    ensures r.Failure? <==> KeyError(config, (key, StrsKind)).Some?
    ensures r.Failure? ==> KeyError(config, (key, StrsKind)) == Some(r.error)
    ensures r.Success? <==> key in config && config[key].Strs?
    ensures r.Success? ==> r.value == config[key].l
    ensures r.Failure? ==> r.error == if key in config then WrongType(key) else MissingKey(key)
  {
    if key !in config then Failure(MissingKey(key))
    else if config[key].Strs? then Success(config[key].l)
    else Failure(WrongType(key))
  }

  /** Reference for a sequence of reads: every key is present and holds a
      value of the kind it is read as. */
  predicate AllKeysFit(config: Args, keys: seq<(string, Kind)>) {
    forall i :: 0 <= i < |keys| ==> KeyError(config, keys[i]) == None
  }

  /** Reference for a sequence of reads: `e` is the error of the first key,
      in reading order, that is missing or holds a value of the wrong kind. */
  predicate FirstBadKey(config: Args, keys: seq<(string, Kind)>, e: ArgError) {
    exists i :: 0 <= i < |keys| && KeyError(config, keys[i]) == Some(e)
      && forall j :: 0 <= j < i ==> KeyError(config, keys[j]) == None
  }

  /** Reads every record in order with `read`, stopping at the first error,
      as a loop over config files does when one of them raises. */
  function ReadAll<T>(records: seq<Args>, read: Args -> Result<T, ArgError>): (r: Result<seq<T>, ArgError>)
    ensures r.Success? <==> forall i :: 0 <= i < |records| ==> read(records[i]).Success?
    ensures r.Success? ==>
      && |r.value| == |records|
      && forall i :: 0 <= i < |records| ==> read(records[i]) == Success(r.value[i])
    ensures r.Failure? ==>
      exists i :: 0 <= i < |records| && read(records[i]) == Failure(r.error)
        && forall j :: 0 <= j < i ==> read(records[j]).Success?
  {
    if records == [] then Success([])
    else
      match read(records[0])
      case Failure(e) => Failure(e)
      case Success(x) =>
        match ReadAll(records[1..], read)
        case Failure(e) =>
          ghost var i :| 0 <= i < |records[1..]| && read(records[1..][i]) == Failure(e)
            && forall j :: 0 <= j < i ==> read(records[1..][j]).Success?;
          assert read(records[i + 1]) == Failure(e);
          Failure(e)
        case Success(xs) => Success([x] + xs)
  }
}
