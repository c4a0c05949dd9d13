/** Python values as they appear in the export records and in the metadata
    bags the downloader handles: JSON-shaped data, plus the outcome of an
    operation that may raise. */
module Values {

  /** A JSON-shaped Python value (floating-point numbers are not modelled). */
  datatype Json =
    | JNull
    | JBool(b: bool)
    | JInt(i: int)
    | JStr(s: string)
    | JList(items: seq<Json>)
    | JObject(fields: map<string, Json>)

  /** A metadata bag: a Python dict with string keys. */
  type Info = map<string, Json>

  /** The exceptions the core can raise, by kind. */
  datatype Error =
    | NotInContext                  // ValueError("must be used as context manager")
    | KeyError(key: string)
    | IndexError
    | TypeError
    | DateFormatError               // ValueError raised by datetime.strptime
    | FetchError(url: string)       // anything the fetcher raises
    | FileExists(path: string)      // os.makedirs on an existing file
    | FileNotFound(path: string)    // opening a missing file
    | IsADirectory(path: string)    // opening a directory as a file
    | SameFile(path: string)        // shutil.copy onto its own source
    | AttributeError                // a method the value does not have

  datatype Option<+T> = None | Some(value: T)

  /** The outcome of a call that either returns a value or raises. */
  datatype Result<+T> = Ok(value: T) | Fail(error: Error)

  /** `v[key]` on a value whose key is a string: only a dict can answer, and
      only when it holds the key. */
  function GetItem(v: Json, key: string): (r: Result<Json>)
    ensures r.Ok? <==> v.JObject? && key in v.fields
    ensures r.Ok? ==> r.value == v.fields[key]
    ensures v.JObject? && key !in v.fields ==> r == Fail(KeyError(key))
  {
    match v
    case JObject(fields) => if key in fields then Ok(fields[key]) else Fail(KeyError(key))
    case _ => Fail(TypeError)
  }

  /** `v[0]`: the first element of a non-empty list. (Indexing a string by 0
      yields a one-character string, which the only caller then subscripts by
      a string key and so raises anyway; that detour is folded into Fail.) */
  function First(v: Json): (r: Result<Json>)
    ensures r.Ok? <==> v.JList? && |v.items| > 0
    ensures r.Ok? ==> r.value == v.items[0]
  {
    match v
    case JList(items) => if |items| > 0 then Ok(items[0]) else Fail(IndexError)
    case JObject(_) => Fail(KeyError("0"))  // Python raises KeyError(0), with the integer key
    case _ => Fail(TypeError)
  }
}
