/** Decoded JSON values, and the search for local paths in them. */
module Jsons {
  // A decoded JSON value.
  datatype Json =
    | Null | Flag(b: bool) | Num(n: int) | Str(s: string) | Arr(items: seq<Json>) | Obj(fields: map<string, Json>)

  type Dict = map<string, Json>

  function Get(d: Dict, key: string): Json {
    if key in d then d[key] else Null
  }

  function Strs(s: seq<string>): Json {
    Arr(seq(|s|, i requires 0 <= i < |s| => Str(s[i])))
  }

  // Whether some string in the value names a local path; keys are not looked at.
  predicate Leaks(v: Json, localPath: string -> bool)
    decreases v
  {
    match v
    case Str(s) => localPath(s)
    case Arr(items) => exists i :: 0 <= i < |items| && Leaks(items[i], localPath)
    case Obj(fields) => exists k :: k in fields && Leaks(fields[k], localPath)
    case _ => false
  }
}
