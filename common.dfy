/** Values shared by every part of the model: an optional value, standing for
    Python's `dict.get` misses and Qt's invalid timers, and JSON values, which
    hold the manifest keys the editor does not interpret. */
module Common {

  datatype Option<+T> = None | Some(value: T) {
    /** The value, or `default` when absent (Python's `d.get(key, default)`). */
    function GetOr(default: T): T {
      match this
      case Some(v) => v
      case None => default
    }
  }

  /** A JSON value as `json.loads` produces it. Numbers are integers: the
      manifests written by the editor hold no fractional numbers. */
  datatype Json =
    | JNull
    | JBool(b: bool)
    | JNum(n: int)
    | JStr(s: string)
    | JArr(items: seq<Json>)
    | JObj(fields: map<string, Json>)
}
