/** What the model needs from the host framework and from Python itself:
    request dictionaries, truthiness, and the runtime errors of code as written. */
module Host {
  import opened Wrappers

  /** An action's `data_dict`: string keys to string values. */
  type DataDict = map<string, string>

  /** `data_dict.get(key)`. */
  function Get(d: DataDict, key: string): Option<string>
  {
    if key in d then Some(d[key]) else None
  }

  /** Python's `if v:` on an optional string: `None` and `''` are false. */
  predicate Truthy(v: Option<string>)
  {
    v.Some? && v.value != ""
  }

  /** Python runtime errors raised by code that refers to a name it never bound. */
  datatype PyError = UnboundLocalError(local: string) | NameError(global: string)
}
