/** The JSON values the AI translation path handles. Decoding itself
    (`json.loads`) is not modelled: it is a partial function supplied by the
    caller, constrained only by what every JSON decoder does with empty input. */
module Json {
  import opened Common

  /** A decoded value: a string; a number or a boolean, with the text a
      TEXT-affinity column stores for it (`5`, `1.5`, `1` for true, `0` for
      false); `null`; or anything else (an array or a nested object).
      A decoder maps each JSON value to the variant the database driver
      treats it as: `NaN`, which `json.loads` accepts and the driver binds as
      NULL, is `JNull`; an integer outside the driver's 64-bit range (from
      2^63 up, or below -2^63), whose binding raises an overflow error, is
      `JOther` like an array. */
  datatype JValue = JStr(str: string) | JScalar(stored: string) | JNull | JOther

  /** A value a database driver binds directly: a string, a number or a
      boolean. */
  predicate IsScalar(v: JValue)
  {
    v.JStr? || v.JScalar?
  }

  /** The text a string column holds once the scalar `v` is stored in it and
      read back. */
  function ColumnText(v: JValue): (t: string)
    requires IsScalar(v)
    ensures v.JStr? ==> t == v.str
  {
    if v.JStr? then v.str else v.stored
  }

  /** A decoded JSON object, as the Python `dict` it becomes. */
  type Object = map<string, JValue>

  /** `json.loads` on a text expected to hold an object: `None` stands for
      `JSONDecodeError`. The empty text is never a JSON document. */
  type Decoder = f: string -> Option<Object> | f("") == None witness RejectAll

  function RejectAll(s: string): Option<Object>
  {
    None
  }
}
