/** The D-Bus values that NetworkManager settings hold, and the typed
    lookups in a setting's key/value map. The lookup helpers are not part of
    this model's sources; they are taken to be plain typed lookups: a
    missing key is `None`, a value of the wrong type is an error. */
module DbusValue {
  import opened Common

  newtype i32 = x: int | -0x8000_0000 <= x < 0x8000_0000

  datatype DbusValue = DStr(s: string) | DBool(b: bool) | DInt32(i: i32)

  /** One setting (`connection`, `ipv4`, ...) as a key/value map. */
  type Setting = map<string, DbusValue>

  /** A whole connection: setting name to setting. */
  type ConnectionValue = map<string, Setting>

  function WrongType(key: string): NmError
  {
    NmError(NmInvalidArgument, "Invalid value type for key " + key)
  }

  /** `value_hash_get_string` (and `value_to_string`). */
  function GetString(m: Setting, key: string): (r: Result<Option<string>, NmError>)
    ensures key !in m ==> r == Ok(None)
    ensures key in m && m[key].DStr? ==> r == Ok(Some(m[key].s))
    ensures key in m && !m[key].DStr? ==> r.Err? && r.error.kind == NmInvalidArgument
  {
    if key !in m then Ok(None)
    else match m[key]
      case DStr(s) => Ok(Some(s))
      case _ => Err(WrongType(key))
  }

  /** `value_hash_get_bool`. */
  function GetBool(m: Setting, key: string): (r: Result<Option<bool>, NmError>)
    ensures key !in m ==> r == Ok(None)
    ensures key in m && m[key].DBool? ==> r == Ok(Some(m[key].b))
    ensures key in m && !m[key].DBool? ==> r.Err? && r.error.kind == NmInvalidArgument
  {
    if key !in m then Ok(None)
    else match m[key]
      case DBool(b) => Ok(Some(b))
      case _ => Err(WrongType(key))
  }

  /** `value_hash_get_i32`. */
  function GetI32(m: Setting, key: string): (r: Result<Option<i32>, NmError>)
    ensures key !in m ==> r == Ok(None)
    ensures key in m && m[key].DInt32? ==> r == Ok(Some(m[key].i))
    ensures key in m && !m[key].DInt32? ==> r.Err? && r.error.kind == NmInvalidArgument
  {
    if key !in m then Ok(None)
    else match m[key]
      case DInt32(i) => Ok(Some(i))
      case _ => Err(WrongType(key))
  }
}
