/** Option/Result wrappers and the error values shared by the whole model.
    The nmstate library reports failures as an `NmstateError` (a kind and a
    message); the NetworkManager D-Bus binding has its own `NmError`. */
module Common {

  datatype Option<+T> = None | Some(value: T)

  datatype Result<+T, +E> = Ok(value: T) | Err(error: E) {
    predicate IsFailure() { Err? }

    function PropagateFailure<U>(): Result<U, E>
      requires Err?
    {
      Err(error)
    }

    function Extract(): T
      requires Ok?
    {
      value
    }
  }

  /** The kinds of `NmstateError` that the modelled code raises. */
  datatype ErrorKind = InvalidArgument | VerificationError | PluginFailure | Bug

  datatype NmstateError = NmstateError(kind: ErrorKind, msg: string)

  /** Error kinds of the NetworkManager D-Bus binding. */
  datatype NmErrorKind = DbusConnectionError | CheckpointConflict | NmInvalidArgument

  datatype NmError = NmError(kind: NmErrorKind, msg: string)

  function NmErrorKindName(k: NmErrorKind): string
  {
    match k
    case DbusConnectionError => "DbusConnectionError"
    case CheckpointConflict => "CheckpointConflict"
    case NmInvalidArgument => "InvalidArgument"
  }

  /** Every NetworkManager error becomes an nmstate error of kind `Bug`
      whose message names the original kind and message
      (`NmErrorToNmstateInjective`: nothing of the original is lost). */
  function NmErrorToNmstate(e: NmError): (r: NmstateError)
    ensures r.kind == Bug
  {
    NmstateError(Bug, NmErrorKindName(e.kind) + ": " + e.msg)
  }

  /** No information is lost in the conversion: two NetworkManager errors
      that become the same nmstate error were the same error. */
  lemma {:induction false} NmErrorToNmstateInjective(e1: NmError, e2: NmError)
    requires NmErrorToNmstate(e1) == NmErrorToNmstate(e2)
    ensures e1 == e2
  {
    var m1, m2 := NmErrorToNmstate(e1).msg, NmErrorToNmstate(e2).msg;
    assert m1[0] == NmErrorKindName(e1.kind)[0] && m2[0] == NmErrorKindName(e2.kind)[0];
    var k := NmErrorKindName(e1.kind);
    assert e1.kind == e2.kind;
    assert m1 == k + ": " + e1.msg && m2 == k + ": " + e2.msg;
    assert e1.msg == m1[|k| + 2..] == m2[|k| + 2..] == e2.msg;
  }
}
