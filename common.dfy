/** The vocabulary shared by every behaviour of the engine: the closed set of
    statuses, what an update hook may hand back, and the small wrappers used for
    optional values and for the errors a call can raise. */
module Common {

  /** The four outcomes a behaviour can have. INVALID means never ticked or
      explicitly invalidated. */
  datatype Status = Invalid | Running | Success | Failure

  /** What a behaviour's `update` hook returns: one of the four statuses, or
      any other value, which the tick protocol treats as an anomaly. */
  datatype Reply = InSet(status: Status) | OutOfSet

  /** What a behaviour's `setup` hook returns: a boolean, or a value of some
      other type. */
  datatype SetupReply = IsBool(ok: bool) | NotBool

  /** The exceptions raised by the decorator layer; both are Python TypeErrors. */
  datatype TypeError = ChildNotABehaviour | SetupReturnedNonBool

  datatype Option<T> = None | Some(value: T)

  datatype Result<T, E> = Ok(value: T) | Err(error: E)

  /** The tick protocol's treatment of an update reply: a reply outside the
      four statuses is replaced by INVALID. */
  function Coerce(r: Reply): Status
  {
    match r
    case InSet(s) => s
    case OutOfSet => Invalid
  }
}
