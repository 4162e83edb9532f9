/** Result types shared by the whole model. */
module Wrappers {

  datatype Option<+T> = None | Some(value: T)

  /**
   * How a routine of the client ends: with a value, by returning its
   * error code (-1 in the C source), or by calling die(), which ends the
   * whole program and is modelled as a fatal result.
   */
  datatype Outcome<+T> = Ok(value: T) | Error | Fatal(reason: string)

  /** A failure handed on unchanged by a routine with another result type. */
  function Propagate<T, U>(r: Outcome<T>): (f: Outcome<U>)
    requires !r.Ok?
    ensures f.Error? <==> r.Error?
    ensures f.Fatal? ==> f.reason == r.reason
  {
    if r.Error? then Error else Fatal(r.reason)
  }
}
