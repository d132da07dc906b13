/** Values shared by every part of the model: Go's uint64, the errors the
    backend can return, and the (value, error) pair as a Result. */
module Common {

  /** The largest value of Go's uint64. */
  const MaxUint64: nat := 0xFFFF_FFFF_FFFF_FFFF

  /** Go's uint64: the unbounded integers restricted to its range. */
  type uint64 = x: int | 0 <= x <= MaxUint64

  /** The errors the backend returns. */
  datatype Error =
    /** An error reported by exec.LookPath or invoke.Command, passed on unchanged. */
    | HostError(description: string)
    /** errors.New("Memory size not contained in output of /usr/sbin/prtconf") */
    | NoMemorySize
    /** errors.New("Cannot find memory capacity for non-global zone") */
    | NoCapacityField
    /** strconv.ParseUint's *NumError wrapping ErrSyntax, with the rejected input. */
    | SyntaxError(input: string)
    /** strconv.ParseUint's *NumError wrapping ErrRange, with the rejected input. */
    | RangeError(input: string)
    /** common.ErrNotImplementedError */
    | NotImplemented

  /** Go's (value, error) return pair: a value when err == nil, otherwise the error. */
  datatype Result<T> = Ok(value: T) | Err(error: Error)
}
