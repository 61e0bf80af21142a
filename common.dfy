/** Small value types shared by every module of the model. */
module Common {

  /** A value that may be missing: a Go pointer field that may be nil. */
  datatype Option<+T> = None | Some(value: T) {
    function GetOr(default: T): T {
      match this
      case Some(v) => v
      case None => default
    }
  }

  /** The (value, error) pair a Go function returns, with exactly one of the two present. */
  datatype Result<+T, +E> = Ok(value: T) | Err(error: E)

  /** A Go slice as JSON sees it: `nil` (serialised as null) or a made slice, possibly empty. */
  datatype Slice<+T> = Nil | Made(elems: seq<T>) {
    function Elems(): seq<T> {
      match this
      case Nil => []
      case Made(s) => s
    }

    /** Go's `append(s, x)`: appending to a nil slice makes a slice. */
    function Append(x: T): (r: Slice<T>)
      ensures r.Made? && r.Elems() == Elems() + [x]
    {
      Made(Elems() + [x])
    }
  }
}
