/** The optional value used for collaborator answers that may be missing. */
module Wrappers {

  datatype Option<T> = None | Some(value: T) {
    predicate IsSome() {
      this.Some?
    }

    function UnwrapOr(default: T): (r: T)
      ensures this.Some? ==> r == this.value
      ensures this.None? ==> r == default
    {
      match this
      case Some(v) => v
      case None => default
    }
  }
}
