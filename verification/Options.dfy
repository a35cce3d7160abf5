/** The optional value used throughout: March's `Option`, JavaScript's `null`,
    and (as `None`) the outcome of a March `panic`. */
module Options {

  datatype Option<+T> = None | Some(value: T) {
    predicate IsFailure() {
      None?
    }

    function PropagateFailure<U>(): Option<U>
      requires None?
    {
      None
    }

    function Extract(): T
      requires Some?
    {
      value
    }
  }
}
