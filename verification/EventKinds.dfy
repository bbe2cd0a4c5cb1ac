/** The three kinds of readiness an event can wait for on a file descriptor:
    EV_READ, EV_WRITE and EV_CLOSED, as the set of the ones present. */
module EventKinds {

  datatype Kinds = Kinds(read: bool, write: bool, closed: bool) {
    predicate Empty() {
      !read && !write && !closed
    }

    predicate Within(other: Kinds) {
      (read ==> other.read) && (write ==> other.write) && (closed ==> other.closed)
    }

    function Plus(other: Kinds): Kinds {
      Kinds(read || other.read, write || other.write, closed || other.closed)
    }

    function Minus(other: Kinds): Kinds {
      Kinds(read && !other.read, write && !other.write, closed && !other.closed)
    }
  }

  const NO_KINDS := Kinds(false, false, false)
}
