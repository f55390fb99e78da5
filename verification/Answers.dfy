/** The answer of shared work: set once, read by any number of waiters. */
module Answers {
  import opened Optional

  datatype Reading<+T> = NotSet | Value(value: T) | Raised(error: string)

  class Answer<T> {
    var event: bool
    var stored: Option<T>
    var error: Option<string>

    ghost predicate Valid()
      reads this
    {
      && (event <==> stored.Some? || error.Some?)
      && !(stored.Some? && error.Some?)
    }

    /** What a waiter reads. */
    function Reads(): (r: Reading<T>)
      reads this
    {
      if error.Some? then Raised(error.value) else if stored.Some? then Value(stored.value) else NotSet
    }

    constructor ()
      ensures Valid() && !event && Reads() == NotSet
    {
      event, stored, error := false, None, None;
    }

    predicate Done()
      reads this
    {
      event
    }

    /** Sets the value; false is the error of an answer that is set already, which stays as it is. */
    method Set(value: T) returns (ok: bool)
      requires Valid()
      modifies this
      ensures Valid() && Done()
      ensures ok <==> !old(Done())
      ensures Reads() == if ok then Value(value) else old(Reads())
    {
      if Done() {
        return false;
      }
      stored := Some(value);
      event := true;
      ok := true;
    }

    method SetException(failure: string) returns (ok: bool)
      requires Valid()
      modifies this
      ensures Valid() && Done()
      ensures ok <==> !old(Done())
      ensures Reads() == if ok then Raised(failure) else old(Reads())
    {
      if Done() {
        return false;
      }
      error := Some(failure);
      event := true;
      ok := true;
    }

    /** The value, or the error raised again; nothing before either is set. */
    method Result() returns (r: Reading<T>)
      requires Valid()
      ensures r == Reads()
      ensures r == NotSet <==> !Done()
    {
      if !Done() {
        return NotSet;
      }
      if error.Some? {
        return Raised(error.value);
      }
      r := Value(stored.value);
    }
  }
}
