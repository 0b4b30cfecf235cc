/** Optional values and results, used where the Java code returns null or throws. */
module Wrappers {

  /** A value that may be absent; `None` stands for Java's `null`. */
  datatype Option<+T> = None | Some(value: T)

  /** The outcome of a call that either returns a value or throws. */
  datatype Result<+T, +E> = Ok(value: T) | Err(error: E)

  /** No element of the sequence occurs twice. */
  predicate Distinct<T(==)>(s: seq<T>) {
    forall i, j :: 0 <= i < j < |s| ==> s[i] != s[j]
  }
}

/** The exceptions the library throws (its own checked exceptions and the JDK runtime ones it can raise). */
module Exceptions {

  datatype Error =
    | PlayerOffline        // PlayerOfflineException
    | PlayerPresent        // PlayerPresentException
    | PlayerNotPresent     // PlayerNotPresentException
    | RoundFull            // RoundFullException
    | ArenaExists          // ArenaExistsException
    | ArenaNotExists       // ArenaNotExistsException
    | InvalidLocation      // InvalidLocationException
    | IllegalState         // IllegalStateException
    | IllegalArgument      // IllegalArgumentException
    | NullPointer          // NullPointerException
    | Arithmetic           // ArithmeticException (integer % 0)
    | NumberFormat         // NumberFormatException from Integer.parseInt
    | IndexOutOfBounds     // ArrayIndexOutOfBoundsException / IndexOutOfBoundsException
    | ClassCast            // ClassCastException
    | StackOverflow        // StackOverflowError from unbounded recursion

  /** The argument of an `equals(Object)`: an object of the expected class, an object of another class, or null. */
  datatype Argument<T> = Instance(value: T) | Foreign | Null
}
