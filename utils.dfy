// Shared result types and the helpers of utils.kt.

module Utils {

  datatype Option<T> = None | Some(value: T)

  /** The JVM exceptions the engine can raise outside of syntax errors. */
  datatype Crash =
    | ExpectationError      // a failed `expect`
    | IllegalState          // `unreachable()`
    | IndexOutOfBounds      // array or buffer index out of range
    | NoSuchElement         // `removeLast` on an empty list
    | NullPointer           // `!!` on null
    | BufferOverflow        // relative put past the buffer's limit
    | IllegalArgument       // `ByteBuffer.position(p)` with p out of range
    | BufferUnderflow       // relative bulk get past the buffer's limit
    | NegativeArraySize     // `ByteArray(n)` with n < 0

  /** A step that either succeeds with no value or fails with an error. */
  datatype Outcome<E> = Pass | Fail(error: E)
  {
    predicate IsFailure() { Fail? }
    function PropagateFailure(): Outcome<E>
      requires Fail?
    {
      Fail(error)
    }
  }

  datatype Result<T, E> = Success(value: T) | Failure(error: E)
  {
    predicate IsFailure() { Failure? }
    function PropagateFailure<U>(): Result<U, E>
      requires Failure?
    {
      Failure(error)
    }
    function Extract(): T
      requires Success?
    {
      value
    }
  }

  /** `isWordCodepoint`: ASCII letters, digits and the underscore. */
  predicate IsWordCodepoint(cp: int)
  {
    ('A' as int <= cp <= 'Z' as int) || ('a' as int <= cp <= 'z' as int)
    || ('0' as int <= cp <= '9' as int) || cp == '_' as int
  }

  /** `expect`: returns normally only when the condition holds. */
  function Expect(condition: bool): (r: Outcome<Crash>)
    ensures r.Pass? <==> condition
    ensures r.Fail? ==> r.error == ExpectationError
  {
    if condition then Pass else Fail(ExpectationError)
  }

  /** `unreachable`: never returns, always throws IllegalStateException. */
  function Unreachable<T>(): (r: Result<T, Crash>)
    ensures r.Failure? && r.error == IllegalState
  {
    Failure(IllegalState)
  }
}
