/** PHP throwables, as far as the instantiator inspects and builds them. */
module Throwables {
  import opened Wrappers

  /** PHP 7 splits `\Throwable` into `\Exception` (and its subclasses, such as
      `\RuntimeException`) and `\Error` (such as `\TypeError`). */
  datatype ThrowableClass = ExceptionClass(name: string) | ErrorClass(name: string)

  /** A thrown object: its class, message, code and the previous throwable it chains to. */
  datatype Throwable = Throwable(kind: ThrowableClass, message: string, code: int, previous: Option<Throwable>)

  const RuntimeException: ThrowableClass := ExceptionClass("RuntimeException")

  /** Whether `catch (\Exception $e)` catches `t`. */
  predicate IsException(t: Throwable) {
    t.kind.ExceptionClass?
  }
}
