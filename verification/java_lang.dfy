/**
 * The few pieces of Java semantics the rest of the model depends on:
 * nullable references, the exception kinds that the modelled code catches
 * or lets through, the outcome of a call that may throw, and 32-bit `int`.
 */
module JavaLang {

  /** A Java reference that may be `null`. */
  datatype Option<+T> = None | Some(value: T)

  /** The exception kinds the modelled code distinguishes. */
  datatype Exception =
    | RemoteException         // android.os.RemoteException (a dead or failing binder peer)
    | NullPointerException
    | IOException
    | NumberFormatException
    | NameNotFoundException   // PackageManager.NameNotFoundException
    | OtherThrowable          // any other Throwable; no modelled code catches it by name

  /** The outcome of a call: it returned a value or it threw. */
  datatype Outcome<+T> = Returned(value: T) | Threw(error: Exception)

  /** The range of Java `int`. */
  predicate FitsInt32(x: int) {
    -0x8000_0000 <= x < 0x8000_0000
  }

  /** Java `int`. */
  newtype Int32 = x: int | FitsInt32(x)

  const Two32: int := 0x1_0000_0000

  /** Two's-complement wrap-around of a mathematical integer into Java `int`. */
  function Wrap32(x: int): (r: Int32)
    ensures (r as int - x) % Two32 == 0
    ensures FitsInt32(x) ==> r as int == x
  {
    var m := x % Two32;
    if m < 0x8000_0000 then m as Int32 else (m - Two32) as Int32
  }
}
