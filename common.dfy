/** Small wrapper types shared by the modules of the model. */
module Common {

  /** A possibly absent value; `None` stands for a Java `null`. */
  datatype Option<+T> = None | Some(value: T)

  /** A value or the exception the Java code throws instead. */
  datatype Result<+T, +E> = Success(value: T) | Failure(error: E)

  /** An ASCII decimal digit, as Java's regular-expression class \d and [0-9] match it. */
  predicate IsDigit(c: char)
  {
    '0' <= c <= '9'
  }

  /** s[i..j] is all digits. */
  predicate DigitsIn(s: string, i: nat, j: nat)
    requires i <= j <= |s|
  {
    forall m | i <= m < j :: IsDigit(s[m])
  }
}
