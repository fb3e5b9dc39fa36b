/** Values and tests of PHP that the session handlers depend on. */
module Php {

  /** A value that may be absent: PHP's NULL or FALSE where a string or an integer is expected. */
  datatype Option<+T> = None | Some(value: T)

  /** The outcome of a call into a backend that may throw (a PDOException or a cache exception). */
  datatype Reply<+T> = Ok(value: T) | Thrown

  /** PHP's `empty()` on a string: true for "" and for "0". */
  predicate EmptyString(s: string)
    ensures s == "" || s == "0" ==> EmptyString(s)
    ensures 1 < |s| ==> !EmptyString(s)
    ensures |s| == 1 && s[0] != '0' ==> !EmptyString(s)
  {
    s == "" || s == "0"
  }

  /** PHP's `empty()` on a string that may be NULL. */
  predicate EmptyValue(v: Option<string>)
    ensures v.None? ==> EmptyValue(v)
    ensures v.Some? ==> (EmptyValue(v) <==> EmptyString(v.value))
  {
    v.None? || EmptyString(v.value)
  }
}
