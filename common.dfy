/** Small shared datatypes used by every phase of the front end. */
module Common {

  /** A value that may be missing: the model of JavaScript's `null`/`undefined`. */
  datatype Option<T> = None | Some(value: T)

  /** True when every character of `s` is a lowercase ASCII letter. */
  predicate IsLowercaseWord(s: string)
  {
    forall i :: 0 <= i < |s| ==> 'a' <= s[i] <= 'z'
  }
}
