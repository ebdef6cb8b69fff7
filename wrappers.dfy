/** Small failure-carrying datatypes shared by the whole model. */
module Wrappers {

  /** Python's `None` or a value. */
  datatype Option<+T> = None | Some(value: T)

  /** The result of Python code that may raise: either it returns a value or
      an exception propagates out of it (the text is the exception's message). */
  datatype Result<+T> = Ok(value: T) | Raised(exception: string)

  /** A prefix one element longer: cutting it back gives the shorter one. */
  lemma PrefixStep<T>(s: seq<T>, i: nat)
    requires i < |s|
    ensures s[..i + 1][..i] == s[..i] && s[..i + 1] == s[..i] + [s[i]]
  {
  }

  /** The prefix of full length is the sequence. */
  lemma PrefixAll<T>(s: seq<T>)
    ensures s[..|s|] == s
  {
  }
}
