/** The nullable-value wrapper used throughout the model: a C# reference that
    may be `null` is an `Option`. */
module Wrappers {

  datatype Option<+T> = None | Some(value: T)

  /** A C# `string`, which may be `null`. */
  type NullableString = Option<string>

  /** `string.IsNullOrEmpty`. */
  predicate IsNullOrEmpty(s: NullableString)
  {
    s.None? || s.value == ""
  }
}
