/** Nullable values and the string test the overlay code uses everywhere. */
module Common {

  /** A C# reference that may be null: None stands for null. */
  datatype Option<+T> = None | Some(value: T)

  /** `string.IsNullOrEmpty` over a nullable string. */
  predicate IsNullOrEmpty(s: Option<string>)
  {
    s.None? || s.value == ""
  }
}
