/** Small shared vocabulary: optional values, document ids and the
    JavaScript notion of a "truthy" optional string. */
module Common {

  datatype Option<+T> = None | Some(value: T)

  /** A MongoDB ObjectId, compared by value. */
  type ObjectId = nat

  /** A JavaScript value that is either undefined or a string is truthy
      exactly when it is a non-empty string. */
  predicate Truthy(s: Option<string>)
  {
    s.Some? && s.value != ""
  }
}
