/** Small wrappers shared by the backend and frontend modules. */
module Common {

  /** A value that may be absent: a missing JSON field, `null` or `undefined`. */
  datatype Option<+T> = None | Some(value: T)

  /** The outcome of a schema validation: the stored document or the failing field. */
  datatype Result<+T> = Ok(value: T) | Err(field: string)

  /** JavaScript truthiness of an optional string: present and not the empty string. */
  predicate TruthyString(o: Option<string>) {
    o.Some? && o.value != ""
  }

  /** JavaScript truthiness of an optional number: present and not zero (NaN is not modelled). */
  predicate TruthyNumber(o: Option<real>) {
    o.Some? && o.value != 0.0
  }
}
