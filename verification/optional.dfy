/** A value that may be missing: an absent object property, an absent
    DOM attribute, or a storage key that was never written. */
module Optional {

  datatype Option<T> = None | Some(value: T)
}
