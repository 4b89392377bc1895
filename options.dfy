/** A value that may be missing: an unassigned scene reference or a raycast that hit nothing. */
module Options {

  datatype Option<+T> = None | Some(value: T)
}
