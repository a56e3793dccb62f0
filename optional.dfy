/** The stand-in for JavaScript's null / undefined on a field or a lookup. */
module Optional {

  datatype Option<+T> = None | Some(value: T)

}
