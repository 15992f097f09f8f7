/** The absent/present wrapper used for nullable columns and failed lookups. */
module Optional {

  datatype Option<+T> = None | Some(value: T)

}
