/** The optional value Swift writes as `T?`: `TableSection(rawValue:)`,
    a dictionary lookup and optional chaining all produce one. */
module Wrappers {

  datatype Option<+T> = None | Some(value: T)
}
