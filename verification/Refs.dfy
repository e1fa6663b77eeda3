/** The names that every part of the system uses for resources and links, and a result type for
    the operations that can fail. */
module Refs {

  datatype Result<+T, +E> = Ok(value: T) | Err(error: E)

  datatype Option<+T> = None | Some(value: T)

  datatype ResourceRef = ResourceRef(toolId: string, groupUrl: string, url: string)

  datatype LinkKey = LinkKey(fromRes: ResourceRef, toRes: ResourceRef)
  {
    predicate Touches(r: ResourceRef) { fromRes == r || toRes == r }
  }
}
