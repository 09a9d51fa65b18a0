// Vocabulary shared by every component of the control plane.
module Common {

  // Identifiers are version-4 UUIDs in the program: only equality and the total order matter.
  type Uuid = nat

  datatype Option<+T> = None | Some(value: T)

  datatype Result<+T> = Ok(value: T) | Err
}
