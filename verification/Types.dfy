/** The C types that the model uses. */
module Types {

  type Bytes = seq<bv8>
  type uint8 = x: nat | x < 0x100
  type uint16 = x: nat | x < 0x1_0000

  datatype Option<T> = None | Some(value: T)
}
