/** Small types shared by the components. */
module Common {
  import opened CInt

  type Bytes = seq<u8>

  datatype Option<T> = None | Some(value: T)

  function Min(a: nat, b: nat): nat {
    if a <= b then a else b
  }
}
