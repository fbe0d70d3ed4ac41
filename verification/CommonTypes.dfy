/** Small types shared by several components. */
module CommonTypes {

  datatype Option<T> = None | Some(value: T)

  type uint3 = x: int | 0 <= x < 8
  type uint4 = x: int | 0 <= x < 16
  type Flag = x: int | 0 <= x < 2

  /** The size of a string array in the NAS structures. */
  const STRING_LEN: nat := 128
}
