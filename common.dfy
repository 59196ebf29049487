/** Small shared definitions: an optional value and the numeric types of pixel data. */
module Common {

  /** A JavaScript value that may be `null`/`undefined`. */
  datatype Option<+T> = None | Some(value: T)

  /** One element of a `Uint8ClampedArray` (pixel channel). */
  newtype byte = x: int | 0 <= x < 256

  /** A strictly positive size, such as the dimensions of a decoded image. */
  type Pos = r: real | r > 0.0 witness 1.0

  /** A strictly positive pixel count. */
  type PosNat = n: nat | n > 0 witness 1
}
