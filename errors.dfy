/**
 * Shared vocabulary of the model: machine integer ranges, byte strings, and the
 * error-chain `Error` / `Result` pair that every fallible operation returns.
 */
module Errors {

  /** An octet, `u8` in the source. */
  type byte = x: int | 0 <= x < 0x100

  /** `Vec<u8>` / `&[u8]`. */
  type Bytes = seq<byte>

  /** `u16`, the port of a test endpoint. */
  type u16 = x: int | 0 <= x <= 0xFFFF

  /** `u64`, millisecond timestamps and second counts. */
  type u64 = x: int | 0 <= x <= 0xFFFF_FFFF_FFFF_FFFF

  datatype Option<+T> = None | Some(value: T)

  datatype Result<+T, +E> = Ok(value: T) | Err(error: E)

  /**
   * The error kinds the core can produce.  `Msg` carries the free-text errors
   * built with `"...".into()`; `ParseInt` is the converted `ParseIntError` of
   * `str::parse::<u16>`; the three crypto kinds are the crate's own
   * `ErrorKind` values; `RandomSource` is a failure of the random byte source;
   * `Encode` / `Decode` are the converted serialiser errors.
   */
  datatype Error =
    | Msg(text: string)
    | ParseInt
    | InvalidPresharedKey
    | InvalidNonce
    | FailedToDecrypt
    | RandomSource
    | Encode(reason: string)
    | Decode(reason: string)
}
