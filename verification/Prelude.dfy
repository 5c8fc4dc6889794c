/** Types shared by every module. */
module Prelude {
  datatype Option<+T> = None | Some(value: T)

  datatype Result<+T> = Ok(value: T) | Err

  /** SHA-256 of some content, taken as injective. */
  datatype Hash = Sha256(content: string)
}
