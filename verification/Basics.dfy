/** Vocabulary shared by the whole model. */
module Basics {

  datatype Option<+T> = None | Some(value: T)

  type byte = x: int | 0 <= x < 256

  /** File contents, socket traffic, and std::string, which is bytes as well. */
  type Bytes = seq<byte>

  /** A stored file: the user who owns it and its name in that user's directory. */
  datatype Key = Key(user: Bytes, name: Bytes)

  /** The bytes of a string literal. */
  function Ascii(s: string): (b: Bytes)
    ensures |b| == |s|
    ensures forall i :: 0 <= i < |s| && s[i] as int < 256 ==> b[i] == s[i] as int
  {
    seq(|s|, i requires 0 <= i < |s| => if s[i] as int < 256 then s[i] as int else 0)
  }

  /** Size of the buffer through which every file travels. */
  const TRANSFER_BUFFER_SIZE: nat := 8192

  function Min(a: int, b: int): int {
    if a <= b then a else b
  }
}
