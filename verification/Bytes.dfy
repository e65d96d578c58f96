/** Byte strings. */
module Bytes {
  type Byte = b: int | 0 <= b < 256

  type Text = seq<Byte>

  /** ASCII upper case of one byte. */
  function UpperByte(b: Byte): Byte {
    if 97 <= b <= 122 then b - 32 else b
  }

  function Upper(s: Text): (r: Text)
    ensures |r| == |s| && forall i :: 0 <= i < |s| ==> r[i] == UpperByte(s[i])
  {
    seq(|s|, i requires 0 <= i < |s| => UpperByte(s[i]))
  }
}
