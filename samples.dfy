/** Machine types shared by the audio and camera models. */
module Samples {

  /** A signed 16-bit PCM sample (`int16_t`). */
  newtype int16 = x: int | -0x8000 <= x < 0x8000

  /** An unsigned byte (`uint8_t`). */
  newtype uint8 = x: int | 0 <= x < 0x100

  datatype Option<+T> = None | Some(value: T)

  /** Concatenation of a sequence of sequences, front to back. */
  function Concat<T>(xss: seq<seq<T>>): (r: seq<T>)
    decreases |xss|
  {
    if xss == [] then [] else Concat(xss[..|xss| - 1]) + xss[|xss| - 1]
  }

  lemma {:induction false} ConcatAppend<T>(xss: seq<seq<T>>, yss: seq<seq<T>>)
    ensures Concat(xss + yss) == Concat(xss) + Concat(yss)
    decreases |yss|
  {
    if yss == [] {
      assert xss + yss == xss;
    } else {
      var last := yss[|yss| - 1];
      assert (xss + yss)[..|xss + yss| - 1] == xss + yss[..|yss| - 1];
      ConcatAppend(xss, yss[..|yss| - 1]);
    }
  }
}
