/** Small shared vocabulary: optional values and the fixed-width integer
    types the platform layer passes around. */
module Common {

  /** An optional value, used for C null pointers and for "not found". */
  datatype Option<+T> = None | Some(value: T)

  /** A signed 32-bit integer (`i32` / C `int`). */
  type Int32 = x: int | -0x8000_0000 <= x < 0x8000_0000

  /** A `u32` held as an integer, where the program converts it to and from
      a signed `int`. */
  type Word32 = x: int | 0 <= x < 0x1_0000_0000

  /** A `u32` passed where a C `int` is expected: the two's-complement
      reinterpretation, congruent modulo 2^32 and negative exactly when the
      top bit is set. */
  function SignedOf(w: Word32): (r: Int32)
    ensures (r - w) % 0x1_0000_0000 == 0
    ensures r >= 0 <==> w < 0x8000_0000
  {
    if w < 0x8000_0000 then w else w - 0x1_0000_0000
  }

  /** The text a `const char*` taken from `s` (`c_str()`) denotes: `s` up to
      its first NUL, or all of `s` when it holds none. */
  function CString(s: string): (r: string)
    ensures r <= s && '\0' !in r
    ensures |r| < |s| ==> s[|r|] == '\0'
    ensures '\0' !in s ==> r == s
  {
    if |s| == 0 || s[0] == '\0' then [] else [s[0]] + CString(s[1..])
  }

  /** `CString(s)` is the longest prefix of `s` without a NUL. */
  lemma CStringIsLongestPrefix(s: string, p: string)
    requires p <= s && '\0' !in p
    ensures p <= CString(s)
  {
  }

  /** An unsigned 32-bit integer (`u32`, bit-flag words). */
  type UInt32 = bv32

  /** A byte of an `eastl::string`, kept in a 32-bit word so that byte and
      code-point arithmetic share one bit width. */
  type Byte = b: bv32 | b < 0x100
}
