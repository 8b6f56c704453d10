/** `CharInputEvent`: a typed character, and its diagnostic string, which
    renders the code point in UTF-8 with the bit layout of section 3 of
    RFC 3629 (surrogate code points are encoded, not rejected). */
module CharInputEvent {
  import opened Common
  import opened InputEvent

  /** Constructs the event for code point `unicode` sent by `sender`. */
  function New(sender: WindowId, unicode: UInt32): (e: Event)
    ensures e.payload.CharInputPayload? && e.payload.unicode == unicode
    ensures e.GetType() == CharInput && e.Sender() == sender && !e.WasHandled()
  {
    NewEvent(sender, CharInputPayload(unicode))
  }

  /** The overridden `GetType()` of the class. */
  function GetType(): EventType {
    CharInput
  }

  /** `GetName()`. */
  function GetName(): string {
    "CharInputEvent"
  }

  /** The overridden `GetType()` agrees with the static `Type` of every
      constructed event of the class. */
  lemma GetTypeIsStaticType(sender: WindowId, unicode: UInt32)
    ensures New(sender, unicode).GetType() == GetType() == CharInput
  {
  }

  /** A UTF-8 continuation byte, `10xxxxxx`. */
  predicate IsContinuation(b: Byte) {
    b & 0xC0 == 0x80
  }

  /** The code point `u` written as bytes: 1 byte up to 0x7F, 2 up to 0x7FF,
      3 up to 0xFFFF and 4 up to 0x10FFFF; anything larger becomes `?`. */
  function Utf8Bytes(u: UInt32): (b: seq<Byte>)
    ensures 1 <= |b| <= 4
    ensures u <= 0x7F ==> b == [u as Byte]
    ensures 0x7F < u <= 0x7FF ==>
      |b| == 2 && IsLead2(b[0]) && IsContinuation(b[1])
    ensures 0x7FF < u <= 0xFFFF ==>
      |b| == 3 && IsLead3(b[0]) && IsContinuation(b[1]) && IsContinuation(b[2])
    ensures 0xFFFF < u <= 0x10FFFF ==>
      |b| == 4 && IsLead4(b[0]) && IsContinuation(b[1]) && IsContinuation(b[2]) && IsContinuation(b[3])
    ensures u > 0x10FFFF ==> b == ['?' as Byte]
  {
    if u <= 0x7F then
      [u as Byte]
    else if u <= 0x7FF then
      [Lead2(u), Cont(u, 0)]
    else if u <= 0xFFFF then
      [Lead3(u), Cont(u, 6), Cont(u, 0)]
    else if u <= 0x10FFFF then
      [Lead4(u), Cont(u, 12), Cont(u, 6), Cont(u, 0)]
    else
      ['?' as Byte]
  }

  /** The bytes of the two-, three- and four-byte layouts, named by position. */
  function Lead2(u: UInt32): Byte { (0xC0 | ((u >> 6) & 0x1F)) as Byte }
  function Lead3(u: UInt32): Byte { (0xE0 | ((u >> 12) & 0x0F)) as Byte }
  function Lead4(u: UInt32): Byte { (0xF0 | ((u >> 18) & 0x07)) as Byte }
  function Cont(u: UInt32, shift: bv32): Byte
    requires shift <= 18
  {
    (0x80 | ((u >> shift) & 0x3F)) as Byte
  }

  /** The lead-byte patterns `110xxxxx`, `1110xxxx` and `11110xxx`. */
  predicate IsLead2(b: Byte) { b & 0xE0 == 0xC0 }
  predicate IsLead3(b: Byte) { b & 0xF0 == 0xE0 }
  predicate IsLead4(b: Byte) { b & 0xF8 == 0xF0 }

  /** The payload bits of a sequence, concatenated. */
  function Value2(b0: Byte, b1: Byte): UInt32 {
    ((b0 & 0x1F) << 6) | (b1 & 0x3F)
  }
  function Value3(b0: Byte, b1: Byte, b2: Byte): UInt32 {
    ((b0 & 0x0F) << 12) | ((b1 & 0x3F) << 6) | (b2 & 0x3F)
  }
  function Value4(b0: Byte, b1: Byte, b2: Byte, b3: Byte): UInt32 {
    ((b0 & 0x07) << 18) | ((b1 & 0x3F) << 12) | ((b2 & 0x3F) << 6) | (b3 & 0x3F)
  }

  /** Reference decoder for one UTF-8 sequence, reading the bit layout of
      section 3 of RFC 3629: the lead byte fixes the length, the other bytes
      must be continuation bytes, and over-long forms and values above
      0x10FFFF are refused. Surrogates are decoded like any other value. */
  function Utf8Decode(b: seq<Byte>): Option<UInt32> {
    if |b| == 1 && b[0] & 0x80 == 0 then
      Some(b[0])
    else if |b| == 2 && IsLead2(b[0]) && IsContinuation(b[1]) && Value2(b[0], b[1]) >= 0x80 then
      Some(Value2(b[0], b[1]))
    else if |b| == 3 && IsLead3(b[0]) && IsContinuation(b[1]) && IsContinuation(b[2])
            && Value3(b[0], b[1], b[2]) >= 0x800 then
      Some(Value3(b[0], b[1], b[2]))
    else if |b| == 4 && IsLead4(b[0]) && IsContinuation(b[1]) && IsContinuation(b[2]) && IsContinuation(b[3])
            && 0x10000 <= Value4(b[0], b[1], b[2], b[3]) <= 0x10FFFF then
      Some(Value4(b[0], b[1], b[2], b[3]))
    else
      None
  }

  /** Each layout carries its code point's bits and nothing else. */
  lemma TwoByteBits(u: UInt32)
    requires 0x7F < u <= 0x7FF
    ensures IsLead2(Lead2(u)) && IsContinuation(Cont(u, 0))
    ensures Value2(Lead2(u), Cont(u, 0)) == u
  {
  }

  lemma ThreeByteBits(u: UInt32)
    requires 0x7FF < u <= 0xFFFF
    ensures IsLead3(Lead3(u)) && IsContinuation(Cont(u, 6)) && IsContinuation(Cont(u, 0))
    ensures Value3(Lead3(u), Cont(u, 6), Cont(u, 0)) == u
  {
  }

  lemma FourByteBits(u: UInt32)
    requires 0xFFFF < u <= 0x10FFFF
    ensures IsLead4(Lead4(u)) && IsContinuation(Cont(u, 12)) && IsContinuation(Cont(u, 6)) && IsContinuation(Cont(u, 0))
    ensures Value4(Lead4(u), Cont(u, 12), Cont(u, 6), Cont(u, 0)) == u
  {
  }

  /** Decoding the rendering of any code point up to 0x10FFFF gives the
      code point back. */
  lemma Utf8RoundTrip(u: UInt32)
    requires u <= 0x10FFFF
    ensures Utf8Decode(Utf8Bytes(u)) == Some(u)
  {
    if u <= 0x7F {
    } else if u <= 0x7FF {
      TwoByteBits(u);
    } else if u <= 0xFFFF {
      ThreeByteBits(u);
    } else {
      FourByteBits(u);
    }
  }

  /** Re-encoding the payload bits of a well-formed sequence reproduces its bytes. */
  lemma TwoByteCanonical(b0: Byte, b1: Byte)
    requires IsLead2(b0) && IsContinuation(b1)
    ensures Value2(b0, b1) <= 0x7FF
    ensures Lead2(Value2(b0, b1)) == b0 && Cont(Value2(b0, b1), 0) == b1
  {
  }

  lemma ThreeByteCanonical(b0: Byte, b1: Byte, b2: Byte)
    requires IsLead3(b0) && IsContinuation(b1) && IsContinuation(b2)
    ensures Value3(b0, b1, b2) <= 0xFFFF
    ensures var u := Value3(b0, b1, b2); Lead3(u) == b0 && Cont(u, 6) == b1 && Cont(u, 0) == b2
  {
  }

  lemma FourByteCanonical(b0: Byte, b1: Byte, b2: Byte, b3: Byte)
    requires IsLead4(b0) && IsContinuation(b1) && IsContinuation(b2) && IsContinuation(b3)
    ensures var u := Value4(b0, b1, b2, b3); Lead4(u) == b0 && Cont(u, 12) == b1 && Cont(u, 6) == b2 && Cont(u, 0) == b3
  {
  }

  /** The rendering is the only byte sequence that decodes to its code point:
      whatever the reference decoder accepts, re-encoding reproduces. */
  lemma Utf8Canonical(b: seq<Byte>, u: UInt32)
    requires Utf8Decode(b) == Some(u)
    ensures Utf8Bytes(u) == b
  {
    if |b| == 1 {
    } else if |b| == 2 {
      TwoByteCanonical(b[0], b[1]);
    } else if |b| == 3 {
      ThreeByteCanonical(b[0], b[1], b[2]);
    } else {
      FourByteCanonical(b[0], b[1], b[2], b[3]);
    }
  }

  /** A code point reserved for UTF-16 surrogates, which section 3 of
      RFC 3629 forbids encoding. */
  predicate IsSurrogate(u: UInt32) {
    0xD800 <= u <= 0xDFFF
  }

  /** Surrogates are rendered as three-byte sequences, like their
      neighbours, although RFC 3629 does not allow them. */
  lemma SurrogatesAreEncoded(u: UInt32)
    requires IsSurrogate(u)
    ensures |Utf8Bytes(u)| == 3 && Utf8Bytes(u)[0] == 0xED
    ensures Utf8Decode(Utf8Bytes(u)) == Some(u)
  {
    Utf8RoundTrip(u);
  }

  /** A code point above 0x10FFFF is not recoverable from its rendering. */
  lemma OutOfRangeIsLost(u: UInt32)
    requires u > 0x10FFFF
    ensures Utf8Decode(Utf8Bytes(u)) == Some('?' as UInt32) != Some(u)
  {
  }

  /** The byte as an `eastl::string` character. */
  function ByteChar(b: Byte): (c: char)
    ensures c as int < 0x100
  {
    b as char
  }

  /** The bytes as a string. */
  function ByteString(bs: seq<Byte>): (s: string)
    ensures |s| == |bs|
    ensures forall i :: 0 <= i < |bs| ==> s[i] == ByteChar(bs[i]) && s[i] as int < 0x100
  {
    seq(|bs|, i requires 0 <= i < |bs| => ByteChar(bs[i]))
  }

  /** Distinct bytes give distinct characters. */
  lemma ByteCharInjective(a: Byte, b: Byte)
    requires ByteChar(a) == ByteChar(b)
    ensures a == b
  {
    assert ByteChar(a) as bv32 == a && ByteChar(b) as bv32 == b;
  }

  /** Distinct byte sequences give distinct strings. */
  lemma ByteStringInjective(as_: seq<Byte>, bs: seq<Byte>)
    requires ByteString(as_) == ByteString(bs)
    ensures as_ == bs
  {
    forall i | 0 <= i < |bs| ensures as_[i] == bs[i] {
      ByteCharInjective(as_[i], bs[i]);
    }
  }

  const Prefix: string := "Char Typed: "

  /** `ToString()`: the prefix followed by the UTF-8 rendering. */
  function ToString(e: Event): (s: string)
    requires e.payload.CharInputPayload?
    ensures 1 <= |s| - |Prefix| <= 4
    ensures s[..|Prefix|] == Prefix
    ensures forall i :: 0 <= i < |s| ==> s[i] as int < 256
  {
    Prefix + ByteString(Utf8Bytes(e.payload.unicode))
  }

  /** The typed code point can be read back from the diagnostic string
      whenever it is at most 0x10FFFF: the bytes behind the text after the
      prefix decode to it. */
  lemma ToStringRoundTrip(sender: WindowId, u: UInt32, bs: seq<Byte>)
    requires u <= 0x10FFFF
    requires ByteString(bs) == ToString(New(sender, u))[|Prefix|..]
    ensures Utf8Decode(bs) == Some(u)
  {
    assert ToString(New(sender, u))[|Prefix|..] == ByteString(Utf8Bytes(u));
    ByteStringInjective(bs, Utf8Bytes(u));
    Utf8RoundTrip(u);
  }

  /** Three renderings worked out: 'A' (one byte), the kanji U+5BB6 (three
      bytes) and the out-of-range value 0x110000 (the '?' fallback). */
  lemma ToStringExamples(sender: WindowId)
    ensures ToString(New(sender, 0x41)) == "Char Typed: A"
    ensures Utf8Bytes(0x5BB6) == [0xE5, 0xAE, 0xB6]
    ensures ToString(New(sender, 0x110000)) == "Char Typed: ?"
  {
    assert ByteString(Utf8Bytes(0x41)) == "A";
    assert ByteString(Utf8Bytes(0x110000)) == "?";
  }
}
