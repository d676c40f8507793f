/**
 * The short command APDU layout of ISO/IEC 7816-4 (section 5.1) as both card readers build it:
 * a four-byte header CLA INS P1 P2, then either Lc and the command data (case 3) or a single
 * Le byte (case 2).
 */
module Iso7816 {
  import opened Prelude

  datatype Header = Header(cla: byte, ins: byte, p1: byte, p2: byte)

  datatype CommandApdu =
    | WithData(header: Header, data: seq<byte>)  // case 3: Lc, then the data
    | WithLe(header: Header, le: byte)            // case 2: Le only

  /** Largest data field a short Lc byte can announce. */
  const MaxShortData: nat := 255

  function HeaderBytes(h: Header): (b: seq<byte>)
    ensures |b| == 4
  {
    [h.cla, h.ins, h.p1, h.p2]
  }

  /** The bytes of a command; Lc is the data length reduced to one byte, as a C# `(byte)` cast does. */
  function Encode(c: CommandApdu): seq<byte>
  {
    match c
    case WithData(h, data) => HeaderBytes(h) + [ToByte(|data|)] + data
    case WithLe(h, le) => HeaderBytes(h) + [le]
  }

  /**
   * Reads a command back: five bytes are a case-2 command; a longer one is a case-3 command whose
   * Lc matches the number of data bytes that follow.
   */
  function Decode(b: seq<byte>): Option<CommandApdu>
  {
    if |b| < 5 then None
    else
      var h := Header(b[0], b[1], b[2], b[3]);
      if |b| == 5 then Some(WithLe(h, b[4]))
      else if b[4] == |b| - 5 then Some(WithData(h, b[5..]))
      else None
  }

  /** A case-3 command is 5 + |data| bytes: the header, Lc = |data| mod 256, and the data unchanged. */
  lemma DataLayout(h: Header, data: seq<byte>)
    ensures var b := Encode(WithData(h, data));
      && |b| == 5 + |data|
      && b[..4] == HeaderBytes(h)
      && b[4] == |data| % 256
      && b[5..] == data
  {
    var b := Encode(WithData(h, data));
    assert b[..4] == HeaderBytes(h);
    assert b[5..] == data;
  }

  /** A case-2 command is exactly five bytes: the header and Le. */
  lemma LeLayout(h: Header, le: byte)
    ensures Encode(WithLe(h, le)) == [h.cla, h.ins, h.p1, h.p2, le]
  {
  }

  /** Every case-2 command, and every case-3 command with 1 to 255 data bytes, decodes back. */
  lemma RoundTrip(c: CommandApdu)
    requires c.WithData? ==> 1 <= |c.data| <= MaxShortData
    ensures Decode(Encode(c)) == Some(c)
  {
    match c
    case WithData(h, data) =>
      DataLayout(h, data);
    case WithLe(h, le) =>
  }

  /** Within that range, distinct commands have distinct encodings. */
  lemma EncodeInjective(c1: CommandApdu, c2: CommandApdu)
    requires c1.WithData? ==> 1 <= |c1.data| <= MaxShortData
    requires c2.WithData? ==> 1 <= |c2.data| <= MaxShortData
    requires Encode(c1) == Encode(c2)
    ensures c1 == c2
  {
    RoundTrip(c1);
    RoundTrip(c2);
  }

  /** The edges of that range: with no data, a case-3 command is the same bytes as Le = 0. */
  lemma EmptyDataIsLeZero(h: Header)
    ensures Encode(WithData(h, [])) == Encode(WithLe(h, 0))
  {
  }

  /** With 256 data bytes the Lc byte wraps to 0, and the command no longer decodes. */
  lemma LcWraps(h: Header, data: seq<byte>)
    requires |data| == 256
    ensures Encode(WithData(h, data))[4] == 0
    ensures Decode(Encode(WithData(h, data))) == None
  {
    DataLayout(h, data);
  }
}
