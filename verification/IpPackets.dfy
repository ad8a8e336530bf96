/** The IP header as the capture code reads it (RFC 791, section 3.1), over the bytes of a packet. */
module IpPackets {
  import opened Common

  /** Bytes that start with at least the fixed part of a header. */
  type Packet = b: seq<Byte> | |b| >= 20
    witness [69, 0, 0, 20, 0, 0, 0, 0, 0, 0, 0, 0, 0, 0, 0, 0, 0, 0, 0, 0]

  function Word(b: seq<Byte>, i: nat): (w: nat)
    requires i + 1 < |b|
    ensures w < 65536
  {
    b[i] as int * 256 + b[i+1] as int
  }

  function HeaderLen(b: Packet): nat { b[0] % 16 * 4 }
  function PacketLen(b: Packet): nat { Word(b, 2) }
  function PacketId(b: Packet): nat { Word(b, 4) }
  function FragmentFlags(b: Packet): nat { Word(b, 6) / 8192 }
  function Offset(b: Packet): nat { Word(b, 6) % 8192 * 8 }
  predicate IsLastFragment(b: Packet) { FragmentFlags(b) % 2 == 0 }

  /** Signed here; the source computes it in an unsigned type, where a length below the header's
      wraps. Both differ from every fragment offset in that case. */
  function PayloadLen(b: Packet): int { PacketLen(b) - HeaderLen(b) }

  /** A packet whose buffer is exactly its total length and holds its header. */
  type Fragment = b: Packet | 20 <= HeaderLen(b) <= PacketLen(b) && PacketLen(b) == |b|
    witness [69, 0, 0, 20, 0, 0, 0, 0, 0, 0, 0, 0, 0, 0, 0, 0, 0, 0, 0, 0]

  function Payload(b: Fragment): (p: seq<Byte>)
    ensures |p| == PayloadLen(b)
  {
    b[HeaderLen(b)..]
  }

  function Header(b: Fragment): (h: Packet)
    ensures |h| == HeaderLen(b)
  {
    b[..HeaderLen(b)]
  }

  /** The length field is 16 bits wide. */
  function SetPacketLen(b: Packet, len: nat): (r: Packet)
    ensures |r| == |b| && r[..2] == b[..2] && r[4..] == b[4..]
  {
    b[2 := len % 65536 / 256][3 := len % 256]
  }

  lemma Word16(len: nat)
    ensures len % 65536 / 256 * 256 + len % 256 == len % 65536
  {
    var low := len % 65536;
    assert len % 256 == low % 256;
    assert low == low / 256 * 256 + low % 256;
  }

  lemma SetPacketLenReads(b: Packet, len: nat)
    ensures PacketLen(SetPacketLen(b, len)) == len % 65536
    ensures HeaderLen(SetPacketLen(b, len)) == HeaderLen(b)
  {
    Word16(len);
  }

  /** Setting the length again forgets the first value. */
  lemma SetPacketLenTwice(header: Packet, tail: seq<Byte>, len: nat, len': nat)
    ensures SetPacketLen(SetPacketLen(header, len) + tail, len') == SetPacketLen(header, len') + tail
  {}

  lemma TwoBytes(high: Byte, low: Byte)
    ensures (high as int * 256 + low as int) % 65536 / 256 == high as int
    ensures (high as int * 256 + low as int) % 256 == low as int
  {}

  lemma SetSamePacketLen(b: Packet)
    ensures SetPacketLen(b, PacketLen(b)) == b
  {
    TwoBytes(b[2], b[3]);
  }
}
