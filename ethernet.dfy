/** The Ethernet II MAC frame layout of IEEE 802.3 clause 3.1.1 as both
    senders use it: a 6-byte destination address, a 6-byte source address
    and a 2-byte type field in network byte order, then the payload.
    Also the link-layer socket address `sendto` is given, and the log of
    frames handed to the network. */
module Ethernet {
  import opened Base

  /** ETH_ALEN: octets in a hardware address. */
  const ETH_ALEN: nat := 6
  /** sizeof(struct ether_header). */
  const HEADER_LEN: nat := 14
  /** Byte offsets of the header fields. */
  const SRC_OFFSET: nat := 6
  const TYPE_OFFSET: nat := 12

  type Mac = s: seq<byte> | |s| == ETH_ALEN witness [0, 0, 0, 0, 0, 0]

  /** `htons`: a 16-bit value as two bytes, most significant first. */
  function NetOrder16(v: nat): (r: seq<byte>)
    requires v < 0x1_0000
    ensures |r| == 2
  {
    [(v / 256) as byte, (v % 256) as byte]
  }

  /** `ntohs` on two received bytes. */
  function HostOrder16(hi: byte, lo: byte): (v: nat)
    ensures v < 0x1_0000
  {
    hi as nat * 256 + lo as nat
  }

  lemma HostOrderOfNetOrder(v: nat)
    requires v < 0x1_0000
    ensures HostOrder16(NetOrder16(v)[0], NetOrder16(v)[1]) == v
  {
  }

  /** The 14 header bytes that precede every payload. */
  function Header(dst: Mac, src: Mac, ethertype: nat): (h: seq<byte>)
    requires ethertype < 0x1_0000
    ensures |h| == HEADER_LEN
  {
    dst + src + NetOrder16(ethertype)
  }

  /** What a receiver reads back out of a frame. */
  datatype Fields = Fields(dst: Mac, src: Mac, ethertype: nat, payload: seq<byte>)

  /** Splits a received frame into its header fields and payload; a frame
      shorter than a header has none. */
  function Parse(frame: seq<byte>): (r: Option<Fields>)
    ensures r.Some? <==> |frame| >= HEADER_LEN
    ensures r.Some? ==> |r.value.payload| == |frame| - HEADER_LEN && r.value.ethertype < 0x1_0000
  {
    if |frame| < HEADER_LEN then None
    else Some(Fields(frame[..SRC_OFFSET], frame[SRC_OFFSET..TYPE_OFFSET],
                     HostOrder16(frame[TYPE_OFFSET], frame[TYPE_OFFSET + 1]), frame[HEADER_LEN..]))
  }

  /** Parsing a frame built from a header and a payload gives back exactly
      the addresses, the type and the payload. */
  lemma ParseOfHeader(dst: Mac, src: Mac, ethertype: nat, payload: seq<byte>)
    requires ethertype < 0x1_0000
    ensures Parse(Header(dst, src, ethertype) + payload) == Some(Fields(dst, src, ethertype, payload))
  {
    var f := Header(dst, src, ethertype) + payload;
    assert f[..SRC_OFFSET] == dst;
    assert f[SRC_OFFSET..TYPE_OFFSET] == src;
    assert f[TYPE_OFFSET] == NetOrder16(ethertype)[0] && f[TYPE_OFFSET + 1] == NetOrder16(ethertype)[1];
    HostOrderOfNetOrder(ethertype);
    assert f[HEADER_LEN..] == payload;
  }

  /** Conversely, every frame long enough to parse is the header of its
      parsed fields followed by its parsed payload. */
  lemma HeaderOfParse(frame: seq<byte>)
    requires Parse(frame).Some?
    ensures var p := Parse(frame).value; Header(p.dst, p.src, p.ethertype) + p.payload == frame
  {
    var p := Parse(frame).value;
    var hi, lo := frame[TYPE_OFFSET], frame[TYPE_OFFSET + 1];
    assert NetOrder16(HostOrder16(hi, lo)) == [hi, lo];
    assert frame == frame[..SRC_OFFSET] + frame[SRC_OFFSET..TYPE_OFFSET] + [hi, lo] + frame[HEADER_LEN..];
  }

  /** `struct sockaddr_ll` as the senders fill it: interface index, address
      length and destination hardware address. */
  datatype LinkAddr = LinkAddr(ifindex: int, halen: int, addr: seq<byte>)

  /** One `sendto` call: where it went, the bytes it carried, and whether
      the kernel reported success (it is not something this model decides). */
  datatype Transmission = Transmission(to: LinkAddr, frame: seq<byte>, delivered: bool)
}
