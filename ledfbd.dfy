/** The framebuffer-reading daemon: a global 9000-byte send buffer into
    which each frame is laid out (destination DE:AD:BE:EF:C0:DE, the
    interface's own address, type ETH_P_IP, then opcode, section and pixel
    bytes), the RGB/BGR channel swap, and one pass of the refresh loop,
    which gamma-corrects the 32x32x3 pixel snapshot and sends it as four
    768-byte sections. */
module Ledfbd {
  import opened Base
  import opened Ethernet

  /** BUF_SIZ: size of the global send buffer. */
  const BUF_SIZ: nat := 9000
  /** MY_DEST_MAC0..5. */
  const DEST_MAC: Mac := [0xDE, 0xAD, 0xBE, 0xEF, 0xC0, 0xDE]
  /** ETH_P_IP, the type field the daemon puts on its frames. */
  const ETH_P_IP: nat := 0x0800
  /** Bytes in front of the pixel bytes: the header, opcode and section. */
  const PREFIX_LEN: nat := HEADER_LEN + 2
  /** The store-frame opcode `main` sends. */
  const PP_OP_STORE_FRAME: nat := 0x29
  /** A 32x32 picture at 3 bytes per pixel. */
  const PIXEL_COUNT: nat := 32 * 32
  const PIXEL_BYTES: nat := 32 * 32 * 3
  /** Each frame carries 8 rows of 32 pixels. */
  const SECTION_COUNT: nat := 4
  const SECTION_LEN: nat := 8 * 32 * 3

  // ---------------------------------------------------------------------------
  //  Frame layout
  // ---------------------------------------------------------------------------

  /** The bytes `eth_send` transmits: `tx_len` bytes of `sendbuf`. */
  function Frame(src: Mac, opcode: nat, section: nat, payload: seq<byte>): seq<byte>
  {
    Header(DEST_MAC, src, ETH_P_IP) + [Truncate8(opcode), Truncate8(section)] + payload
  }

  /** Every byte of a frame at its offset: the destination in 0..5, the
      source in 6..11, 0x08 0x00 in 12..13, the narrowed opcode and section
      in 14 and 15, the payload from 16 on; the length is 16 + size. */
  lemma FrameLayout(src: Mac, opcode: nat, section: nat, payload: seq<byte>)
    ensures var f := Frame(src, opcode, section, payload);
      && |f| == PREFIX_LEN + |payload|
      && f[..6] == DEST_MAC && f[6..12] == src
      && f[12] == 0x08 && f[13] == 0x00
      && f[14] as int == opcode % 256 && f[15] as int == section % 256
      && f[PREFIX_LEN..] == payload
  {
    var f := Frame(src, opcode, section, payload);
    assert f[..6] == DEST_MAC;
    assert f[6..12] == src;
    assert f[PREFIX_LEN..] == payload;
  }

  /** What a panel reads out of a daemon frame. */
  datatype Packet = Packet(dst: Mac, src: Mac, ethertype: nat, opcode: byte, section: byte, data: seq<byte>)

  function ParsePacket(frame: seq<byte>): (r: Option<Packet>)
    ensures r.Some? <==> |frame| >= PREFIX_LEN
  {
    match Parse(frame)
    case None => None
    case Some(f) =>
      if |f.payload| < 2 then None
      else Some(Packet(f.dst, f.src, f.ethertype, f.payload[0], f.payload[1], f.payload[2..]))
  }

  /** A receiver recovers the narrowed opcode and section and the exact
      pixel bytes from every frame `eth_send` builds. */
  lemma ParseOfFrame(src: Mac, opcode: nat, section: nat, payload: seq<byte>)
    ensures ParsePacket(Frame(src, opcode, section, payload))
         == Some(Packet(DEST_MAC, src, ETH_P_IP, Truncate8(opcode), Truncate8(section), payload))
  {
    var body := [Truncate8(opcode), Truncate8(section)] + payload;
    assert Frame(src, opcode, section, payload) == Header(DEST_MAC, src, ETH_P_IP) + body;
    ParseOfHeader(DEST_MAC, src, ETH_P_IP, body);
    assert body[2..] == payload;
  }

  /** Conversely, a frame whose destination and type are the daemon's is
      the frame of its own opcode, section and data. */
  lemma FrameOfParse(frame: seq<byte>)
    requires ParsePacket(frame).Some?
    requires ParsePacket(frame).value.dst == DEST_MAC && ParsePacket(frame).value.ethertype == ETH_P_IP
    ensures var p := ParsePacket(frame).value;
      Frame(p.src, p.opcode as nat, p.section as nat, p.data) == frame
  {
    var p := ParsePacket(frame).value;
    var f := Parse(frame).value;
    HeaderOfParse(frame);
    assert f.payload == [p.opcode, p.section] + p.data;
  }

  // ---------------------------------------------------------------------------
  //  Channel swap
  // ---------------------------------------------------------------------------

  /** The pixel bytes with the first and third byte of every 3-byte pixel
      exchanged (RGB to BGR and back). */
  function Flipped(s: seq<byte>): (r: seq<byte>)
    requires |s| % 3 == 0
    ensures |r| == |s|
    decreases |s|
  {
    if s == [] then [] else [s[2], s[1], s[0]] + Flipped(s[3..])
  }

  /** Pixel `k` of the swapped bytes holds pixel `k` of the input in the
      opposite channel order. */
  lemma {:induction false} FlippedAt(s: seq<byte>, k: nat)
    requires |s| % 3 == 0 && k < |s| / 3
    ensures Flipped(s)[3 * k] == s[3 * k + 2]
    ensures Flipped(s)[3 * k + 1] == s[3 * k + 1]
    ensures Flipped(s)[3 * k + 2] == s[3 * k]
  {
    if k > 0 {
      FlippedAt(s[3..], k - 1);
    }
  }

  lemma {:induction false} FlippedAppend(a: seq<byte>, b: seq<byte>)
    requires |a| % 3 == 0 && |b| % 3 == 0
    ensures Flipped(a + b) == Flipped(a) + Flipped(b)
    decreases |a|
  {
    if a != [] {
      assert (a + b)[3..] == a[3..] + b;
      FlippedAppend(a[3..], b);
    } else {
      assert a + b == b;
    }
  }

  /** Swapping twice gives back the original bytes. */
  lemma {:induction false} FlippedTwice(s: seq<byte>)
    requires |s| % 3 == 0
    ensures Flipped(Flipped(s)) == s
    decreases |s|
  {
    if s != [] {
      var t := [s[2], s[1], s[0]];
      FlippedAppend(t, Flipped(s[3..]));
      assert Flipped(t) == s[..3];
      FlippedTwice(s[3..]);
    }
  }

  /** `flip_rgb`: writes the channel-swapped 3072 bytes of `src` into the
      first 3072 bytes of `dst` and nothing past them. */
  /** The swapped prefix grows by one reversed pixel at a time. */
  lemma FlippedStep(s: seq<byte>, i: nat)
    requires 3 * i + 3 <= |s|
    ensures Flipped(s[..3 * i + 3]) == Flipped(s[..3 * i]) + [s[3 * i + 2], s[3 * i + 1], s[3 * i]]
  {
    assert s[..3 * i + 3] == s[..3 * i] + s[3 * i..3 * i + 3];
    FlippedAppend(s[..3 * i], s[3 * i..3 * i + 3]);
  }

  /** `flip_rgb`: writes the channel-swapped 3072 bytes of `src` into the
      first 3072 bytes of `dst` and nothing past them. */
  method FlipRgb(dst: array<byte>, src: array<byte>)
    requires dst != src
    requires dst.Length >= PIXEL_BYTES && src.Length >= PIXEL_BYTES
    modifies dst
    ensures dst[..PIXEL_BYTES] == Flipped(src[..PIXEL_BYTES])
    ensures dst[PIXEL_BYTES..] == old(dst[PIXEL_BYTES..])
  {
    for i := 0 to PIXEL_COUNT
      invariant dst[..3 * i] == Flipped(src[..3 * i])
      invariant forall k :: 3 * i <= k < dst.Length ==> dst[k] == old(dst[k])
    {
      ghost var done := dst[..3 * i];
      dst[i * 3] := src[i * 3 + 2];
      dst[i * 3 + 1] := src[i * 3 + 1];
      dst[i * 3 + 2] := src[i * 3];
      FlippedStep(src[..], i);
      assert src[..3 * i + 3][..3 * i] == src[..3 * i];
      assert dst[..3 * i + 3] == done + [dst[3 * i], dst[3 * i + 1], dst[3 * i + 2]];
    }
    assert dst[PIXEL_BYTES..] == old(dst[PIXEL_BYTES..]);
  }

  // ---------------------------------------------------------------------------
  //  Sections of the picture
  // ---------------------------------------------------------------------------

  /** Section `k` of the picture: 768 bytes from offset k * 768. */
  function Section(pixels: seq<byte>, k: nat): (r: seq<byte>)
    requires |pixels| == PIXEL_BYTES && k < SECTION_COUNT
    ensures |r| == SECTION_LEN
    ensures forall j :: 0 <= j < SECTION_LEN ==> r[j] == pixels[k * SECTION_LEN + j]
  {
    pixels[k * SECTION_LEN..(k + 1) * SECTION_LEN]
  }

  /** The four sections, in order, are the whole picture: every byte is
      sent exactly once, with no gap and no overlap. */
  lemma SectionsTile(pixels: seq<byte>)
    requires |pixels| == PIXEL_BYTES
    ensures Section(pixels, 0) + Section(pixels, 1) + Section(pixels, 2) + Section(pixels, 3) == pixels
  {
    assert pixels == pixels[..SECTION_LEN] + pixels[SECTION_LEN..2 * SECTION_LEN]
                   + pixels[2 * SECTION_LEN..3 * SECTION_LEN] + pixels[3 * SECTION_LEN..];
  }

  /** Byte `j` of the picture travels in section j / 768 at offset
      j % 768, and in no other section. */
  lemma SectionOfByte(pixels: seq<byte>, j: nat)
    requires |pixels| == PIXEL_BYTES && j < PIXEL_BYTES
    ensures j / SECTION_LEN < SECTION_COUNT
    ensures Section(pixels, j / SECTION_LEN)[j % SECTION_LEN] == pixels[j]
    ensures forall k :: 0 <= k < SECTION_COUNT && k != j / SECTION_LEN ==>
              !(k * SECTION_LEN <= j < (k + 1) * SECTION_LEN)
  {
  }

  /** The gamma-corrected copy `main` makes of the snapshot, byte for byte. */
  function Corrected(gamma: byte -> byte, pixels: seq<byte>): (r: seq<byte>)
    ensures |r| == |pixels|
    ensures forall i :: 0 <= i < |pixels| ==> r[i] == gamma(pixels[i])
  {
    seq(|pixels|, i requires 0 <= i < |pixels| => gamma(pixels[i]))
  }

  /** The per-byte loop of `main`: every one of the 3072 bytes of `pixels2`
      is the corrected byte at the same index of the snapshot. */
  method CorrectPixels(pixels: array<byte>, pixels2: array<byte>, gamma: byte -> byte)
    requires pixels.Length == PIXEL_BYTES && pixels2.Length == PIXEL_BYTES && pixels2 != pixels
    modifies pixels2
    ensures pixels2[..] == Corrected(gamma, pixels[..])
  {
    for i := 0 to PIXEL_BYTES
      invariant forall k :: 0 <= k < i ==> pixels2[k] == gamma(pixels[k])
    {
      pixels2[i] := gamma(pixels[i]);
    }
    assert pixels2[..] == Corrected(gamma, pixels[..]);
  }

  // ---------------------------------------------------------------------------
  //  The daemon's global state
  // ---------------------------------------------------------------------------

  class Daemon {
    /** `sendbuf`. */
    const sendbuf: array<byte>
    /** The interface's hardware address, `if_mac.ifr_hwaddr.sa_data[0..5]`. */
    const ifMac: Mac
    /** The interface index, `if_idx.ifr_ifindex`. */
    const ifIndex: int
    /** `socket_address`, rewritten before every send. */
    var socketAddress: LinkAddr
    /** Every `sendto` issued so far, oldest first. */
    var sent: seq<Transmission>

    ghost predicate Valid()
      reads this
    {
      sendbuf.Length == BUF_SIZ
    }

    /** The process's state once the interface has been looked up: the
        static buffer and socket address start zeroed. A failed lookup
        leaves the zeroed request in place, which is just another value of
        `mac` and `index`. */
    constructor (mac: Mac, index: int)
      ensures Valid() && fresh(sendbuf)
      ensures sendbuf[..] == Zeros(BUF_SIZ)
      ensures ifMac == mac && ifIndex == index
      ensures socketAddress == LinkAddr(0, 0, Zeros(ETH_ALEN)) && sent == []
    {
      sendbuf := new byte[BUF_SIZ](_ => 0);
      ifMac, ifIndex := mac, index;
      socketAddress := LinkAddr(0, 0, Zeros(ETH_ALEN));
      sent := [];
    }

    /** The header stores of `eth_send`: the source address, the fixed
        destination, then the type field through `htons`. */
    method WriteHeader()
      requires Valid()
      modifies sendbuf
      ensures sendbuf[..HEADER_LEN] == Header(DEST_MAC, ifMac, ETH_P_IP)
      ensures forall i :: HEADER_LEN <= i < BUF_SIZ ==> sendbuf[i] == old(sendbuf[i])
    {
      forall i | 0 <= i < ETH_ALEN {
        sendbuf[SRC_OFFSET + i] := ifMac[i];
      }
      forall i | 0 <= i < ETH_ALEN {
        sendbuf[i] := DEST_MAC[i];
      }
      var ethertype := NetOrder16(ETH_P_IP);
      sendbuf[TYPE_OFFSET], sendbuf[TYPE_OFFSET + 1] := ethertype[0], ethertype[1];
      ghost var h := Header(DEST_MAC, ifMac, ETH_P_IP);
      assert forall i :: 0 <= i < ETH_ALEN ==> sendbuf[i] == h[i];
      assert forall i :: SRC_OFFSET <= i < TYPE_OFFSET ==> sendbuf[i] == h[i];
      assert forall i :: 0 <= i < HEADER_LEN ==> sendbuf[i] == h[i];
    }

    /** `eth_send(&payload[from], size, opcode, section)`. The buffer ends up
        holding the frame followed only by zeros; the socket address names
        the fixed destination; one transmission of exactly the frame is
        logged. `delivered` is what `sendto` reported; a failure is only
        printed. The copy is unchecked in the source, so the frame must fit. */
    method EthSend(payload: array<byte>, from: nat, size: nat, opcode: nat, section: nat, delivered: bool)
      requires Valid()
      requires payload != sendbuf
      requires from + size <= payload.Length
      requires PREFIX_LEN + size <= BUF_SIZ
      modifies sendbuf, this`socketAddress, this`sent
      ensures Valid()
      ensures sendbuf[..] == Frame(ifMac, opcode, section, payload[from..from + size])
                             + Zeros(BUF_SIZ - PREFIX_LEN - size)
      ensures socketAddress == LinkAddr(ifIndex, ETH_ALEN, DEST_MAC)
      ensures sent == old(sent) + [Transmission(socketAddress, Frame(ifMac, opcode, section, payload[from..from + size]), delivered)]
    {
      var txLen := 0;
      forall i | 0 <= i < BUF_SIZ {
        sendbuf[i] := 0;
      }
      WriteHeader();
      txLen := txLen + HEADER_LEN;

      sendbuf[txLen] := Truncate8(opcode);
      txLen := txLen + 1;
      sendbuf[txLen] := Truncate8(section);
      txLen := txLen + 1;
      if size != 0 {
        forall i | 0 <= i < size {
          sendbuf[txLen + i] := payload[from + i];
        }
        txLen := txLen + size;
      }

      socketAddress := LinkAddr(ifIndex, ETH_ALEN, DEST_MAC);

      ghost var data := payload[from..from + size];
      ghost var expected := Header(DEST_MAC, ifMac, ETH_P_IP) + [Truncate8(opcode), Truncate8(section)] + data
                            + Zeros(BUF_SIZ - PREFIX_LEN - size);
      assert forall i :: 0 <= i < BUF_SIZ ==> sendbuf[i] == expected[i];
      assert sendbuf[..] == expected;
      assert sendbuf[..txLen] == expected[..txLen];
      sent := sent + [Transmission(socketAddress, sendbuf[..txLen], delivered)];
    }

    /** One pass of the refresh loop in `main`: correct every byte of the
        snapshot into `pixels2`, then send its four sections in order, as
        sections 0..3 with the store-frame opcode, whatever each send
        reports. Afterwards the buffer holds the last section's frame. */
    method Cycle(pixels: array<byte>, pixels2: array<byte>, gamma: byte -> byte, delivered: seq<bool>)
      requires Valid()
      requires pixels.Length == PIXEL_BYTES && pixels2.Length == PIXEL_BYTES
      requires pixels2 != pixels && pixels2 != sendbuf && pixels != sendbuf
      requires |delivered| == SECTION_COUNT
      modifies pixels2, sendbuf, this`socketAddress, this`sent
      ensures Valid()
      ensures pixels2[..] == Corrected(gamma, pixels[..])
      ensures sent == old(sent) + CycleLog(ifIndex, ifMac, pixels2[..], delivered)
      ensures sendbuf[..] == Frame(ifMac, PP_OP_STORE_FRAME, 3, Section(pixels2[..], 3))
                             + Zeros(BUF_SIZ - PREFIX_LEN - SECTION_LEN)
      ensures socketAddress == LinkAddr(ifIndex, ETH_ALEN, DEST_MAC)
    {
      CorrectPixels(pixels, pixels2, gamma);
      ghost var picture := pixels2[..];

      ghost var log0 := sent;
      EthSend(pixels2, 0 * SECTION_LEN, SECTION_LEN, PP_OP_STORE_FRAME, 0, delivered[0]);
      EthSend(pixels2, 1 * SECTION_LEN, SECTION_LEN, PP_OP_STORE_FRAME, 1, delivered[1]);
      EthSend(pixels2, 2 * SECTION_LEN, SECTION_LEN, PP_OP_STORE_FRAME, 2, delivered[2]);
      EthSend(pixels2, 3 * SECTION_LEN, SECTION_LEN, PP_OP_STORE_FRAME, 3, delivered[3]);
      assert pixels2[..] == picture;
      ghost var expected := CycleLog(ifIndex, ifMac, picture, delivered);
      assert sent[..|log0|] == log0;
      assert forall k :: 0 <= k < SECTION_COUNT ==> sent[|log0| + k] == expected[k];
      assert sent == log0 + expected;
      assert sent == old(sent) + CycleLog(ifIndex, ifMac, picture, delivered);
    }
  }

  /** The four transmissions of one refresh pass, section by section. */
  function CycleLog(ifindex: int, src: Mac, pixels: seq<byte>, delivered: seq<bool>): (log: seq<Transmission>)
    requires |pixels| == PIXEL_BYTES && |delivered| == SECTION_COUNT
    ensures |log| == SECTION_COUNT
    ensures forall k :: 0 <= k < SECTION_COUNT ==>
              log[k].to == LinkAddr(ifindex, ETH_ALEN, DEST_MAC) && log[k].delivered == delivered[k]
  {
    seq(SECTION_COUNT, k requires 0 <= k < SECTION_COUNT =>
      Transmission(LinkAddr(ifindex, ETH_ALEN, DEST_MAC), Frame(src, PP_OP_STORE_FRAME, k, Section(pixels, k)), delivered[k]))
  }

  /** A panel that receives the four frames of a pass and concatenates
      their data in section order holds the whole corrected picture, even
      when some sends were reported as failed. */
  lemma CycleLogCarriesPicture(ifindex: int, src: Mac, pixels: seq<byte>, delivered: seq<bool>)
    requires |pixels| == PIXEL_BYTES && |delivered| == SECTION_COUNT
    ensures var log := CycleLog(ifindex, src, pixels, delivered);
      forall k :: 0 <= k < SECTION_COUNT ==>
        ParsePacket(log[k].frame) == Some(Packet(DEST_MAC, src, ETH_P_IP, PP_OP_STORE_FRAME as byte, k as byte, Section(pixels, k)))
    ensures Section(pixels, 0) + Section(pixels, 1) + Section(pixels, 2) + Section(pixels, 3) == pixels
  {
    forall k | 0 <= k < SECTION_COUNT
      ensures ParsePacket(Frame(src, PP_OP_STORE_FRAME, k, Section(pixels, k)))
           == Some(Packet(DEST_MAC, src, ETH_P_IP, PP_OP_STORE_FRAME as byte, k as byte, Section(pixels, k)))
    {
      ParseOfFrame(src, PP_OP_STORE_FRAME, k, Section(pixels, k));
    }
    SectionsTile(pixels);
  }
}
