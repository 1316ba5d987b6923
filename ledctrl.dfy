/** The one-shot command tool: it looks up an interface, writes the
    Ethernet header (its own address, type 0x0801) into a static 2000-byte
    packet buffer once, and sends one frame `[opcode][arg bytes…]` to each
    configured panel address in turn, filling in the destination before
    each send. */
module Ledctrl {
  import opened Base
  import opened Ethernet

  /** PACKET_SIZE: size of the static packet buffer. */
  const PACKET_SIZE: nat := 2000
  /** PACKET_ETHERTYPE. */
  const PACKET_ETHERTYPE: nat := 0x0801
  /** `panel_addrs`: the configured panels, in sending order. */
  const PANEL_ADDRS: seq<Mac> := [[0xff, 0xff, 0xff, 0xff, 0xff, 0xff]]
  /** PANEL_COUNT. */
  const PANEL_COUNT: nat := |PANEL_ADDRS|
  /** argv[0] is the program, argv[1] the interface, argv[2] the opcode;
      the data bytes start at argv[3]. */
  const FIRST_DATA_ARG: nat := 3

  /** Length of the frame `main` sends for `argc` arguments. */
  function FrameLen(argc: nat): nat
    requires argc >= FIRST_DATA_ARG
  {
    HEADER_LEN + 1 + (argc - FIRST_DATA_ARG)
  }

  /** The bytes after the header: the opcode, then each data argument,
      each kept to its low 8 bits. */
  function Payload(opcode: int, args: seq<int>): (p: seq<byte>)
    ensures |p| == 1 + |args|
    ensures p[0] as int == opcode % 256
    ensures forall i :: 0 <= i < |args| ==> p[1 + i] as int == args[i] % 256
  {
    [Truncate8(opcode)] + TruncateAll(args)
  }

  /** One frame for panel `dst`. */
  function Frame(dst: Mac, src: Mac, opcode: int, args: seq<int>): seq<byte>
  {
    Header(dst, src, PACKET_ETHERTYPE) + Payload(opcode, args)
  }

  /** Every byte of a frame at its offset: destination 0..5, source 6..11,
      0x08 0x01 at 12..13, then the payload from 14 on; 15 + |args| bytes. */
  lemma FrameLayout(dst: Mac, src: Mac, opcode: int, args: seq<int>)
    ensures var f := Frame(dst, src, opcode, args);
      && |f| == HEADER_LEN + 1 + |args|
      && f[..ETH_ALEN] == dst && f[SRC_OFFSET..TYPE_OFFSET] == src
      && f[TYPE_OFFSET] == 0x08 && f[TYPE_OFFSET + 1] == 0x01
      && f[HEADER_LEN..] == Payload(opcode, args)
  {
    var f := Frame(dst, src, opcode, args);
    assert f[..ETH_ALEN] == dst;
    assert f[SRC_OFFSET..TYPE_OFFSET] == src;
    assert f[HEADER_LEN..] == Payload(opcode, args);
  }

  /** Frames for two panels are the same length and agree on every byte
      but the destination address. */
  lemma FramesDifferOnlyInDestination(d1: Mac, d2: Mac, src: Mac, opcode: int, args: seq<int>)
    ensures |Frame(d1, src, opcode, args)| == |Frame(d2, src, opcode, args)|
    ensures Frame(d1, src, opcode, args)[ETH_ALEN..] == Frame(d2, src, opcode, args)[ETH_ALEN..]
  {
    var tail := src + NetOrder16(PACKET_ETHERTYPE) + Payload(opcode, args);
    assert Frame(d1, src, opcode, args) == d1 + tail;
    assert Frame(d2, src, opcode, args) == d2 + tail;
  }

  /** A panel reads back the tool's source address, type, and exactly the
      opcode and argument bytes. */
  lemma ParseOfFrame(dst: Mac, src: Mac, opcode: int, args: seq<int>)
    ensures Parse(Frame(dst, src, opcode, args)) == Some(Fields(dst, src, PACKET_ETHERTYPE, Payload(opcode, args)))
  {
    ParseOfHeader(dst, src, PACKET_ETHERTYPE, Payload(opcode, args));
  }

  /** What the interface lookups of `main` return: whether the raw socket
      opened, and the index, hardware address and MTU (None when the
      ioctl fails). */
  datatype Interface = Interface(socketOpened: bool, ifindex: Option<int>, hwaddr: Option<Mac>, mtu: Option<int>)

  /** `main` gets as far as sending: enough arguments and every lookup
      succeeded. */
  predicate Starts(argc: nat, iface: Interface)
  {
    && argc >= FIRST_DATA_ARG
    && iface.socketOpened
    && iface.ifindex.Some? && iface.hwaddr.Some? && iface.mtu.Some?
  }

  /** The sends of one run: panel p, in panel order, gets the frame with
      its own destination; `delivered[p]` is what that send reported. */
  function PanelLog(ifindex: int, src: Mac, opcode: int, args: seq<int>, delivered: seq<bool>): (log: seq<Transmission>)
    requires |delivered| == PANEL_COUNT
    ensures |log| == PANEL_COUNT
    ensures forall p :: 0 <= p < PANEL_COUNT ==>
              log[p].to == LinkAddr(ifindex, ETH_ALEN, PANEL_ADDRS[p]) && log[p].delivered == delivered[p]
  {
    seq(PANEL_COUNT, p requires 0 <= p < PANEL_COUNT =>
      Transmission(LinkAddr(ifindex, ETH_ALEN, PANEL_ADDRS[p]), Frame(PANEL_ADDRS[p], src, opcode, args), delivered[p]))
  }

  /** Every panel is sent a frame whatever the others' sends reported, and
      all frames of a run carry the same bytes after the destination. */
  lemma PanelLogSamePayload(ifindex: int, src: Mac, opcode: int, args: seq<int>, delivered: seq<bool>, p: nat, q: nat)
    requires |delivered| == PANEL_COUNT && p < PANEL_COUNT && q < PANEL_COUNT
    ensures var log := PanelLog(ifindex, src, opcode, args, delivered);
      && log[p].frame[..ETH_ALEN] == PANEL_ADDRS[p]
      && log[p].frame[ETH_ALEN..] == log[q].frame[ETH_ALEN..]
  {
    FramesDifferOnlyInDestination(PANEL_ADDRS[p], PANEL_ADDRS[q], src, opcode, args);
    FrameLayout(PANEL_ADDRS[p], src, opcode, args);
  }

  class Controller {
    /** `packet_buffer`. */
    const packetBuffer: array<byte>
    /** Every `sendto` issued so far, oldest first. */
    var sent: seq<Transmission>

    ghost predicate Valid()
      reads this
    {
      packetBuffer.Length == PACKET_SIZE
    }

    /** Process start: the static buffer is zeroed and nothing was sent. */
    constructor ()
      ensures Valid() && fresh(packetBuffer)
      ensures packetBuffer[..] == Zeros(PACKET_SIZE) && sent == []
    {
      packetBuffer := new byte[PACKET_SIZE](_ => 0);
      sent := [];
    }

    /** `eth_prepare_packet`: the source address into bytes 6..11 and the
        type 0x0801 in network order into 12..13; nothing else changes.
        Returns the header size, where the payload starts. */
    method EthPreparePacket(sourceHwaddr: Mac) returns (offset: nat)
      requires Valid()
      modifies packetBuffer
      ensures offset == HEADER_LEN
      ensures packetBuffer[SRC_OFFSET..HEADER_LEN] == sourceHwaddr + NetOrder16(PACKET_ETHERTYPE)
      ensures forall i :: 0 <= i < PACKET_SIZE && !(SRC_OFFSET <= i < HEADER_LEN) ==> packetBuffer[i] == old(packetBuffer[i])
    {
      packetBuffer[6], packetBuffer[7], packetBuffer[8] := sourceHwaddr[0], sourceHwaddr[1], sourceHwaddr[2];
      packetBuffer[9], packetBuffer[10], packetBuffer[11] := sourceHwaddr[3], sourceHwaddr[4], sourceHwaddr[5];
      var ethertype := NetOrder16(PACKET_ETHERTYPE);
      packetBuffer[12], packetBuffer[13] := ethertype[0], ethertype[1];
      offset := HEADER_LEN;
      ghost var h := sourceHwaddr + ethertype;
      assert forall i :: SRC_OFFSET <= i < HEADER_LEN ==> packetBuffer[i] == h[i - SRC_OFFSET];
    }

    /** `eth_send_packet`: the destination into bytes 0..5 (nothing else
        changes), then one `sendto` of the first `len` bytes to that
        address on interface `ifindex`. Returns the byte count when the
        send is reported delivered and -1 otherwise. */
    method EthSendPacket(dst: Mac, ifindex: int, len: nat, delivered: bool) returns (r: int)
      requires Valid()
      requires len <= PACKET_SIZE
      modifies packetBuffer, this`sent
      ensures packetBuffer[..ETH_ALEN] == dst
      ensures forall i :: ETH_ALEN <= i < PACKET_SIZE ==> packetBuffer[i] == old(packetBuffer[i])
      ensures sent == old(sent) + [Transmission(LinkAddr(ifindex, ETH_ALEN, dst), packetBuffer[..len], delivered)]
      ensures r == if delivered then len else -1
    {
      forall i | 0 <= i < ETH_ALEN {
        packetBuffer[i] := dst[i];
      }
      var addr := LinkAddr(ifindex, ETH_ALEN, dst);
      assert packetBuffer[..ETH_ALEN] == dst;
      sent := sent + [Transmission(addr, packetBuffer[..len], delivered)];
      r := if delivered then len else -1;
    }

    /** The payload assembly of `main` for one panel: the opcode at
        `offset`, then each argument after it. Returns the payload length. */
    method WritePayload(offset: nat, opcode: int, args: seq<int>) returns (pos: nat)
      requires Valid()
      requires offset + 1 + |args| <= PACKET_SIZE
      modifies packetBuffer
      ensures pos == 1 + |args|
      ensures packetBuffer[offset..offset + pos] == Payload(opcode, args)
      ensures forall i :: 0 <= i < PACKET_SIZE && !(offset <= i < offset + pos) ==> packetBuffer[i] == old(packetBuffer[i])
    {
      pos := 0;
      packetBuffer[offset + pos] := Truncate8(opcode);
      pos := pos + 1;
      for i := 0 to |args|
        invariant pos == 1 + i
        invariant packetBuffer[offset] == Truncate8(opcode)
        invariant forall k :: 0 <= k < i ==> packetBuffer[offset + 1 + k] == Truncate8(args[k])
        invariant forall k :: 0 <= k < PACKET_SIZE && !(offset <= k < offset + pos) ==> packetBuffer[k] == old(packetBuffer[k])
      {
        packetBuffer[offset + pos] := Truncate8(args[i]);
        pos := pos + 1;
      }
      ghost var data := TruncateAll(args);
      assert forall j :: 0 <= j < |args| ==> packetBuffer[offset + 1 + j] == data[j];
      assert packetBuffer[offset + 1..offset + pos] == data;
      assert packetBuffer[offset..offset + pos] == [packetBuffer[offset]] + packetBuffer[offset + 1..offset + pos];
    }

    /** The body of the panel loop of `main`: the payload after the
        prepared header, then one send of header and payload to `dst`.
        Bytes past the frame are left as they were. */
    method SendPanelFrame(payloadOffset: nat, dst: Mac, ifindex: int, hwaddr: Mac, opcode: int, args: seq<int>, delivered: bool)
      returns (r: int)
      requires Valid()
      requires payloadOffset == HEADER_LEN && HEADER_LEN + 1 + |args| <= PACKET_SIZE
      requires packetBuffer[SRC_OFFSET..HEADER_LEN] == hwaddr + NetOrder16(PACKET_ETHERTYPE)
      modifies packetBuffer, this`sent
      ensures packetBuffer[..HEADER_LEN + 1 + |args|] == Frame(dst, hwaddr, opcode, args)
      ensures forall k :: HEADER_LEN + 1 + |args| <= k < PACKET_SIZE ==> packetBuffer[k] == old(packetBuffer[k])
      ensures sent == old(sent) + [Transmission(LinkAddr(ifindex, ETH_ALEN, dst), Frame(dst, hwaddr, opcode, args), delivered)]
      ensures r == if delivered then HEADER_LEN + 1 + |args| else -1
    {
      ghost var before := packetBuffer[..];
      var packetPos := WritePayload(payloadOffset, opcode, args);
      var sz := payloadOffset + packetPos;
      r := EthSendPacket(dst, ifindex, sz, delivered);
      ghost var f := Frame(dst, hwaddr, opcode, args);
      assert packetBuffer[..sz] == f by {
        FrameLayout(dst, hwaddr, opcode, args);
        assert forall k :: 0 <= k < ETH_ALEN ==> packetBuffer[k] == f[k];
        assert f[SRC_OFFSET..HEADER_LEN] == hwaddr + NetOrder16(PACKET_ETHERTYPE);
        assert forall k :: SRC_OFFSET <= k < HEADER_LEN ==> packetBuffer[k] == before[k];
        assert forall k :: SRC_OFFSET <= k < HEADER_LEN ==> packetBuffer[k] == f[k];
        assert forall k :: HEADER_LEN <= k < sz ==> packetBuffer[k] == f[k];
      }
    }

    /** `main(argc, argv)`. `argv[i]` stands for `strtol(argv[i], NULL, 16)`
        for i >= 2 (the interface name argv[1] is consumed by the lookups
        that `iface` describes). With too few arguments or a failed lookup
        nothing is sent and the result is -1; otherwise each panel is sent
        its frame in panel order, failed sends do not stop the loop, and the
        result is 0. The frame must fit the buffer: the source checks
        neither that nor the MTU it reads. */
    method Run(argv: seq<int>, iface: Interface, delivered: seq<bool>) returns (code: int)
      requires Valid()
      requires |delivered| == PANEL_COUNT
      requires |argv| >= FIRST_DATA_ARG ==> FrameLen(|argv|) <= PACKET_SIZE
      modifies packetBuffer, this`sent
      ensures code == if Starts(|argv|, iface) then 0 else -1
      ensures !Starts(|argv|, iface) ==> sent == old(sent) && packetBuffer[..] == old(packetBuffer[..])
      ensures Starts(|argv|, iface) ==>
        sent == old(sent) + PanelLog(iface.ifindex.value, iface.hwaddr.value, argv[2], argv[FIRST_DATA_ARG..], delivered)
      ensures Starts(|argv|, iface) ==>
        && packetBuffer[..FrameLen(|argv|)]
           == Frame(PANEL_ADDRS[PANEL_COUNT - 1], iface.hwaddr.value, argv[2], argv[FIRST_DATA_ARG..])
        && forall k :: FrameLen(|argv|) <= k < PACKET_SIZE ==> packetBuffer[k] == old(packetBuffer[k])
    {
      code := -1;
      if |argv| < FIRST_DATA_ARG || !iface.socketOpened || iface.ifindex.None? {
        return;
      }
      var ifindex := iface.ifindex.value;
      if iface.hwaddr.None? {
        return;
      }
      var hwaddr := iface.hwaddr.value;
      if iface.mtu.None? {
        return;
      }

      var payloadOffset := EthPreparePacket(hwaddr);
      var opcode, args := argv[2], argv[FIRST_DATA_ARG..];
      ghost var n := FrameLen(|argv|);
      ghost var log := PanelLog(ifindex, hwaddr, opcode, args, delivered);
      for p := 0 to PANEL_COUNT
        invariant sent == old(sent) + log[..p]
        invariant packetBuffer[SRC_OFFSET..HEADER_LEN] == hwaddr + NetOrder16(PACKET_ETHERTYPE)
        invariant p > 0 ==> packetBuffer[..n] == Frame(PANEL_ADDRS[p - 1], hwaddr, opcode, args)
        invariant forall k :: n <= k < PACKET_SIZE ==> packetBuffer[k] == old(packetBuffer[k])
      {
        var r := SendPanelFrame(payloadOffset, PANEL_ADDRS[p], ifindex, hwaddr, opcode, args, delivered[p]);
        // a negative r is only reported
        assert log[..p + 1] == log[..p] + [log[p]];
      }
      assert log[..PANEL_COUNT] == log;
      code := 0;
    }
  }
}
