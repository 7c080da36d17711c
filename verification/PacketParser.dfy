/** The Ethernet frame parser: header fields and the first DNS question name, and nothing else. */
module PacketParser {
  import opened Common
  import opened DnsName

  const ETH_HEADER: nat := 14
  const ETH_IP4: nat := 0x0800
  const ETH_IP6: nat := 0x86DD
  const PROTO_TCP: Byte := 6
  const PROTO_UDP: Byte := 17
  const DNS_PORT: nat := 53

  datatype Transport = Tcp | Udp | Other

  /** Addresses are kept as their network-order bytes; formatting them as text is outside the model. */
  datatype Metadata = Metadata(
    valid: bool, transport: Transport, source: seq<Byte>, destination: seq<Byte>,
    sourcePort: nat, destinationPort: nat, queryName: seq<Byte>, responseCode: Option<nat>)

  const BLANK: Metadata := Metadata(false, Other, [], [], 0, 0, [], None)

  function Be16(data: seq<Byte>, i: nat): nat
    requires i + 2 <= |data|
  {
    var high: int := data[i];
    256 * high + data[i + 1]
  }

  // ---------- What a frame says ----------

  function TransportOf(proto: Byte): Transport
  {
    if proto == PROTO_TCP then Tcp else if proto == PROTO_UDP then Udp else Other
  }

  /** The network layer: no usable header, addresses of another protocol, or a TCP or UDP segment
   and where it starts. */
  datatype Network =
    | NoNetwork
    | AddressesOnly(source: seq<Byte>, destination: seq<Byte>)
    | Carries(transport: Transport, source: seq<Byte>, destination: seq<Byte>, offset: nat)

  function NetworkOf(frame: seq<Byte>): (n: Network)
    ensures n.Carries? ==> 34 <= n.offset <= |frame| && n.transport != Other
  {
    if |frame| < ETH_HEADER then NoNetwork
    else if Be16(frame, 12) == ETH_IP4 then NetworkOf4(frame)
    else if Be16(frame, 12) == ETH_IP6 then NetworkOf6(frame)
    else NoNetwork
  }

  function NetworkOf4(frame: seq<Byte>): (n: Network)
    requires |frame| >= ETH_HEADER
    ensures n.Carries? ==> 34 <= n.offset <= |frame| && n.transport != Other
  {
    if |frame| < 34 || frame[14] % 16 < 5 || |frame| < 14 + 4 * (frame[14] % 16) then NoNetwork
    else if TransportOf(frame[23]) == Other then AddressesOnly(frame[26..30], frame[30..34])
    else Carries(TransportOf(frame[23]), frame[26..30], frame[30..34], 14 + 4 * (frame[14] % 16))
  }

  function NetworkOf6(frame: seq<Byte>): (n: Network)
    requires |frame| >= ETH_HEADER
    ensures n.Carries? ==> 34 <= n.offset <= |frame| && n.transport != Other
  {
    if |frame| < 54 || TransportOf(frame[20]) == Other then NoNetwork
    else Carries(TransportOf(frame[20]), frame[22..38], frame[38..54], 54)
  }

  /** The transport layer of a segment. */
  function SegmentOf(transport: Transport, source: seq<Byte>, destination: seq<Byte>, segment: seq<Byte>): Metadata
    requires transport != Other
  {
    var addressed := BLANK.(source := source, destination := destination);
    if |segment| < (if transport == Tcp then 20 else 8) then addressed
    else
      var ported := addressed.(valid := true, transport := transport,
                               sourcePort := Be16(segment, 0), destinationPort := Be16(segment, 2));
      if transport == Udp && IsDns(segment) then
        ported.(responseCode := Some(segment[11] % 16),
                queryName := if Be16(segment, 12) >= 1 then UserName(segment[20..]) else [])
      else ported
  }

  predicate IsDns(segment: seq<Byte>)
    requires |segment| >= 8
  {
    (Be16(segment, 0) == DNS_PORT || Be16(segment, 2) == DNS_PORT) && |segment| >= 20
  }

  function FrameOf(frame: seq<Byte>): Metadata
  {
    match NetworkOf(frame)
    case NoNetwork => BLANK
    case AddressesOnly(source, destination) => BLANK.(source := source, destination := destination)
    case Carries(transport, source, destination, offset) => SegmentOf(transport, source, destination, frame[offset..])
  }

  // ---------- The parser ----------

  method ParseEthernetFrame(frame: seq<Byte>) returns (meta: Metadata)
    ensures meta == FrameOf(frame)
  {
    hide UserName;
    meta := BLANK;
    if |frame| < ETH_HEADER {
      return;
    }
    var ethType := Be16(frame, 12);
    var offset := ETH_HEADER;

    if ethType == ETH_IP4 {
      if |frame| < offset + 20 {
        return;
      }
      var ihl := frame[offset] % 16 * 4;
      if ihl < 20 || |frame| < offset + ihl {
        return;
      }
      meta := meta.(source := frame[offset + 12..offset + 16]);
      meta := meta.(destination := frame[offset + 16..offset + 20]);
      var proto := frame[offset + 9];
      if proto != PROTO_TCP && proto != PROTO_UDP {
        return;
      }
      meta := meta.(transport := if proto == PROTO_TCP then Tcp else Udp);
      offset := offset + ihl;
    } else if ethType == ETH_IP6 {
      if |frame| < offset + 40 {
        return;
      }
      var nextHeader := frame[offset + 6];
      if nextHeader != PROTO_TCP && nextHeader != PROTO_UDP {
        return;
      }
      meta := meta.(source := frame[offset + 8..offset + 24]);
      meta := meta.(destination := frame[offset + 24..offset + 40]);
      meta := meta.(transport := if nextHeader == PROTO_TCP then Tcp else Udp);
      offset := offset + 40;
    } else {
      return;
    }
    meta := ParseTransport(frame, offset, meta);
  }

  /** The transport header at the offset, and the DNS question of a port-53 datagram. */
  method ParseTransport(frame: seq<Byte>, offset: nat, network: Metadata) returns (meta: Metadata)
    requires offset <= |frame| && network.transport != Other
    requires network == BLANK.(transport := network.transport, source := network.source,
      destination := network.destination)
    ensures meta == SegmentOf(network.transport, network.source, network.destination, frame[offset..])
  {
    hide UserName;
    meta := network;
    var remaining := |frame| - offset;
    if meta.transport == Tcp {
      if remaining < 20 {
        meta := meta.(transport := Other);
        return;
      }
      meta := meta.(sourcePort := Be16(frame, offset));
      meta := meta.(destinationPort := Be16(frame, offset + 2));
    } else {
      if remaining < 8 {
        meta := meta.(transport := Other);
        return;
      }
      meta := meta.(sourcePort := Be16(frame, offset));
      meta := meta.(destinationPort := Be16(frame, offset + 2));
      var payloadOff := offset + 8;
      if meta.destinationPort == DNS_PORT || meta.sourcePort == DNS_PORT {
        var payload := frame[payloadOff..];
        if |payload| >= 12 {
          var qdcount := Be16(payload, 4);
          var rcode := payload[3] % 16;
          meta := meta.(responseCode := Some(rcode));
          if qdcount >= 1 {
            assert payload[12..] == frame[offset..][20..];
            var name := ParseQname(payload[12..]);
            meta := meta.(queryName := name);
          }
        }
      }
    }
    meta := meta.(valid := true);
  }

  // ---------- Payload independence ----------

  /** How many leading bytes of a segment can matter. */
  function SegmentExtent(transport: Transport, segment: seq<Byte>): (n: nat)
    ensures n <= |segment|
  {
    if |segment| < (if transport == Tcp then 20 else 8) then 0
    else if transport == Udp && IsDns(segment) then
      if Be16(segment, 12) >= 1 then 20 + WalkExtent(segment[20..], 0) else 14
    else 4
  }

  /** How many leading bytes of a frame can matter: its headers through the ports, or through the question name. */
  function Extent(frame: seq<Byte>): (n: nat)
    ensures n <= |frame|
  {
    match NetworkOf(frame)
    case NoNetwork => if |frame| < 54 then |frame| else 54
    case AddressesOnly(_, _) => 34
    case Carries(transport, _, _, offset) => offset + SegmentExtent(transport, frame[offset..])
  }

  lemma PrefixBytes(a: seq<Byte>, b: seq<Byte>, n: nat)
    requires n <= |a| && n <= |b| && a[..n] == b[..n]
    ensures forall i :: 0 <= i < n ==> a[i] == b[i]
  {
    forall i | 0 <= i < n ensures a[i] == b[i] { assert a[..n][i] == b[..n][i]; }
  }

  lemma SegmentIndependence(transport: Transport, source: seq<Byte>, destination: seq<Byte>, a: seq<Byte>, b: seq<Byte>)
    requires transport != Other && |a| == |b|
    requires a[..SegmentExtent(transport, a)] == b[..SegmentExtent(transport, a)]
    ensures SegmentOf(transport, source, destination, a) == SegmentOf(transport, source, destination, b)
  {
    hide UserName, WalkFrom, WalkExtent;
    var n := SegmentExtent(transport, a);
    PrefixBytes(a, b, n);
    if transport == Udp && n >= 20 {
      var x, y := a[20..], b[20..];
      var k := WalkExtent(x, 0);
      assert x[..k] == a[..n][20..] && y[..k] == b[..n][20..];
      WalkLooksNoFurther(x, y, 0);
      SameWalkSameName(x, y);
    }
  }

  lemma SameWalkSameName(x: seq<Byte>, y: seq<Byte>)
    requires WalkLabels(x) == WalkLabels(y)
    ensures UserName(x) == UserName(y)
  {
  }

  lemma NetworkIndependence(f: seq<Byte>, g: seq<Byte>)
    requires |f| == |g| && f[..Extent(f)] == g[..Extent(f)]
    ensures NetworkOf(f) == NetworkOf(g)
  {
    hide SegmentExtent;
    var n := Extent(f);
    PrefixBytes(f, g, n);
    if n >= 34 {
      assert f[26..30] == f[..n][26..30] && g[26..30] == g[..n][26..30];
      assert f[30..34] == f[..n][30..34] && g[30..34] == g[..n][30..34];
    }
    if n >= 54 {
      assert f[22..38] == f[..n][22..38] && g[22..38] == g[..n][22..38];
      assert f[38..54] == f[..n][38..54] && g[38..54] == g[..n][38..54];
    }
  }

  /**
   Payload independence: two frames of equal length that agree on the first one's extent give the same
   metadata. No byte behind the ports, or behind the first question name of a DNS datagram, has any influence.
   */
  lemma PayloadIndependence(f: seq<Byte>, g: seq<Byte>)
    requires |f| == |g| && f[..Extent(f)] == g[..Extent(f)]
    ensures FrameOf(f) == FrameOf(g)
  {
    hide NetworkOf, SegmentOf, SegmentExtent;
    NetworkIndependence(f, g);
    var net := NetworkOf(f);
    if net.Carries? {
      var a, b := f[net.offset..], g[net.offset..];
      var k := SegmentExtent(net.transport, a);
      assert a[..k] == f[..Extent(f)][net.offset..] && b[..k] == g[..Extent(f)][net.offset..];
      SegmentIndependence(net.transport, net.source, net.destination, a, b);
    }
  }

  /** What the extent comes to: the ports end it, or the terminator of the question name that was found. */
  lemma ExtentIs(frame: seq<Byte>)
    requires FrameOf(frame).valid
    ensures var net, meta := NetworkOf(frame), FrameOf(frame);
            && net.Carries? && net.offset <= 74
            && (meta.responseCode.None? ==> Extent(frame) == net.offset + 4)
            && (meta.queryName != [] ==> Extent(frame) == net.offset + 20 + |meta.queryName| + 2)
  {
    hide WalkFrom, Dotted, Encode;
    var net, meta := NetworkOf(frame), FrameOf(frame);
    if meta.queryName != [] {
      var span := frame[net.offset..][20..];
      var labels := WalkLabels(span).labels;
      DottedLength(labels);
      ExtentOfName(span, 0);
      EncodedLength(labels);
    }
  }

  // ---------- Frames built from their fields ----------

  function Two(n: nat): (r: seq<Byte>)
    requires n < 0x1_0000
    ensures |r| == 2
  {
    [n / 256, n % 256]
  }

  lemma Be16Two(n: nat, before: seq<Byte>, after: seq<Byte>)
    requires n < 0x1_0000
    ensures Be16(before + Two(n) + after, |before|) == n
  {
    var data := before + Two(n) + after;
    assert data[|before|] == n / 256 && data[|before| + 1] == n % 256;
  }

  /** What is reported when only the addresses are known. */
  function Addressed(source: seq<Byte>, destination: seq<Byte>): Metadata
  {
    Metadata(false, Other, source, destination, 0, 0, [], None)
  }

  /** An IPv4 packet (RFC 791, section 3.1) in an Ethernet frame of type 0x0800, with any options. */
  function Frame4(macs: seq<Byte>, fixed: seq<Byte>, proto: Byte, checksum: seq<Byte>,
                  source: seq<Byte>, destination: seq<Byte>, options: seq<Byte>, segment: seq<Byte>): seq<Byte>
    requires |macs| == 12 && |fixed| == 8 && |checksum| == 2 && |source| == 4 && |destination| == 4
    requires |options| <= 40 && |options| % 4 == 0
  {
    macs + [8, 0] + [64 + 5 + |options| / 4] + fixed + [proto] + checksum
    + source + destination + options + segment
  }

  /**
   The addresses and the segment of an IPv4 frame are found where they were put, whatever the options; protocol
   6 is TCP, 17 is UDP, and any other leaves the addresses alone.
   */
  lemma Frame4RoundTrip(macs: seq<Byte>, fixed: seq<Byte>, proto: Byte, checksum: seq<Byte>,
                        source: seq<Byte>, destination: seq<Byte>, options: seq<Byte>, segment: seq<Byte>)
    requires |macs| == 12 && |fixed| == 8 && |checksum| == 2 && |source| == 4 && |destination| == 4
    requires |options| <= 40 && |options| % 4 == 0
    ensures FrameOf(Frame4(macs, fixed, proto, checksum, source, destination, options, segment)) ==
            if proto == 6 then SegmentOf(Tcp, source, destination, segment)
            else if proto == 17 then SegmentOf(Udp, source, destination, segment)
            else Addressed(source, destination)
  {
    hide SegmentOf;
    var f := Frame4(macs, fixed, proto, checksum, source, destination, options, segment);
    var words := 64 + 5 + |options| / 4;
    var head := macs + [8, 0] + [words] + fixed + [proto] + checksum;
    assert f[12] == 8 && f[13] == 0;
    assert f[14] == words && f[23] == proto;
    assert |head| == 26;
    assert f == head + source + destination + options + segment;
    assert f[26..30] == source && f[30..34] == destination;
    assert 14 + 4 * (words % 16) == 34 + |options|;
    assert f[34 + |options|..] == segment;
  }

  /** An IPv6 packet (RFC 8200, section 3) without extension headers in an Ethernet frame of type 0x86DD. */
  function Frame6(macs: seq<Byte>, fixed: seq<Byte>, nextHeader: Byte, hopLimit: Byte,
                  source: seq<Byte>, destination: seq<Byte>, segment: seq<Byte>): seq<Byte>
    requires |macs| == 12 && |fixed| == 6 && |source| == 16 && |destination| == 16
  {
    macs + [0x86, 0xDD] + fixed + [nextHeader, hopLimit] + source + destination + segment
  }

  /** The same for IPv6, where another next header leaves nothing. */
  lemma Frame6RoundTrip(macs: seq<Byte>, fixed: seq<Byte>, nextHeader: Byte, hopLimit: Byte,
                        source: seq<Byte>, destination: seq<Byte>, segment: seq<Byte>)
    requires |macs| == 12 && |fixed| == 6 && |source| == 16 && |destination| == 16
    ensures FrameOf(Frame6(macs, fixed, nextHeader, hopLimit, source, destination, segment)) ==
            if nextHeader == 6 then SegmentOf(Tcp, source, destination, segment)
            else if nextHeader == 17 then SegmentOf(Udp, source, destination, segment)
            else Addressed([], [])
  {
    hide SegmentOf;
    var f := Frame6(macs, fixed, nextHeader, hopLimit, source, destination, segment);
    var head := macs + [0x86, 0xDD] + fixed + [nextHeader, hopLimit];
    assert f[12] == 0x86 && f[13] == 0xDD;
    assert |head| == 22 && f[20] == nextHeader;
    assert f == head + source + destination + segment;
    assert f[22..38] == source && f[38..54] == destination && f[54..] == segment;
  }

  /** A frame too short for its headers, or of another type, reports nothing. */
  lemma NoNetworkLayer(frame: seq<Byte>)
    requires
      || |frame| < 34
      || !((frame[12] == 8 && frame[13] == 0) || (frame[12] == 0x86 && frame[13] == 0xDD))
      || (frame[12] == 8 && (frame[14] % 16 < 5 || |frame| < 14 + 4 * (frame[14] % 16)))
      || (frame[12] == 0x86 && |frame| < 54)
    ensures FrameOf(frame) == Addressed([], [])
  {
    hide SegmentOf;
  }

  /** A segment shorter than its transport header reports the addresses only, whatever it holds. */
  lemma ShortSegment(source: seq<Byte>, destination: seq<Byte>, segment: seq<Byte>)
    ensures |segment| < 8 ==> SegmentOf(Udp, source, destination, segment) == Addressed(source, destination)
    ensures |segment| < 20 ==> SegmentOf(Tcp, source, destination, segment) == Addressed(source, destination)
  {
  }

  /** A UDP datagram (RFC 768): ports, then length and checksum, then the payload. */
  function Datagram(sourcePort: nat, destinationPort: nat, udpRest: seq<Byte>, payload: seq<Byte>): seq<Byte>
    requires sourcePort < 0x1_0000 && destinationPort < 0x1_0000 && |udpRest| == 4
  {
    Two(sourcePort) + Two(destinationPort) + udpRest + payload
  }

  lemma DatagramParts(sourcePort: nat, destinationPort: nat, udpRest: seq<Byte>, payload: seq<Byte>)
    requires sourcePort < 0x1_0000 && destinationPort < 0x1_0000 && |udpRest| == 4
    ensures
      var seg := Datagram(sourcePort, destinationPort, udpRest, payload);
      && |seg| == 8 + |payload| && seg[8..] == payload
      && Be16(seg, 0) == sourcePort && Be16(seg, 2) == destinationPort
  {
    var rest := udpRest + payload;
    var seg := Datagram(sourcePort, destinationPort, udpRest, payload);
    assert seg == [] + Two(sourcePort) + (Two(destinationPort) + rest);
    Be16Two(sourcePort, [], Two(destinationPort) + rest);
    assert seg == Two(sourcePort) + Two(destinationPort) + rest;
    Be16Two(destinationPort, Two(sourcePort), rest);
  }

  /** A datagram on other ports, or too short for a DNS header, reports its ports and nothing of its payload. */
  lemma UdpRoundTrip(sourcePort: nat, destinationPort: nat, udpRest: seq<Byte>, payload: seq<Byte>,
                     source: seq<Byte>, destination: seq<Byte>)
    requires sourcePort < 0x1_0000 && destinationPort < 0x1_0000 && |udpRest| == 4
    requires (sourcePort != 53 && destinationPort != 53) || |payload| < 12
    ensures SegmentOf(Udp, source, destination, Datagram(sourcePort, destinationPort, udpRest, payload)) ==
            Metadata(true, Udp, source, destination, sourcePort, destinationPort, [], None)
  {
    hide Datagram, UserName;
    DatagramParts(sourcePort, destinationPort, udpRest, payload);
  }

  /** A DNS message (RFC 1035, section 4.1.1): identifier, flags, four counts, and the sections. */
  function DnsMessage(id: seq<Byte>, flags: Byte, code: Byte, qdcount: nat, counts: seq<Byte>,
                      sections: seq<Byte>): seq<Byte>
    requires |id| == 2 && qdcount < 0x1_0000 && |counts| == 6
  {
    id + [flags, code] + Two(qdcount) + counts + sections
  }

  lemma MessageParts(id: seq<Byte>, flags: Byte, code: Byte, qdcount: nat, counts: seq<Byte>, sections: seq<Byte>)
    requires |id| == 2 && qdcount < 0x1_0000 && |counts| == 6
    ensures
      var m := DnsMessage(id, flags, code, qdcount, counts, sections);
      |m| == 12 + |sections| && m[3] == code && Be16(m, 4) == qdcount && m[12..] == sections
  {
    var head := id + [flags, code];
    assert DnsMessage(id, flags, code, qdcount, counts, sections) == head + Two(qdcount) + (counts + sections);
    Be16Two(qdcount, head, counts + sections);
  }

  /** A span that does not start with an acceptable encoded name. */
  ghost predicate NoName(span: seq<Byte>)
  {
    forall labels :: ValidLabels(labels) && PermittedLabels(labels) && |Dotted(labels)| <= 252 ==>
      !(Encode(labels) <= span) || labels == []
  }

  /**
   A port-53 datagram with a DNS header: the response code is always reported, and the name is empty when the
   message has no question or its first name is refused.
   */
  lemma DnsWithoutName(sourcePort: nat, destinationPort: nat, udpRest: seq<Byte>, id: seq<Byte>,
                       flags: Byte, code: Byte, qdcount: nat, counts: seq<Byte>, sections: seq<Byte>,
                       source: seq<Byte>, destination: seq<Byte>)
    requires sourcePort < 0x1_0000 && destinationPort < 0x1_0000 && qdcount < 0x1_0000
    requires sourcePort == 53 || destinationPort == 53
    requires |udpRest| == 4 && |id| == 2 && |counts| == 6
    requires qdcount == 0 || NoName(sections)
    ensures SegmentOf(Udp, source, destination,
                      Datagram(sourcePort, destinationPort, udpRest,
                               DnsMessage(id, flags, code, qdcount, counts, sections))) ==
            Metadata(true, Udp, source, destination, sourcePort, destinationPort, [], Some(code % 16))
  {
    DnsSegment(sourcePort, destinationPort, udpRest, id, flags, code, qdcount, counts, sections, source, destination);
    hide UserName, SegmentOf, ValidLabels, PermittedLabels, Dotted, Encode;
    if qdcount > 0 && UserName(sections) != [] {
      UserNameMeans(sections, UserName(sections));
      EmptyIsEmpty();
    }
  }

  lemma EmptyIsEmpty()
    ensures Dotted([]) == []
  {
  }

  lemma DnsSegment(sourcePort: nat, destinationPort: nat, udpRest: seq<Byte>, id: seq<Byte>,
                   flags: Byte, code: Byte, qdcount: nat, counts: seq<Byte>, sections: seq<Byte>,
                   source: seq<Byte>, destination: seq<Byte>)
    requires sourcePort < 0x1_0000 && destinationPort < 0x1_0000 && qdcount < 0x1_0000
    requires sourcePort == 53 || destinationPort == 53
    requires |udpRest| == 4 && |id| == 2 && |counts| == 6
    ensures SegmentOf(Udp, source, destination,
                      Datagram(sourcePort, destinationPort, udpRest,
                               DnsMessage(id, flags, code, qdcount, counts, sections))) ==
            Metadata(true, Udp, source, destination, sourcePort, destinationPort,
                     if qdcount == 0 then [] else UserName(sections), Some(code % 16))
  {
    hide Datagram, DnsMessage, UserName;
    var m := DnsMessage(id, flags, code, qdcount, counts, sections);
    var seg := Datagram(sourcePort, destinationPort, udpRest, m);
    DatagramParts(sourcePort, destinationPort, udpRest, m);
    MessageParts(id, flags, code, qdcount, counts, sections);
    assert seg[11] == seg[8..][3] && seg[12] == seg[8..][4] && seg[13] == seg[8..][5];
    assert seg[20..] == seg[8..][12..];
  }

  /** Ports, response code and question name of a port-53 datagram are reported as they were put in. */
  lemma DnsRoundTrip(sourcePort: nat, destinationPort: nat, udpRest: seq<Byte>, id: seq<Byte>, flags: Byte, code: Byte,
                     qdcount: nat, counts: seq<Byte>, labels: seq<Label>, after: seq<Byte>,
                     source: seq<Byte>, destination: seq<Byte>)
    requires sourcePort < 0x1_0000 && destinationPort < 0x1_0000 && 1 <= qdcount < 0x1_0000
    requires sourcePort == 53 || destinationPort == 53
    requires |udpRest| == 4 && |id| == 2 && |counts| == 6
    requires ValidLabels(labels) && PermittedLabels(labels) && |Dotted(labels)| <= 252
    ensures SegmentOf(Udp, source, destination,
                      Datagram(sourcePort, destinationPort, udpRest,
                               DnsMessage(id, flags, code, qdcount, counts, Encode(labels) + after))) ==
            Metadata(true, Udp, source, destination, sourcePort, destinationPort, Dotted(labels), Some(code % 16))
  {
    hide Dotted, Encode, SegmentOf, Datagram, DnsMessage, WalkLabels;
    var sections := Encode(labels) + after;
    DnsSegment(sourcePort, destinationPort, udpRest, id, flags, code, qdcount, counts, sections, source, destination);
    WalkMeans(sections, labels);
  }

  /** A TCP segment reports its ports and nothing of what follows them. */
  lemma TcpRoundTrip(sourcePort: nat, destinationPort: nat, after: seq<Byte>, source: seq<Byte>, destination: seq<Byte>)
    requires sourcePort < 0x1_0000 && destinationPort < 0x1_0000
    ensures SegmentOf(Tcp, source, destination, Two(sourcePort) + Two(destinationPort) + after) ==
            if |after| < 16 then Addressed(source, destination)
            else Metadata(true, Tcp, source, destination, sourcePort, destinationPort, [], None)
  {
    var seg := Two(sourcePort) + Two(destinationPort) + after;
    assert seg == [] + Two(sourcePort) + (Two(destinationPort) + after);
    Be16Two(sourcePort, [], Two(destinationPort) + after);
    Be16Two(destinationPort, Two(sourcePort), after);
  }
}
