/**
 The one builder behind every DHCP message the client emits, with its fault-injection flavors.
 A flavor first decides the effective bytes of each field (`Effective`); the builder then writes
 them into a zeroed buffer. The two checksums are parameters: nothing here depends on their values.
 */
module DhcpMessage {
  import opened Wrappers
  import opened DhcpOptions

  type uint16 = x: int | 0 <= x < 0x1_0000
  /** Four bytes in network order: an address or a transaction id. */
  type Quad = q: Bytes | |q| == 4 witness [0, 0, 0, 0]
  type Mac = m: Bytes | |m| == 6 witness [0, 0, 0, 0, 0, 0]
  type Pair = p: Bytes | |p| == 2 witness [0, 0]

  /** The number four bytes in network order stand for. */
  function Number(a: int, b: int, c: int, d: int): int {
    ((a * 256 + b) * 256 + c) * 256 + d
  }

  const ZERO: Quad := [0, 0, 0, 0]
  const LIMITED_BROADCAST: Quad := [0xFF, 0xFF, 0xFF, 0xFF]
  const PARAMETERS: Quad := [1, 3, 6, 15]
  const MAGIC: Quad := [0x63, 0x82, 0x53, 0x63]

  const DISCOVER: uint8 := 1
  const REQUEST: uint8 := 3
  const DECLINE: uint8 := 4

  datatype Phase = Discover | Selecting | Renewing | Rebinding | Decline

  datatype EmitSpec = EmitSpec(
    phase: Phase, msgType: uint8, xid: Quad, l3Src: Quad, l3Dst: Quad, ciaddr: Quad, requested: Quad, serverId: Quad)

  // ---------- The five messages ----------

  function DiscoverSpec(xid: Quad): EmitSpec {
    EmitSpec(Discover, DISCOVER, xid, ZERO, LIMITED_BROADCAST, ZERO, ZERO, ZERO)
  }

  function SelectingSpec(xid: Quad, requested: Quad, serverId: Quad): EmitSpec {
    EmitSpec(Selecting, REQUEST, xid, ZERO, LIMITED_BROADCAST, ZERO, requested, serverId)
  }

  function RenewingSpec(xid: Quad, client: Quad, serverId: Quad): EmitSpec {
    EmitSpec(Renewing, REQUEST, xid, client, serverId, client, ZERO, ZERO)
  }

  function RebindingSpec(xid: Quad, client: Quad): EmitSpec {
    EmitSpec(Rebinding, REQUEST, xid, client, LIMITED_BROADCAST, client, ZERO, ZERO)
  }

  function DeclineSpec(xid: Quad, declined: Quad, serverId: Quad): EmitSpec {
    EmitSpec(Decline, DECLINE, xid, ZERO, LIMITED_BROADCAST, ZERO, declined, serverId)
  }

  // ---------- Flavors ----------

  datatype Flavor =
    | None_
    | DiscoverMagicCookieCorrupt | DiscoverOmitMessageType | DiscoverReservedFlagsSet | DiscoverDstUnicast
    | DiscoverSrcNonzero | DiscoverDropEnd | DiscoverCiaddrNonzero | DiscoverChaddrMismatch
    | RequestSrcNonzero | RequestDstUnicast | RequestCiaddrNonzero | RequestServerIdCorrupt | RequestRequestedIpCorrupt
    | RequestSecsMismatch | RequestXidMismatch | RequestParamListMismatch | RequestOmitMessageType
    | ReacqRequestIncludeServerId | ReacqRequestIncludeRequestedIp | ReacqRequestCiaddrWrong
    | RenewingRequestDstWrong | RebindingDstUnicast | DeclineRequestedIpWrong

  /** An address in the documentation range 192.0.2.0/24. */
  function Sentinel(last: uint8): Quad {
    [192, 0, 2, last]
  }

  function Weight(bits: nat): nat {
    if bits == 0 then 1 else 2 * Weight(bits - 1)
  }

  /** The exclusive or of the lowest bits, from the lowest up. */
  function XorBits(a: nat, b: nat, bits: nat): (r: nat)
    ensures r < Weight(bits)
    decreases bits
  {
    if bits == 0 then 0 else (a + b) % 2 + 2 * XorBits(a / 2, b / 2, bits - 1)
  }

  function Xor(b: uint8, mask: uint8): uint8 {
    assert Weight(8) == 256;
    XorBits(b, mask, 8)
  }

  function XorQuad(q: Quad, mask: uint8): Quad {
    [Xor(q[0], mask), Xor(q[1], mask), Xor(q[2], mask), Xor(q[3], mask)]
  }

  /** The effective bytes of every field that a flavor can touch. */
  datatype Wire = Wire(
    msgType: uint8, xid: Quad, l3Src: Quad, l3Dst: Quad, ciaddr: Quad, requested: Quad, serverId: Quad,
    secs: Pair, flags: Pair, chaddr: Mac, cookie: Quad, typed: bool, parameters: Quad, closed: bool)

  function Conformant(spec: EmitSpec, chaddr: Mac): Wire {
    Wire(spec.msgType, spec.xid, spec.l3Src, spec.l3Dst, spec.ciaddr, spec.requested, spec.serverId,
         [0, 0], [0, 0], chaddr, MAGIC, true, PARAMETERS, true)
  }

  /** The flavor switch at the head of the builder. Every case tests the phase for itself. */
  function Effective(spec: EmitSpec, f: Flavor, chaddr: Mac): Wire {
    var w := Conformant(spec, chaddr);
    var p := spec.phase;
    match f
    case None_ => w
    case DiscoverMagicCookieCorrupt => if p.Discover? then w.(cookie := [0x00, 0x82, 0x53, 0x63]) else w
    case DiscoverOmitMessageType => if p.Discover? then w.(typed := false) else w
    case DiscoverReservedFlagsSet => if p.Discover? then w.(flags := [0, 2]) else w
    case DiscoverDstUnicast => if p.Discover? then w.(l3Dst := Sentinel(1)) else w
    case DiscoverSrcNonzero => if p.Discover? then w.(l3Src := Sentinel(2)) else w
    case DiscoverDropEnd => if p.Discover? then w.(closed := false) else w
    case RequestSrcNonzero => if p.Selecting? then w.(l3Src := Sentinel(2)) else w
    case RequestDstUnicast => if p.Selecting? then w.(l3Dst := Sentinel(1)) else w
    case RequestCiaddrNonzero => if p.Selecting? then w.(ciaddr := spec.requested) else w
    case RequestServerIdCorrupt => if p.Selecting? then w.(serverId := Sentinel(54)) else w
    case RequestRequestedIpCorrupt => if p.Selecting? then w.(requested := Sentinel(50)) else w
    case ReacqRequestIncludeServerId => if p.Renewing? || p.Rebinding? then w.(serverId := Sentinel(54)) else w
    case ReacqRequestIncludeRequestedIp => if p.Renewing? || p.Rebinding? then w.(requested := Sentinel(50)) else w
    case ReacqRequestCiaddrWrong => if p.Renewing? || p.Rebinding? then w.(ciaddr := Sentinel(11)) else w
    case RenewingRequestDstWrong => if p.Renewing? then w.(l3Dst := Sentinel(9)) else w
    case RebindingDstUnicast => if p.Rebinding? then w.(l3Dst := Sentinel(12)) else w
    case DeclineRequestedIpWrong => if p.Decline? then w.(requested := Sentinel(50)) else w
    case RequestSecsMismatch => if p.Selecting? then w.(secs := [0x42, 0x42]) else w
    case RequestXidMismatch => if p.Selecting? then w.(xid := XorQuad(spec.xid, 0xA5)) else w
    case RequestParamListMismatch => if p.Selecting? then w.(parameters := [0xFE, 3, 6, 15]) else w
    case DiscoverCiaddrNonzero => if p.Discover? then w.(ciaddr := Sentinel(11)) else w
    case DiscoverChaddrMismatch => if p.Discover? then w.(chaddr := [Xor(chaddr[0], 0xFF)] + chaddr[1..]) else w
    case RequestOmitMessageType => if p.Selecting? then w.(typed := false) else w
  }

  // ---------- The layout ----------

  function Be16(v: uint16): Pair {
    [v / 0x100, v % 0x100]
  }

  function Zeros(n: nat): (z: Bytes)
    ensures |z| == n && forall i | 0 <= i < n :: z[i] == 0
  {
    seq(n, _ => 0)
  }

  const ETH_LEN: nat := 14
  const IP_LEN: nat := 20
  const UDP_LEN: nat := 8
  const IP_AT: nat := 14
  const UDP_AT: nat := 34
  const BOOTP_AT: nat := 42
  const OPTIONS_AT: nat := 282
  const BUFFER_LEN: nat := 342

  function Ethernet(mac: Mac): (b: Bytes)
    ensures |b| == ETH_LEN
  {
    [0xFF, 0xFF, 0xFF, 0xFF, 0xFF, 0xFF] + mac + [0x08, 0x00]
  }

  function IpHeader(w: Wire, len: uint16, sum: uint16): (b: Bytes)
    ensures |b| == IP_LEN
  {
    [0x45, 0x00] + Be16(len) + [0, 0, 0, 0, 64, 0x11] + Be16(sum) + w.l3Src + w.l3Dst
  }

  function UdpHeader(len: uint16, sum: uint16): (b: Bytes)
    ensures |b| == UDP_LEN
  {
    [0, 68, 0, 67] + Be16(len) + Be16(sum)
  }

  function Bootp(w: Wire): (b: Bytes)
    ensures |b| == BOOTP_FIXED
  {
    [1, 1, 6, 0] + w.xid + w.secs + w.flags + w.ciaddr + Zeros(12) + w.chaddr + Zeros(202) + w.cookie
  }

  function Option4(code: uint8, q: Quad): Bytes {
    [code, 4] + q
  }

  function TypePart(w: Wire): (b: Bytes)
    ensures |b| == 3
  {
    if w.typed then [OPT_MESSAGE_TYPE, 1, w.msgType] else [PAD, PAD, PAD]
  }

  /** An option that is present exactly when its address is not zero. */
  function AddressPart(code: uint8, q: Quad): Bytes {
    if q != ZERO then Option4(code, q) else []
  }

  function EndPart(w: Wire): Bytes {
    [if w.closed then END else PAD]
  }

  function OptionArea(w: Wire): (b: Bytes)
    ensures 10 <= |b| <= 22
  {
    TypePart(w) + AddressPart(OPT_REQUESTED_IP, w.requested) + AddressPart(OPT_SERVER_ID, w.serverId)
    + Option4(OPT_PARAMETER_LIST, w.parameters) + EndPart(w)
  }

  /** The checksum functions, left open: one over the IP header, one over addresses and UDP datagram. */
  datatype Checksums = Checksums(ip: Bytes -> uint16, udp: (Quad, Quad, Bytes) -> uint16)

  function Datagram(w: Wire, sum: uint16): Bytes {
    UdpHeader(UDP_LEN + BOOTP_FIXED + |OptionArea(w)|, sum) + Bootp(w) + OptionArea(w)
  }

  /** The Ethernet and IP headers. */
  function HeadOf(w: Wire, mac: Mac, sums: Checksums): (h: Bytes)
    ensures |h| == UDP_AT
  {
    var len := IP_LEN + UDP_LEN + BOOTP_FIXED + |OptionArea(w)|;
    Ethernet(mac) + IpHeader(w, len, sums.ip(IpHeader(w, len, 0)))
  }

  /** The whole frame. */
  function Frame(w: Wire, mac: Mac, sums: Checksums): Bytes {
    HeadOf(w, mac, sums) + Datagram(w, sums.udp(w.l3Src, w.l3Dst, Datagram(w, 0)))
  }

  // ---------- The builder, in place ----------

  /** The first `n` bytes of the buffer are written, the rest is still zero. */
  ghost predicate WrittenTo(f: array<uint8>, n: nat)
    reads f
  {
    n <= f.Length == BUFFER_LEN && f[n..] == Zeros(BUFFER_LEN - n)
  }

  method Put(f: array<uint8>, at: nat, s: Bytes)
    requires at + |s| <= f.Length
    modifies f
    ensures f[..at + |s|] == old(f[..at]) + s
    ensures f[at + |s|..] == old(f[at + |s|..])
  {
    for i := 0 to |s|
      invariant forall k | 0 <= k < f.Length :: f[k] == if at <= k < at + i then s[k - at] else old(f[k])
    {
      f[at + i] := s[i];
    }
  }

  /** Writes `s` after the bytes written so far. */
  method Append(f: array<uint8>, n: nat, s: Bytes)
    requires WrittenTo(f, n) && n + |s| <= BUFFER_LEN
    modifies f
    ensures WrittenTo(f, n + |s|) && f[..n + |s|] == old(f[..n]) + s
  {
    ghost var rest := f[n..];
    Put(f, n, s);
    assert f[n + |s|..] == rest[|s|..];
  }

  /** Leaving `k` bytes untouched leaves zeros. */
  lemma Skip(f: array<uint8>, n: nat, k: nat)
    requires WrittenTo(f, n) && n + k <= BUFFER_LEN
    ensures WrittenTo(f, n + k) && f[..n + k] == f[..n] + Zeros(k)
  {
    assert f[n + k..] == f[n..][k..];
    assert f[n..n + k] == f[n..][..k];
    assert f[..n + k] == f[..n] + f[n..n + k];
  }

  /** `b` with `s` written over it from position `at` on. */
  function Splice(b: Bytes, at: nat, s: Bytes): (r: Bytes)
    requires at + |s| <= |b|
    ensures |r| == |b|
  {
    b[..at] + s + b[at + |s|..]
  }

  /** Overwrites bytes already written. */
  method Patch(f: array<uint8>, n: nat, at: nat, s: Bytes)
    requires WrittenTo(f, n) && at + |s| <= n
    modifies f
    ensures WrittenTo(f, n) && f[..n] == Splice(old(f[..n]), at, s)
  {
    ghost var before := f[..];
    Put(f, at, s);
    assert f[..] == before[..at] + s + before[at + |s|..] by {
      assert f[..] == f[..at + |s|] + f[at + |s|..];
    }
    assert f[n..] == before[n..];
    assert f[..n] == Splice(before[..n], at, s);
  }

  method WriteIp(f: array<uint8>, w: Wire, len: uint16, sums: Checksums)
    requires WrittenTo(f, IP_AT)
    modifies f
    ensures WrittenTo(f, UDP_AT)
    ensures f[..UDP_AT] == old(f[..IP_AT]) + IpHeader(w, len, sums.ip(IpHeader(w, len, 0)))
  {
    ghost var head := f[..IP_AT];
    Append(f, 14, [0x45, 0x00]);
    Append(f, 16, Be16(len));
    Append(f, 18, [0, 0, 0, 0, 64, 0x11]);
    Append(f, 24, Be16(0));
    Append(f, 26, w.l3Src);
    Append(f, 30, w.l3Dst);
    assert f[..34] == head + IpHeader(w, len, 0);
    assert f[14..34] == f[..34][14..] == IpHeader(w, len, 0);
    var sum := sums.ip(f[14..34]);
    Patch(f, 34, 24, Be16(sum));
    IpSumAt(head, w, len, sum);
  }

  lemma IpSumAt(head: Bytes, w: Wire, len: uint16, sum: uint16)
    requires |head| == IP_AT
    ensures Splice(head + IpHeader(w, len, 0), 24, Be16(sum)) == head + IpHeader(w, len, sum)
  {}

  method WriteUdp(f: array<uint8>, len: uint16)
    requires WrittenTo(f, UDP_AT)
    modifies f
    ensures WrittenTo(f, BOOTP_AT) && f[..BOOTP_AT] == old(f[..UDP_AT]) + UdpHeader(len, 0)
  {
    ghost var head := f[..UDP_AT];
    Append(f, 34, [0, 68, 0, 67]);
    Append(f, 38, Be16(len));
    Append(f, 40, Be16(0));
    assert f[..42] == head + UdpHeader(len, 0);
  }

  method WriteBootp(f: array<uint8>, w: Wire)
    requires WrittenTo(f, BOOTP_AT)
    modifies f
    ensures WrittenTo(f, OPTIONS_AT) && f[..OPTIONS_AT] == old(f[..BOOTP_AT]) + Bootp(w)
  {
    ghost var head := f[..BOOTP_AT];
    Append(f, 42, [1, 1, 6, 0]);
    Append(f, 46, w.xid);
    Append(f, 50, w.secs);
    Append(f, 52, w.flags);
    Append(f, 54, w.ciaddr);
    Skip(f, 58, 12);
    Append(f, 70, w.chaddr);
    Skip(f, 76, 202);
    Append(f, 278, w.cookie);
    BootpPieces(head, w);
  }

  lemma BootpPieces(head: Bytes, w: Wire)
    ensures head + [1, 1, 6, 0] + w.xid + w.secs + w.flags + w.ciaddr + Zeros(12) + w.chaddr + Zeros(202) + w.cookie == head + Bootp(w)
  {}

  method AppendAddress(f: array<uint8>, n: nat, code: uint8, q: Quad) returns (m: nat)
    requires WrittenTo(f, n) && n + 6 <= BUFFER_LEN
    modifies f
    ensures m == n + |AddressPart(code, q)| && WrittenTo(f, m) && f[..m] == old(f[..n]) + AddressPart(code, q)
  {
    m := n;
    if q != ZERO {
      Append(f, n, Option4(code, q));
      m := n + 6;
    }
  }

  method WriteOptions(f: array<uint8>, w: Wire)
    requires WrittenTo(f, OPTIONS_AT)
    modifies f
    ensures WrittenTo(f, OPTIONS_AT + |OptionArea(w)|)
    ensures f[..OPTIONS_AT + |OptionArea(w)|] == old(f[..OPTIONS_AT]) + OptionArea(w)
  {
    ghost var head := f[..OPTIONS_AT];
    Append(f, OPTIONS_AT, TypePart(w));
    var i := AppendAddress(f, OPTIONS_AT + 3, OPT_REQUESTED_IP, w.requested);
    i := AppendAddress(f, i, OPT_SERVER_ID, w.serverId);
    Append(f, i, Option4(OPT_PARAMETER_LIST, w.parameters));
    Append(f, i + 6, EndPart(w));
    FivePieces(head, TypePart(w), AddressPart(OPT_REQUESTED_IP, w.requested), AddressPart(OPT_SERVER_ID, w.serverId),
               Option4(OPT_PARAMETER_LIST, w.parameters), EndPart(w));
  }

  lemma FivePieces(h: Bytes, a: Bytes, b: Bytes, c: Bytes, d: Bytes, e: Bytes)
    ensures h + a + b + c + d + e == h + (a + b + c + d + e)
  {}

  method WriteUnsummed(f: array<uint8>, w: Wire, mac: Mac, sums: Checksums) returns (len: nat)
    requires WrittenTo(f, 0)
    modifies f
    ensures len == OPTIONS_AT + |OptionArea(w)| <= BUFFER_LEN
    ensures WrittenTo(f, len) && f[..len] == HeadOf(w, mac, sums) + Datagram(w, 0)
  {
    var udpLen := UDP_LEN + BOOTP_FIXED + |OptionArea(w)|;
    Append(f, 0, Ethernet(mac));
    assert f[..14] == Ethernet(mac);
    WriteIp(f, w, IP_LEN + udpLen, sums);
    WriteUdp(f, udpLen);
    WriteBootp(f, w);
    WriteOptions(f, w);
    len := OPTIONS_AT + |OptionArea(w)|;
    DatagramPieces(HeadOf(w, mac, sums), w, 0);
  }

  /** The builder: whatever the flavor, the message fits the buffer and is exactly the frame of its
      effective fields. */
  method EmitDhcpMessage(spec: EmitSpec, flavor: Flavor, mac: Mac, chaddrOverride: Option<Mac>, sums: Checksums)
    returns (frame: Bytes)
    ensures frame == Frame(Effective(spec, flavor, if chaddrOverride.Some? then chaddrOverride.value else mac), mac, sums)
    ensures |frame| <= BUFFER_LEN
  {
    var w := Effective(spec, flavor, if chaddrOverride.Some? then chaddrOverride.value else mac);
    var f := new uint8[BUFFER_LEN](_ => 0);
    assert f[0..] == Zeros(BUFFER_LEN);
    var len := WriteUnsummed(f, w, mac, sums);
    DropHead(HeadOf(w, mac, sums), Datagram(w, 0));
    assert f[UDP_AT..len] == f[..len][UDP_AT..];
    var sum := sums.udp(w.l3Src, w.l3Dst, f[UDP_AT..len]);
    Patch(f, len, 40, Be16(sum));
    UdpSumAt(HeadOf(w, mac, sums), w, sum);
    frame := f[..len];
  }

  lemma DropHead(h: Bytes, t: Bytes)
    ensures (h + t)[|h|..] == t
  {}

  lemma DatagramPieces(head: Bytes, w: Wire, sum: uint16)
    ensures head + UdpHeader(UDP_LEN + BOOTP_FIXED + |OptionArea(w)|, sum) + Bootp(w) + OptionArea(w) == head + Datagram(w, sum)
  {}

  lemma UdpSumAt(head: Bytes, w: Wire, sum: uint16)
    requires |head| == UDP_AT
    ensures Splice(head + Datagram(w, 0), 40, Be16(sum)) == head + Datagram(w, sum)
  {}

  // ---------- What a receiver reads back ----------

  function AddressField(code: uint8, q: Quad): seq<Field> {
    if q != ZERO then [Tlv(code, q)] else []
  }

  function TypeField(w: Wire): seq<Field> {
    if w.typed then [Tlv(OPT_MESSAGE_TYPE, [w.msgType])] else [Pad, Pad, Pad]
  }

  function AreaFields(w: Wire): seq<Field> {
    TypeField(w) + AddressField(OPT_REQUESTED_IP, w.requested) + AddressField(OPT_SERVER_ID, w.serverId)
    + [Tlv(OPT_PARAMETER_LIST, w.parameters)] + (if w.closed then [] else [Pad])
  }

  lemma {:induction false} EncodeConcat(a: seq<Field>, b: seq<Field>)
    requires AllEncodable(a) && AllEncodable(b)
    ensures AllEncodable(a + b) && Encode(a + b) == Encode(a) + Encode(b)
  {
    if a == [] {
      assert a + b == b;
    } else {
      EncodeConcat(a[1..], b);
      EncodeConcatStep(a[0], a[1..], b);
      assert a == [a[0]] + a[1..];
    }
  }

  lemma EncodeConcatStep(x: Field, a: seq<Field>, b: seq<Field>)
    requires Encodable(x) && AllEncodable(a) && AllEncodable(b) && AllEncodable(a + b) && Encode(a + b) == Encode(a) + Encode(b)
    ensures AllEncodable([x] + a) && AllEncodable([x] + a + b) && Encode([x] + a + b) == Encode([x] + a) + Encode(b)
  {
    var e := EncodeField(x);
    assert Encode([x] + a) == e + Encode(a) by { EncodeCons(x, a); }
    assert AllEncodable([x] + a) by { EncodeCons(x, a); }
    ConcatAssociates([x], a, b);
    assert AllEncodable([x] + a + b) by { EncodeCons(x, a + b); }
    assert Encode([x] + a + b) == e + Encode(a + b) by { EncodeCons(x, a + b); }
    ConcatAssociates(e, Encode(a), Encode(b));
  }

  lemma EncodeOne(f: Field)
    requires Encodable(f)
    ensures Encode([f]) == EncodeField(f)
  {
    EncodeCons(f, []);
    assert [f] + [] == [f] && EncodeField(f) + [] == EncodeField(f);
  }

  lemma EncodeTypeField(w: Wire)
    ensures AllEncodable(TypeField(w)) && Encode(TypeField(w)) == TypePart(w)
  {
    if w.typed {
      EncodeOne(Tlv(OPT_MESSAGE_TYPE, [w.msgType]));
    } else {
      EncodeOne(Pad);
      EncodeConcat([Pad], [Pad]);
      EncodeConcat([Pad, Pad], [Pad]);
      assert [Pad] + [Pad] == [Pad, Pad] && [Pad, Pad] + [Pad] == [Pad, Pad, Pad];
    }
  }

  lemma EncodeAddressField(code: uint8, q: Quad)
    requires code != PAD && code != END
    ensures AllEncodable(AddressField(code, q)) && Encode(AddressField(code, q)) == AddressPart(code, q)
  {
    if q != ZERO {
      EncodeOne(Tlv(code, q));
    }
  }

  /** The walker sees exactly the fields the builder wrote. */
  lemma FieldsOfArea(w: Wire)
    ensures Fields(OptionArea(w)) == AreaFields(w)
  {
    var t, r, s, p := TypeField(w), AddressField(OPT_REQUESTED_IP, w.requested), AddressField(OPT_SERVER_ID, w.serverId), [Tlv(OPT_PARAMETER_LIST, w.parameters)];
    EncodeTypeField(w);
    EncodeAddressField(OPT_REQUESTED_IP, w.requested);
    EncodeAddressField(OPT_SERVER_ID, w.serverId);
    EncodeOne(p[0]);
    EncodeConcat(t, r);
    EncodeConcat(t + r, s);
    EncodeConcat(t + r + s, p);
    if w.closed {
      assert AreaFields(w) == t + r + s + p;
      FieldsOfEncoding(t + r + s + p, [END]);
    } else {
      EncodeOne(Pad);
      EncodeConcat(t + r + s + p, [Pad]);
      FieldsOfEncoding(t + r + s + p + [Pad], []);
      assert OptionArea(w) + [] == OptionArea(w);
    }
  }

  /** Every conformant message carries its message type and the parameter list, options 50 and 54
      exactly when their address is set, and no other option. */
  lemma ConformantOptions(spec: EmitSpec, chaddr: Mac, code: uint8)
    ensures Find(OptionArea(Conformant(spec, chaddr)), code) ==
            if code == OPT_MESSAGE_TYPE then Some([spec.msgType])
            else if code == OPT_PARAMETER_LIST then Some(PARAMETERS)
            else if code == OPT_REQUESTED_IP && spec.requested != ZERO then Some(spec.requested)
            else if code == OPT_SERVER_ID && spec.serverId != ZERO then Some(spec.serverId)
            else None
  {
    FieldsOfArea(Conformant(spec, chaddr));
    LookupArea(Conformant(spec, chaddr), code);
  }

  lemma LookupConcat(a: seq<Field>, b: seq<Field>, code: uint8)
    ensures Lookup(a + b, code) == if Lookup(a, code).Some? then Lookup(a, code) else Lookup(b, code)
  {
    if a == [] {
      assert a + b == b;
    } else {
      LookupConcat(a[1..], b, code);
      assert (a + b)[1..] == a[1..] + b;
    }
  }

  lemma LookupArea(w: Wire, code: uint8)
    ensures Lookup(AreaFields(w), code) ==
            if code == OPT_MESSAGE_TYPE && w.typed then Some([w.msgType])
            else if code == OPT_REQUESTED_IP && w.requested != ZERO then Some(w.requested)
            else if code == OPT_SERVER_ID && w.serverId != ZERO then Some(w.serverId)
            else if code == OPT_PARAMETER_LIST then Some(w.parameters)
            else None
  {
    var t, r, s, p := TypeField(w), AddressField(OPT_REQUESTED_IP, w.requested), AddressField(OPT_SERVER_ID, w.serverId), [Tlv(OPT_PARAMETER_LIST, w.parameters)];
    LookupConcat(t + r + s + p, if w.closed then [] else [Pad], code);
    LookupConcat(t + r + s, p, code);
    LookupConcat(t + r, s, code);
    LookupConcat(t, r, code);
    LookupPads(w, code);
  }

  lemma LookupPads(w: Wire, code: uint8)
    ensures !w.typed ==> Lookup(TypeField(w), code) == None
    ensures Lookup([Pad], code) == None
  {
    if !w.typed {
      LookupConcat([Pad], [Pad, Pad], code);
      LookupConcat([Pad], [Pad], code);
      assert [Pad] + [Pad] == [Pad, Pad] && [Pad] + [Pad, Pad] == [Pad, Pad, Pad];
    }
  }
}
