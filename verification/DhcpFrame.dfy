/**
 Reading a frame back: which byte stands where, and that a frame determines the fields it was built from.
 */
module DhcpFrame {
  import opened Wrappers
  import opened DhcpOptions
  import opened DhcpMessage

  /** The length and checksum fields of the IP and UDP headers. */
  predicate Volatile(i: nat) {
    16 <= i < 18 || 24 <= i < 26 || 38 <= i < 42
  }

  /** The byte at a header position that is neither a length nor a checksum. */
  function HeaderByte(w: Wire, mac: Mac, i: nat): uint8 {
    if i < 6 then 0xFF
    else if i < 12 then mac[i - 6]
    else if i == 12 then 0x08
    else if i == 14 then 0x45
    else if i == 22 then 64
    else if i == 23 then 0x11
    else if 26 <= i < 30 then w.l3Src[i - 26]
    else if 30 <= i < 34 then w.l3Dst[i - 30]
    else if i == 35 then 68
    else if i == 37 then 67
    else if i == 42 || i == 43 then 1
    else if i == 44 then 6
    else if 46 <= i < 50 then w.xid[i - 46]
    else if 50 <= i < 52 then w.secs[i - 50]
    else if 52 <= i < 54 then w.flags[i - 52]
    else if 54 <= i < 58 then w.ciaddr[i - 54]
    else if 70 <= i < 76 then w.chaddr[i - 70]
    else if 278 <= i < 282 then w.cookie[i - 278]
    else 0
  }

  lemma BootpByte(w: Wire, mac: Mac, i: nat)
    requires i < BOOTP_FIXED
    ensures Bootp(w)[i] == HeaderByte(w, mac, BOOTP_AT + i)
  {}

  lemma IpByte(w: Wire, mac: Mac, len: uint16, sum: uint16, i: nat)
    requires i < IP_LEN && !Volatile(IP_AT + i)
    ensures IpHeader(w, len, sum)[i] == HeaderByte(w, mac, IP_AT + i)
  {}

  /** Where the pieces of a frame stand. */
  lemma FramePieces(w: Wire, mac: Mac, sums: Checksums)
    ensures var fr := Frame(w, mac, sums);
            var len := IP_LEN + UDP_LEN + BOOTP_FIXED + |OptionArea(w)|;
            && |fr| == OPTIONS_AT + |OptionArea(w)|
            && fr[..14] == Ethernet(mac)
            && fr[14..34] == IpHeader(w, len, sums.ip(IpHeader(w, len, 0)))
            && fr[34..42] == UdpHeader(len - IP_LEN, sums.udp(w.l3Src, w.l3Dst, Datagram(w, 0)))
            && fr[42..282] == Bootp(w)
            && fr[282..] == OptionArea(w)
  {
    var len := IP_LEN + UDP_LEN + BOOTP_FIXED + |OptionArea(w)|;
    var sum := sums.udp(w.l3Src, w.l3Dst, Datagram(w, 0));
    var a, b := Ethernet(mac), IpHeader(w, len, sums.ip(IpHeader(w, len, 0)));
    var c, d, e := UdpHeader(len - IP_LEN, sum), Bootp(w), OptionArea(w);
    assert HeadOf(w, mac, sums) == a + b;
    assert Datagram(w, sum) == c + d + e;
    assert Frame(w, mac, sums) == a + b + (c + d + e);
    Slices(a, b, c, d, e);
  }

  lemma Slices(a: Bytes, b: Bytes, c: Bytes, d: Bytes, e: Bytes)
    requires |a| == 14 && |b| == 20 && |c| == 8 && |d| == 240
    ensures var s := a + b + (c + d + e);
            s[..14] == a && s[14..34] == b && s[34..42] == c && s[42..282] == d && s[282..] == e
  {}

  lemma FrameHeaderByte(w: Wire, mac: Mac, sums: Checksums, i: nat)
    requires i < OPTIONS_AT && !Volatile(i)
    ensures |Frame(w, mac, sums)| >= OPTIONS_AT && Frame(w, mac, sums)[i] == HeaderByte(w, mac, i)
  {
    FramePieces(w, mac, sums);
    var fr, len := Frame(w, mac, sums), IP_LEN + UDP_LEN + BOOTP_FIXED + |OptionArea(w)|;
    if i < 14 {
      assert fr[i] == fr[..14][i];
    } else if i < 34 {
      assert fr[i] == fr[14..34][i - 14];
      IpByte(w, mac, len, sums.ip(IpHeader(w, len, 0)), i - 14);
    } else if i < 42 {
      assert fr[i] == fr[34..42][i - 34];
    } else {
      assert fr[i] == fr[42..282][i - 42];
      BootpByte(w, mac, i - 42);
    }
  }

  // ---------- A frame tells its fields apart ----------

  lemma Extends(head: Bytes, part: Bytes)
    ensures (head + part)[|head|..|head| + |part|] == part
    ensures forall i, j | 0 <= i <= j <= |head| :: (head + part)[i..j] == head[i..j]
  {}

  lemma BootpFields(w: Wire)
    ensures var b := Bootp(w);
      && b[4..8] == w.xid && b[8..10] == w.secs && b[10..12] == w.flags && b[12..16] == w.ciaddr
      && b[28..34] == w.chaddr && b[236..240] == w.cookie
  {
    var h := [1, 1, 6, 0];
    Extends(h, w.xid);
    Extends(h + w.xid, w.secs);
    Extends(h + w.xid + w.secs, w.flags);
    Extends(h + w.xid + w.secs + w.flags, w.ciaddr);
    TailFields(h + w.xid + w.secs + w.flags + w.ciaddr, w);
  }

  lemma TailFields(h: Bytes, w: Wire)
    requires |h| == 16
    ensures var b := h + Zeros(12) + w.chaddr + Zeros(202) + w.cookie;
      && b[28..34] == w.chaddr && b[236..240] == w.cookie && forall i, j | 0 <= i <= j <= 16 :: b[i..j] == h[i..j]
  {
    Extends(h, Zeros(12));
    Extends(h + Zeros(12), w.chaddr);
    Extends(h + Zeros(12) + w.chaddr, Zeros(202));
    Extends(h + Zeros(12) + w.chaddr + Zeros(202), w.cookie);
  }

  lemma IpFields(w: Wire, len: uint16, sum: uint16)
    ensures IpHeader(w, len, sum)[12..16] == w.l3Src && IpHeader(w, len, sum)[16..20] == w.l3Dst
  {
    var h := [0x45, 0x00] + Be16(len) + [0, 0, 0, 0, 64, 0x11] + Be16(sum);
    Extends(h, w.l3Src);
    Extends(h + w.l3Src, w.l3Dst);
  }

  lemma SliceOfSlice(b: Bytes, lo: nat, hi: nat, i: nat, j: nat)
    requires i <= j && lo + j <= hi <= |b|
    ensures b[lo..hi][i..j] == b[lo + i..lo + j]
  {
    var s, t := b[lo..hi][i..j], b[lo + i..lo + j];
    forall k | 0 <= k < |s| ensures s[k] == t[k] {
      assert s[k] == b[lo..hi][i + k] == b[lo + i + k];
    }
  }

  /** Where the fields of a message stand in its frame. */
  lemma FrameFields(w: Wire, mac: Mac, sums: Checksums)
    ensures var fr := Frame(w, mac, sums);
      && |fr| == OPTIONS_AT + |OptionArea(w)|
      && fr[26..30] == w.l3Src && fr[30..34] == w.l3Dst
      && fr[46..50] == w.xid && fr[50..52] == w.secs && fr[52..54] == w.flags && fr[54..58] == w.ciaddr
      && fr[70..76] == w.chaddr && fr[278..282] == w.cookie && fr[282..] == OptionArea(w)
  {
    var fr, len := Frame(w, mac, sums), IP_LEN + UDP_LEN + BOOTP_FIXED + |OptionArea(w)|;
    FramePieces(w, mac, sums);
    IpFields(w, len, sums.ip(IpHeader(w, len, 0)));
    BootpFields(w);
    SliceOfSlice(fr, 14, 34, 12, 16);
    SliceOfSlice(fr, 14, 34, 16, 20);
    SliceOfSlice(fr, 42, 282, 4, 8);
    SliceOfSlice(fr, 42, 282, 8, 10);
    SliceOfSlice(fr, 42, 282, 10, 12);
    SliceOfSlice(fr, 42, 282, 12, 16);
    SliceOfSlice(fr, 42, 282, 28, 34);
    SliceOfSlice(fr, 42, 282, 236, 240);
  }

  /** The options of a message whose area is complete, as a receiver looks them up. */
  lemma AreaDetermines(w: Wire, w': Wire)
    requires OptionArea(w) == OptionArea(w') && w.typed && w.closed
    ensures w' == w.(xid := w'.xid, l3Src := w'.l3Src, l3Dst := w'.l3Dst, ciaddr := w'.ciaddr, secs := w'.secs,
                     flags := w'.flags, chaddr := w'.chaddr, cookie := w'.cookie)
  {
    FieldsOfArea(w);
    FieldsOfArea(w');
    var fs := AreaFields(w);
    assert fs == AreaFields(w');
    assert fs[0] == Tlv(OPT_MESSAGE_TYPE, [w.msgType]);
    assert w'.typed && w'.msgType == w.msgType;
    assert fs[|fs| - 1] == Tlv(OPT_PARAMETER_LIST, w.parameters);
    assert w'.closed && w'.parameters == w.parameters;
    LookupArea(w, OPT_REQUESTED_IP);
    LookupArea(w', OPT_REQUESTED_IP);
    LookupArea(w, OPT_SERVER_ID);
    LookupArea(w', OPT_SERVER_ID);
  }

  /** A complete message is determined by its frame: no two effective messages share one. */
  lemma FrameDetermines(w: Wire, w': Wire, mac: Mac, sums: Checksums)
    requires Frame(w, mac, sums) == Frame(w', mac, sums) && w.typed && w.closed
    ensures w == w'
  {
    FrameFields(w, mac, sums);
    FrameFields(w', mac, sums);
    AreaDetermines(w, w');
  }

  // ---------- Lengths and checksums ----------

  /** A 16-bit number, high byte first. */
  function Word(high: int, low: int): int {
    high * 256 + low
  }

  lemma BigEndian16(v: uint16)
    ensures Word(Be16(v)[0], Be16(v)[1]) == v
  {}

  /** The two length fields, high byte first, count the datagram from the IP header on and from the UDP header on. */
  lemma FrameLengths(w: Wire, mac: Mac, sums: Checksums)
    ensures var fr := Frame(w, mac, sums);
      && |fr| >= OPTIONS_AT && Word(fr[16], fr[17]) == |fr| - 14 && Word(fr[38], fr[39]) == |fr| - 34
  {
    var fr, len := Frame(w, mac, sums), IP_LEN + UDP_LEN + BOOTP_FIXED + |OptionArea(w)|;
    FramePieces(w, mac, sums);
    var ip, udp := fr[14..34], fr[34..42];
    assert fr[16] == ip[2] && fr[17] == ip[3] && fr[38] == udp[4] && fr[39] == udp[5];
    BigEndian16(len);
    BigEndian16(len - IP_LEN);
  }

  lemma ZeroedIp(w: Wire, len: uint16, sum: uint16)
    ensures var h := IpHeader(w, len, sum);
      h[..10] + [0, 0] + h[12..] == IpHeader(w, len, 0) && Word(h[10], h[11]) == sum
  {
    BigEndian16(sum);
  }

  lemma ZeroedUdp(w: Wire, sum: uint16)
    ensures var d := Datagram(w, sum);
      |d| >= 8 && d[..6] + [0, 0] + d[8..] == Datagram(w, 0) && Word(d[6], d[7]) == sum
  {
    var n := UDP_LEN + BOOTP_FIXED + |OptionArea(w)|;
    UdpSum(n, sum);
    ZeroedHead(UdpHeader(n, sum), UdpHeader(n, 0), Bootp(w), OptionArea(w));
  }

  lemma UdpSum(n: uint16, sum: uint16)
    ensures var u := UdpHeader(n, sum); u[..6] + [0, 0] == UdpHeader(n, 0) && Word(u[6], u[7]) == sum
  {
    BigEndian16(sum);
  }

  lemma ZeroedHead(u: Bytes, z: Bytes, b: Bytes, c: Bytes)
    requires |u| == 8 && u[..6] + [0, 0] == z
    ensures var d := u + b + c; |d| >= 8 && d[..6] + [0, 0] + d[8..] == z + b + c && d[6] == u[6] && d[7] == u[7]
  {
    var d := u + b + c;
    assert d[..6] == u[..6] && d[8..] == b + c;
  }

  /** The two checksum fields, high byte first, hold the checksum of what they cover with themselves at zero: the IP header
      of the frame, and its addresses and UDP datagram. */
  lemma FrameChecksums(w: Wire, mac: Mac, sums: Checksums)
    ensures var fr := Frame(w, mac, sums);
      && |fr| >= OPTIONS_AT
      && Word(fr[24], fr[25]) == sums.ip(fr[14..24] + [0, 0] + fr[26..34])
      && Word(fr[40], fr[41]) == sums.udp(fr[26..30], fr[30..34], fr[34..40] + [0, 0] + fr[42..])
  {
    var fr, len := Frame(w, mac, sums), IP_LEN + UDP_LEN + BOOTP_FIXED + |OptionArea(w)|;
    FramePieces(w, mac, sums);
    FrameFields(w, mac, sums);
    var ip := fr[14..34];
    assert ip[..10] == fr[14..24] && ip[12..] == fr[26..34] && ip[10] == fr[24] && ip[11] == fr[25];
    ZeroedIp(w, len, sums.ip(IpHeader(w, len, 0)));
    var sum := sums.udp(w.l3Src, w.l3Dst, Datagram(w, 0));
    var d := Datagram(w, sum);
    assert fr[34..] == d;
    assert d[..6] == fr[34..40] && d[8..] == fr[42..] && d[6] == fr[40] && d[7] == fr[41];
    ZeroedUdp(w, sum);
  }
}
