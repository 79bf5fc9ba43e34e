/**
 How the client reads a BOOTREPLY: which datagrams it accepts and what it takes from them, against
 an independent description of the datagrams a server builds.
 */
module DhcpReply {
  import opened Wrappers
  import opened DhcpOptions
  import opened DhcpMessage

  const BOOTREPLY: uint8 := 2

  datatype Reply = Reply(msgType: uint8, yiaddr: Quad, serverId: Quad, lease: nat, router: Quad)

  /** The acceptance gate; `expected` 0 takes any message type. */
  ghost predicate Accepts(buf: Bytes, mac: Mac, xid: Quad, expected: uint8) {
    && |buf| >= BOOTP_FIXED + 4 && buf[0] == BOOTREPLY && buf[4..8] == xid && buf[28..34] == mac && buf[236..240] == MAGIC
    && match Find(buf[BOOTP_FIXED..], OPT_MESSAGE_TYPE)
       case None => false
       case Some(v) => v != [] && (expected == 0 || v[0] == expected)
  }

  /** The first four bytes of an option, zero when it is absent or shorter. */
  function FourBytes(opts: Bytes, code: uint8): Quad {
    match Find(opts, code)
    case Some(v) => if |v| >= 4 then v[..4] else ZERO
    case None => ZERO
  }

  function Be32(q: Quad): nat {
    (q[0] as int) * 0x100_0000 + (q[1] as int) * 0x1_0000 + (q[2] as int) * 0x100 + q[3]
  }

  method FindQuad(opts: Bytes, code: uint8) returns (q: Quad)
    ensures q == FourBytes(opts, code)
  {
    var found, value := FindDhcpOption(opts, code, 4);
    q := if found && |value| == 4 then value else ZERO;
  }

  /** A datagram is taken exactly when the gate accepts it. */
  method ParseReply(buf: Bytes, mac: Mac, xid: Quad, expected: uint8) returns (r: Option<Reply>)
    ensures r.Some? <==> Accepts(buf, mac, xid, expected)
    ensures r.Some? ==>
              var opts := buf[BOOTP_FIXED..];
              && Find(opts, OPT_MESSAGE_TYPE).Some? && Find(opts, OPT_MESSAGE_TYPE).value != []
              && r.value.msgType == Find(opts, OPT_MESSAGE_TYPE).value[0]
              && r.value.yiaddr == buf[16..20]
              && r.value.serverId == FourBytes(opts, OPT_SERVER_ID)
              && r.value.lease == Be32(FourBytes(opts, OPT_LEASE_TIME))
              && r.value.router == match LastRouter(Areas(buf)) case Some(q) => q case None => ZERO
  {
    if |buf| < BOOTP_FIXED + 4 { return None; }
    if buf[0] != BOOTREPLY { return None; }
    if buf[4..8] != xid { return None; }
    if buf[28..34] != mac { return None; }
    if buf[236..240] != MAGIC { return None; }
    var opts := buf[BOOTP_FIXED..];
    var t := MessageType(opts);
    if t.None? { return None; }
    if expected != 0 && t.value != expected { return None; }
    var serverId := FindQuad(opts, OPT_SERVER_ID);
    var lease := FindQuad(opts, OPT_LEASE_TIME);
    var router := ExtractRouter(buf);
    r := Some(Reply(t.value, buf[16..20], serverId, Be32(lease), router));
  }

  // ---------- Against what a server builds ----------

  type Sname = b: Bytes | |b| == 64 witness Zeros(64)
  type File = b: Bytes | |b| == 128 witness Zeros(128)

  /** A datagram with options `fs`, after the fixed part of section 2 of RFC 2131. */
  function BootpDatagram(op: uint8, xid: Quad, yiaddr: Quad, mac: Mac, sname: Sname, file: File, cookie: Quad, fs: seq<Field>): Bytes
    requires AllEncodable(fs)
  {
    [op, 1, 6, 0] + xid + Zeros(8) + yiaddr + Zeros(8) + mac + Zeros(10) + sname + file + cookie + (Encode(fs) + [END])
  }

  /** The reply a server builds. */
  function ServerReply(xid: Quad, yiaddr: Quad, mac: Mac, sname: Sname, file: File, fs: seq<Field>): Bytes
    requires AllEncodable(fs)
  {
    BootpDatagram(2, xid, yiaddr, mac, sname, file, [0x63, 0x82, 0x53, 0x63], fs)
  }

  lemma ReplySlices(op: uint8, xid: Quad, yiaddr: Quad, mac: Mac, sname: Sname, file: File, cookie: Quad, tail: Bytes)
    ensures var b := [op, 1, 6, 0] + xid + Zeros(8) + yiaddr + Zeros(8) + mac + Zeros(10) + sname + file + cookie + tail;
            && |b| == BOOTP_FIXED + |tail| && b[0] == op && b[4..8] == xid && b[16..20] == yiaddr && b[28..34] == mac
            && b[44..108] == sname && b[108..236] == file && b[236..240] == cookie && b[240..] == tail
  {}

  /** A message-type option that the client takes for the type it waits for. */
  predicate TypeMatches(v: Option<Bytes>, expected: uint8) {
    v.Some? && v.value != [] && (expected == 0 || v.value[0] == expected)
  }

  /** The gate is exact: of all datagrams of this layout those are taken that are replies (op 2), under the transaction id
      waited for, to the client's own hardware address, with the magic cookie, and of the awaited type. */
  lemma GateIsExact(op: uint8, xid': Quad, yiaddr: Quad, mac': Mac, sname: Sname, file: File, cookie: Quad, fs: seq<Field>,
                    mac: Mac, xid: Quad, expected: uint8)
    requires AllEncodable(fs)
    ensures var b := BootpDatagram(op, xid', yiaddr, mac', sname, file, cookie, fs);
      Accepts(b, mac, xid, expected) <==>
        op == 2 && xid' == xid && mac' == mac && cookie == [0x63, 0x82, 0x53, 0x63] && TypeMatches(Lookup(fs, 53), expected)
  {
    ReplySlices(op, xid', yiaddr, mac', sname, file, cookie, Encode(fs) + [END]);
    FieldsOfEncoding(fs, [END]);
    LookupIsMember(fs, OPT_MESSAGE_TYPE);
    if TypeMatches(Lookup(fs, OPT_MESSAGE_TYPE), expected) {
      NonEmptyEncoding(fs, Tlv(OPT_MESSAGE_TYPE, Lookup(fs, OPT_MESSAGE_TYPE).value));
    }
  }

  /** Nothing shorter than the fixed part and four bytes of options is taken. */
  lemma ShortIsRefused(buf: Bytes, mac: Mac, xid: Quad, expected: uint8)
    requires |buf| < 244
    ensures !Accepts(buf, mac, xid, expected)
  {}

  /** Of the replies a server builds for its transaction and hardware address the client accepts exactly those whose
      message-type option begins with the type it waits for. From all of them it reads the offered address and the
      options back; under option overload the router is the one of the last area that names one. */
  lemma ServerReplyIsRead(xid: Quad, yiaddr: Quad, mac: Mac, sname: Sname, file: File, fs: seq<Field>, expected: uint8)
    requires AllEncodable(fs)
    ensures var b := ServerReply(xid, yiaddr, mac, sname, file, fs);
            && (Accepts(b, mac, xid, expected) <==> TypeMatches(Lookup(fs, 53), expected))
            && |b| >= 240 && b[16..20] == yiaddr
            && (forall code: uint8 :: Find(b[240..], code) == Lookup(fs, code))
            && Areas(b) == match Lookup(fs, 52)
                           case None => [b[240..]]
                           case Some(v) =>
                             [b[240..]] + (if v != [] && v[0] % 2 == 1 then [file] else [])
                                        + (if v != [] && v[0] / 2 % 2 == 1 then [sname] else [])
  {
    ReplySlices(2, xid, yiaddr, mac, sname, file, MAGIC, Encode(fs) + [END]);
    FieldsOfEncoding(fs, [END]);
    GateIsExact(2, xid, yiaddr, mac, sname, file, MAGIC, fs, mac, xid, expected);
  }

  /** An option of at least four bytes is read as the number they stand for, high byte first; a shorter or absent one as
      zero. */
  lemma NumberIsRead(opts: Bytes, code: uint8)
    ensures Be32(FourBytes(opts, code)) ==
      match Find(opts, code)
      case Some(v) => if |v| < 4 then 0 else Number(v[0], v[1], v[2], v[3])
      case None => 0
  {}

  /** So the lease a server's reply grants is option 51, and the server the one of option 54. */
  lemma LeaseIsRead(xid: Quad, yiaddr: Quad, mac: Mac, sname: Sname, file: File, fs: seq<Field>, lease: Quad, server: Quad)
    requires AllEncodable(fs) && Lookup(fs, 51) == Some(lease) && Lookup(fs, 54) == Some(server)
    ensures var b := ServerReply(xid, yiaddr, mac, sname, file, fs);
      && |b| >= 240 && Be32(FourBytes(b[240..], OPT_LEASE_TIME)) == Number(lease[0], lease[1], lease[2], lease[3])
      && FourBytes(b[240..], OPT_SERVER_ID) == server
  {
    ServerReplyIsRead(xid, yiaddr, mac, sname, file, fs, 0);
    NumberIsRead(ServerReply(xid, yiaddr, mac, sname, file, fs)[240..], OPT_LEASE_TIME);
  }

  /** Section 9.6 of RFC 2132 gives the message-type option length one. The walker cuts a longer value to the one byte
      asked for, so the client's length test passes: every reply with a longer one is accepted by its first byte. */
  lemma LongMessageTypeIsAccepted(xid: Quad, yiaddr: Quad, mac: Mac, sname: Sname, file: File, fs: seq<Field>, v: Bytes)
    requires AllEncodable(fs) && Lookup(fs, OPT_MESSAGE_TYPE) == Some(v) && |v| >= 2
    ensures Accepts(ServerReply(xid, yiaddr, mac, sname, file, fs), mac, xid, v[0])
  {
    ServerReplyIsRead(xid, yiaddr, mac, sname, file, fs, v[0]);
  }

  lemma {:induction false} NonEmptyEncoding(fs: seq<Field>, f: Field)
    requires AllEncodable(fs) && f in fs
    ensures |Encode(fs)| >= |EncodeField(f)|
  {
    if f != fs[0] {
      NonEmptyEncoding(fs[1..], f);
    }
  }

  /** A message of the client itself, reflected by the link, is never taken for a reply. */
  lemma OwnMessagesAreNotReplies(w: Wire, mac: Mac, xid: Quad, expected: uint8, sums: Checksums)
    ensures |Frame(w, mac, sums)| >= BOOTP_AT && !Accepts(Frame(w, mac, sums)[BOOTP_AT..], mac, xid, expected)
  {
    var h, d := HeadOf(w, mac, sums), Datagram(w, sums.udp(w.l3Src, w.l3Dst, Datagram(w, 0)));
    assert (h + d)[BOOTP_AT..] == d[8..];
    assert d[8] == Bootp(w)[0] == 1;
  }
}
