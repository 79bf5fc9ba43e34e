/**
 The client's life as it shows on the wire: the frame of every message the lifecycle logs, and what a server reads in it.
 */
module DhcpWire {
  import opened Wrappers
  import opened DhcpOptions
  import opened DhcpMessage
  import opened DhcpFrame
  import Lease = DhcpLease
  import Life = DhcpLifecycle

  type uint32 = Lease.uint32

  /** A number in network order. */
  function Network(x: uint32): Quad {
    [x / 0x100_0000, x / 0x1_0000 % 0x100, x / 0x100 % 0x100, x % 0x100]
  }

  lemma NetworkReads(x: uint32)
    ensures var q := Network(x); Number(q[0], q[1], q[2], q[3]) == x
  {
    var y := x / 0x100;
    var z := y / 0x100;
    assert x == y * 0x100 + x % 0x100 && y == z * 0x100 + y % 0x100;
    assert z == x / 0x1_0000 && z / 0x100 == x / 0x100_0000;
  }

  lemma NetworkZero(x: uint32)
    ensures Network(x) == ZERO <==> x == 0
  {}

  /** The message behind a logged event, if it is one. */
  function SpecOf(e: Life.Event): Option<EmitSpec> {
    match e
    case Discover(xid) => Some(DiscoverSpec(Network(xid)))
    case Request(xid, addr, server) => Some(SelectingSpec(Network(xid), Network(addr), Network(server)))
    case Decline(xid, addr, server) => Some(DeclineSpec(Network(xid), Network(addr), Network(server)))
    case _ => None
  }

  /** The message behind an event of the phase machine, if it is one. */
  function HoldSpecOf(e: Lease.Event): Option<EmitSpec> {
    match e
    case Renew(xid, ciaddr, dst) => Some(RenewingSpec(Network(xid), Network(ciaddr), Network(dst)))
    case Rebind(xid, ciaddr) => Some(RebindingSpec(Network(xid), Network(ciaddr)))
    case _ => None
  }

  /** The conformant frame of a message, sent from the interface's own address. */
  function FrameOf(spec: EmitSpec, mac: Mac, sums: Checksums): Bytes {
    Frame(Conformant(spec, mac), mac, sums)
  }

  /** What a server finds in the frame of a conformant message: the addresses, the transaction id, the hardware address,
      and of the options the message type, the parameter list, and 50 and 54 when the message has them. */
  lemma FrameSays(spec: EmitSpec, mac: Mac, sums: Checksums)
    ensures var fr := FrameOf(spec, mac, sums);
      && |fr| >= 282
      && fr[26..30] == spec.l3Src && fr[30..34] == spec.l3Dst
      && fr[46..50] == spec.xid && fr[54..58] == spec.ciaddr && fr[70..76] == mac
      && fr[278..282] == [0x63, 0x82, 0x53, 0x63] && Find(fr[282..], 55) == Some([1, 3, 6, 15])
      && Find(fr[282..], 53) == Some([spec.msgType])
      && Find(fr[282..], 50) == (if spec.requested != ZERO then Some(spec.requested) else None)
      && Find(fr[282..], 54) == (if spec.serverId != ZERO then Some(spec.serverId) else None)
  {
    FrameFields(Conformant(spec, mac), mac, sums);
    ConformantOptions(spec, mac, OPT_MESSAGE_TYPE);
    ConformantOptions(spec, mac, OPT_REQUESTED_IP);
    ConformantOptions(spec, mac, OPT_SERVER_ID);
    ConformantOptions(spec, mac, OPT_PARAMETER_LIST);
  }

  /** Section 4.3.6 of RFC 2131 on the wire, for every life of the client: a renewing or rebinding REQUEST carries, as
      source and as ciaddr, the address an ACK of its own cycle granted, and that cycle's id; it carries neither option 50
      nor option 54. A renewing one goes to a server, a rebinding one to everybody. */
  lemma ReacquiringFrames(log: seq<Life.Event>, j: nat, k: nat, mac: Mac, sums: Checksums) returns (i: nat, g: nat)
    requires Life.Seen(log).Some? && j < |log| && log[j].Hold? && k < |log[j].sent|
    requires log[j].sent[k].Renew? || log[j].sent[k].Rebind?
    ensures i < g < j && Life.Latest(log[..j], i) && log[i].Open? && log[g].Granted?
    ensures var fr := FrameOf(HoldSpecOf(log[j].sent[k]).value, mac, sums);
      && |fr| >= 282
      && fr[46..50] == Network(log[i].xid)
      && fr[26..30] == fr[54..58] == Network(log[g].ack.yiaddr)
      && fr[30..34] == (if log[j].sent[k].Renew? then Network(log[j].sent[k].dst) else [255, 255, 255, 255])
      && Find(fr[282..], 53) == Some([3])
      && Find(fr[282..], 50) == None
      && Find(fr[282..], 54) == None
  {
    i, g := Life.RequestsNameTheLease(log, j, k);
    FrameSays(HoldSpecOf(log[j].sent[k]).value, mac, sums);
  }

  /** The other three messages of every life: broadcast without a source or ciaddr, under the id of their cycle. The
      SELECTING REQUEST and the DECLINE name an address in option 50 and a server in option 54 whenever these are not
      zero; the DISCOVER names neither. */
  lemma SelectingFrames(log: seq<Life.Event>, i: nat, j: nat, mac: Mac, sums: Checksums)
    requires Life.Seen(log).Some? && i < j < |log| && Life.Latest(log[..j], i) && SpecOf(log[j]).Some?
    ensures var fr := FrameOf(SpecOf(log[j]).value, mac, sums);
      && |fr| >= 282
      && fr[46..50] == Network(log[i].xid) && fr[26..30] == fr[54..58] == [0, 0, 0, 0] && fr[30..34] == [255, 255, 255, 255]
      && Find(fr[282..], 53) == Some([if log[j].Discover? then 1 else if log[j].Request? then 3 else 4])
      && Find(fr[282..], 50) == (if log[j].Discover? || log[j].addr == 0 then None else Some(Network(log[j].addr)))
      && Find(fr[282..], 54) == (if log[j].Discover? || log[j].server == 0 then None else Some(Network(log[j].server)))
  {
    Life.OneTransactionPerCycle(log, i, j);
    if !log[j].Discover? {
      NetworkZero(log[j].addr);
      NetworkZero(log[j].server);
    }
    FrameSays(SpecOf(log[j]).value, mac, sums);
  }
}
