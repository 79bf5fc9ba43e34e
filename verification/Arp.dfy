/**
 The three ARP frames of an RFC 3927 host and the two receivers that read them:
 the conflict listener of the probing window and the responder of the claimed state.
 Every other link-local module is built on these definitions.
 */
module Arp {

  /** A hardware address; two hosts never share one. */
  type Mac = nat

  /** An IPv4 address as a host-order value; 0 means "none". */
  type Ipv4 = x: int | 0 <= x < 0x1_0000_0000

  const REQUEST: nat := 1
  const REPLY: nat := 2

  /** The fields of an ARP body that the receivers look at. */
  datatype ArpFrame = ArpFrame(opcode: nat, senderHw: Mac, senderIp: Ipv4, targetIp: Ipv4)

  function ArpProbe(mac: Mac, tentative: Ipv4): ArpFrame {
    ArpFrame(REQUEST, mac, 0, tentative)
  }

  function ArpAnnounce(mac: Mac, committed: Ipv4): ArpFrame {
    ArpFrame(REQUEST, mac, committed, committed)
  }

  function ArpReply(mac: Mac, committed: Ipv4, asker: Ipv4): ArpFrame {
    ArpFrame(REPLY, mac, committed, asker)
  }

  /** Probing-window conflicts after which a host limits its rate (section 2.2.1 of RFC 3927). */
  const MAX_CONFLICTS: nat := 10

  /** The claimable range 169.254.1.0 to 169.254.254.255 (section 2.1 of RFC 3927). */
  predicate IsLinkLocal(a: Ipv4) {
    0xA9FE_0100 <= a <= 0xA9FE_FEFF
  }

  /** The conflict listener: a frame of another host that uses, or probes for, the tentative address. */
  predicate IsConflict(f: ArpFrame, mac: Mac, tentative: Ipv4) {
    && f.senderHw != mac
    && (f.senderIp == tentative || (f.opcode == REQUEST && f.senderIp == 0 && f.targetIp == tentative))
  }

  datatype Reaction = Ignore | Cease | Defend(reply: ArpFrame)

  /** The responder: its own frames are dropped, a conflicting sender address takes precedence
      over everything, and only a Request for the committed address is answered. */
  function Respond(f: ArpFrame, mac: Mac, committed: Ipv4): Reaction {
    if f.senderHw == mac || committed == 0 then Ignore
    else if f.senderIp == committed then Cease
    else if f.opcode != REQUEST || f.targetIp != committed then Ignore
    else Defend(ArpReply(mac, committed, f.senderIp))
  }
}
