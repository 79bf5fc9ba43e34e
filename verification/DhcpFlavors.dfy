/**
 Fault flavors do not interfere: a flavor changes nothing outside the phase it targets, and inside
 it changes one header field or one option, apart from the length and checksum fields that follow.
 */
module DhcpFlavors {
  import opened Wrappers
  import opened DhcpOptions
  import opened DhcpMessage
  import opened DhcpFrame

  predicate Reacquiring(p: Phase) {
    p.Renewing? || p.Rebinding?
  }

  /** The phases whose message a flavor is for: the prefix of its name. */
  predicate Targets(f: Flavor, p: Phase) {
    match f
    case None_ => false
    case DiscoverMagicCookieCorrupt | DiscoverOmitMessageType | DiscoverReservedFlagsSet | DiscoverDstUnicast
         | DiscoverSrcNonzero | DiscoverDropEnd | DiscoverCiaddrNonzero | DiscoverChaddrMismatch => p.Discover?
    case RequestSrcNonzero | RequestDstUnicast | RequestCiaddrNonzero | RequestServerIdCorrupt | RequestRequestedIpCorrupt
         | RequestSecsMismatch | RequestXidMismatch | RequestParamListMismatch | RequestOmitMessageType => p.Selecting?
    case ReacqRequestIncludeServerId | ReacqRequestIncludeRequestedIp | ReacqRequestCiaddrWrong => Reacquiring(p)
    case RenewingRequestDstWrong => p.Renewing?
    case RebindingDstUnicast => p.Rebinding?
    case DeclineRequestedIpWrong => p.Decline?
  }

  /** The one part of a message that a flavor corrupts. */
  datatype Slot =
    | NoSlot
    | SrcSlot | DstSlot | XidSlot | SecsSlot | FlagsSlot | CiaddrSlot | ChaddrSlot | CookieSlot
    | TypeSlot | RequestedSlot | ServerSlot | ParameterSlot | EndSlot

  function SlotOf(f: Flavor): Slot {
    match f
    case None_ => NoSlot
    case DiscoverMagicCookieCorrupt => CookieSlot
    case DiscoverOmitMessageType | RequestOmitMessageType => TypeSlot
    case DiscoverReservedFlagsSet => FlagsSlot
    case DiscoverDstUnicast | RequestDstUnicast | RenewingRequestDstWrong | RebindingDstUnicast => DstSlot
    case DiscoverSrcNonzero | RequestSrcNonzero => SrcSlot
    case DiscoverDropEnd => EndSlot
    case DiscoverCiaddrNonzero | ReacqRequestCiaddrWrong | RequestCiaddrNonzero => CiaddrSlot
    case DiscoverChaddrMismatch => ChaddrSlot
    case RequestServerIdCorrupt | ReacqRequestIncludeServerId => ServerSlot
    case RequestRequestedIpCorrupt | ReacqRequestIncludeRequestedIp | DeclineRequestedIpWrong => RequestedSlot
    case RequestSecsMismatch => SecsSlot
    case RequestXidMismatch => XidSlot
    case RequestParamListMismatch => ParameterSlot
  }

  /** The frame positions of a header slot. */
  predicate InSlot(slot: Slot, i: nat) {
    match slot
    case SrcSlot => 26 <= i < 30
    case DstSlot => 30 <= i < 34
    case XidSlot => 46 <= i < 50
    case SecsSlot => 50 <= i < 52
    case FlagsSlot => 52 <= i < 54
    case CiaddrSlot => 54 <= i < 58
    case ChaddrSlot => i == 70
    case CookieSlot => i == 278
    case _ => false
  }

  /** The option code of an option slot. */
  function SlotCode(slot: Slot): Option<uint8> {
    match slot
    case TypeSlot => Some(OPT_MESSAGE_TYPE)
    case RequestedSlot => Some(OPT_REQUESTED_IP)
    case ServerSlot => Some(OPT_SERVER_ID)
    case ParameterSlot => Some(OPT_PARAMETER_LIST)
    case _ => None
  }

  predicate AddressesAgreeExcept(w: Wire, w': Wire, slot: Slot) {
    && (slot.SrcSlot? || w'.l3Src == w.l3Src)
    && (slot.DstSlot? || w'.l3Dst == w.l3Dst)
    && (slot.CiaddrSlot? || w'.ciaddr == w.ciaddr)
  }

  predicate NumbersAgreeExcept(w: Wire, w': Wire, slot: Slot) {
    && (slot.XidSlot? || w'.xid == w.xid)
    && (slot.SecsSlot? || w'.secs == w.secs)
    && (slot.FlagsSlot? || w'.flags == w.flags)
  }

  predicate FirstBytesAgreeExcept(w: Wire, w': Wire, slot: Slot) {
    && w'.chaddr[1..] == w.chaddr[1..] && (slot.ChaddrSlot? || w'.chaddr == w.chaddr)
    && w'.cookie[1..] == w.cookie[1..] && (slot.CookieSlot? || w'.cookie == w.cookie)
  }

  predicate OptionsAgreeExcept(w: Wire, w': Wire, slot: Slot) {
    && w'.msgType == w.msgType
    && (slot.TypeSlot? || w'.typed == w.typed)
    && (slot.RequestedSlot? || w'.requested == w.requested)
    && (slot.ServerSlot? || w'.serverId == w.serverId)
    && (slot.ParameterSlot? || w'.parameters == w.parameters)
    && (slot.EndSlot? || w'.closed == w.closed)
  }

  predicate AgreeExcept(w: Wire, w': Wire, slot: Slot) {
    && AddressesAgreeExcept(w, w', slot) && NumbersAgreeExcept(w, w', slot) && FirstBytesAgreeExcept(w, w', slot)
    && OptionsAgreeExcept(w, w', slot)
  }

  lemma EffectiveAddresses(spec: EmitSpec, f: Flavor, chaddr: Mac)
    ensures AddressesAgreeExcept(Conformant(spec, chaddr), Effective(spec, f, chaddr), SlotOf(f))
  {}

  lemma EffectiveNumbers(spec: EmitSpec, f: Flavor, chaddr: Mac)
    ensures NumbersAgreeExcept(Conformant(spec, chaddr), Effective(spec, f, chaddr), SlotOf(f))
  {}

  lemma EffectiveFirstBytes(spec: EmitSpec, f: Flavor, chaddr: Mac)
    ensures FirstBytesAgreeExcept(Conformant(spec, chaddr), Effective(spec, f, chaddr), SlotOf(f))
  {}

  lemma EffectiveOptions(spec: EmitSpec, f: Flavor, chaddr: Mac)
    ensures OptionsAgreeExcept(Conformant(spec, chaddr), Effective(spec, f, chaddr), SlotOf(f))
  {}

  lemma EffectiveAgrees(spec: EmitSpec, f: Flavor, chaddr: Mac)
    ensures AgreeExcept(Conformant(spec, chaddr), Effective(spec, f, chaddr), SlotOf(f))
  {
    EffectiveAddresses(spec, f, chaddr);
    EffectiveNumbers(spec, f, chaddr);
    EffectiveFirstBytes(spec, f, chaddr);
    EffectiveOptions(spec, f, chaddr);
  }

  /** The options of an area other than `code`, in order. */
  function Others(fs: seq<Field>, code: Option<uint8>): seq<Field> {
    if fs == [] then []
    else if fs[0].Tlv? && Some(fs[0].code) != code then [fs[0]] + Others(fs[1..], code)
    else Others(fs[1..], code)
  }

  lemma {:induction false} OthersConcat(a: seq<Field>, b: seq<Field>, code: Option<uint8>)
    ensures Others(a + b, code) == Others(a, code) + Others(b, code)
  {
    if a == [] {
      assert a + b == b;
    } else {
      OthersConcat(a[1..], b, code);
      assert (a + b)[1..] == a[1..] + b && (a + b)[0] == a[0];
      ConcatAssociates([a[0]], Others(a[1..], code), Others(b, code));
    }
  }

  lemma OthersOne(f: Field, code: Option<uint8>)
    ensures Others([f], code) == if f.Tlv? && Some(f.code) != code then [f] else []
  {
    assert [f][1..] == [];
  }

  lemma OthersOfArea(w: Wire, code: Option<uint8>)
    ensures Others(AreaFields(w), code) ==
            (if w.typed && code != Some(OPT_MESSAGE_TYPE) then [Tlv(OPT_MESSAGE_TYPE, [w.msgType])] else [])
            + (if w.requested != ZERO && code != Some(OPT_REQUESTED_IP) then [Tlv(OPT_REQUESTED_IP, w.requested)] else [])
            + (if w.serverId != ZERO && code != Some(OPT_SERVER_ID) then [Tlv(OPT_SERVER_ID, w.serverId)] else [])
            + (if code != Some(OPT_PARAMETER_LIST) then [Tlv(OPT_PARAMETER_LIST, w.parameters)] else [])
  {
    var t, r, s, p := TypeField(w), AddressField(OPT_REQUESTED_IP, w.requested), AddressField(OPT_SERVER_ID, w.serverId), [Tlv(OPT_PARAMETER_LIST, w.parameters)];
    var e := if w.closed then [] else [Pad];
    OthersConcat(t + r + s + p, e, code);
    OthersConcat(t + r + s, p, code);
    OthersConcat(t + r, s, code);
    OthersConcat(t, r, code);
    OthersOne(p[0], code);
    OthersOne(Pad, code);
    OthersOfType(w, code);
    if w.requested != ZERO { OthersOne(r[0], code); }
    if w.serverId != ZERO { OthersOne(s[0], code); }
  }

  lemma OthersOfType(w: Wire, code: Option<uint8>)
    ensures Others(TypeField(w), code) == if w.typed && code != Some(OPT_MESSAGE_TYPE) then [Tlv(OPT_MESSAGE_TYPE, [w.msgType])] else []
  {
    if w.typed {
      OthersOne(Tlv(OPT_MESSAGE_TYPE, [w.msgType]), code);
    } else {
      OthersOne(Pad, code);
      OthersConcat([Pad], [Pad], code);
      OthersConcat([Pad, Pad], [Pad], code);
      assert [Pad] + [Pad] == [Pad, Pad] && [Pad, Pad] + [Pad] == [Pad, Pad, Pad];
    }
  }

  /** Messages of a phase the flavor does not target are the conformant ones. */
  lemma UntargetedPhaseIsConformant(spec: EmitSpec, f: Flavor, chaddr: Mac, mac: Mac, sums: Checksums)
    requires !Targets(f, spec.phase)
    ensures Frame(Effective(spec, f, chaddr), mac, sums) == Frame(Conformant(spec, chaddr), mac, sums)
  {}

  // ---------- Where a flavor shows ----------

  /** One of the five messages the client sends. */
  predicate IsMessage(spec: EmitSpec) {
    match spec.phase
    case Discover => spec == DiscoverSpec(spec.xid)
    case Selecting => spec == SelectingSpec(spec.xid, spec.requested, spec.serverId)
    case Renewing => spec == RenewingSpec(spec.xid, spec.ciaddr, spec.l3Dst)
    case Rebinding => spec == RebindingSpec(spec.xid, spec.ciaddr)
    case Decline => spec == DeclineSpec(spec.xid, spec.requested, spec.serverId)
  }

  /** The field already holds what the flavor would write into it. */
  predicate Inert(spec: EmitSpec, f: Flavor) {
    match f
    case RequestCiaddrNonzero => spec.requested == ZERO
    case RequestServerIdCorrupt => spec.serverId == Sentinel(54)
    case RequestRequestedIpCorrupt | DeclineRequestedIpWrong => spec.requested == Sentinel(50)
    case ReacqRequestCiaddrWrong => spec.ciaddr == Sentinel(11)
    case RenewingRequestDstWrong => spec.l3Dst == Sentinel(9)
    case _ => false
  }

  lemma LowBit(x: nat, y: nat)
    requires x < 2
    ensures (x + 2 * y) % 2 == x
  {}

  lemma XorLowBit(a: nat, b: nat, bits: nat)
    requires bits > 0
    ensures XorBits(a, b, bits) % 2 == (a + b) % 2
  {
    LowBit((a + b) % 2, XorBits(a / 2, b / 2, bits - 1));
  }

  lemma OddChangesParity(a: nat, b: nat)
    requires b % 2 == 1
    ensures (a + b) % 2 != a % 2
  {}

  /** An odd mask changes a byte. */
  lemma XorFlips(b: uint8, mask: uint8)
    requires mask % 2 == 1
    ensures Xor(b, mask) != b
  {
    XorLowBit(b, mask, 8);
    OddChangesParity(b, mask);
  }

  lemma EffectiveDiffers(spec: EmitSpec, f: Flavor, chaddr: Mac)
    requires IsMessage(spec)
    ensures Effective(spec, f, chaddr) == Conformant(spec, chaddr) <==> !Targets(f, spec.phase) || Inert(spec, f)
  {
    XorFlips(spec.xid[0], 0xA5);
    XorFlips(chaddr[0], 0xFF);
    assert XorQuad(spec.xid, 0xA5)[0] != spec.xid[0];
    assert ([Xor(chaddr[0], 0xFF)] + chaddr[1..])[0] != chaddr[0];
  }

  /** A flavor shows on the wire exactly on the messages it is for, unless the field happens to hold its value already:
      on these the frame differs from the conformant one, on all others it is the same. */
  lemma FlavorShowsExactlyOnTarget(spec: EmitSpec, f: Flavor, chaddr: Mac, mac: Mac, sums: Checksums)
    requires IsMessage(spec)
    ensures Frame(Effective(spec, f, chaddr), mac, sums) == Frame(Conformant(spec, chaddr), mac, sums)
      <==> !Targets(f, spec.phase) || Inert(spec, f)
  {
    EffectiveDiffers(spec, f, chaddr);
    if Frame(Effective(spec, f, chaddr), mac, sums) == Frame(Conformant(spec, chaddr), mac, sums) {
      FrameDetermines(Conformant(spec, chaddr), Effective(spec, f, chaddr), mac, sums);
    }
  }

  /** The header of a corrupted message differs from the conformant one only in the flavor's slot and
      in the length and checksum fields. */
  lemma HeadersDifferOnlyInSlot(spec: EmitSpec, f: Flavor, chaddr: Mac, mac: Mac, sums: Checksums, i: nat)
    requires i < OPTIONS_AT && !Volatile(i) && !InSlot(SlotOf(f), i)
    ensures var good, bad := Frame(Conformant(spec, chaddr), mac, sums), Frame(Effective(spec, f, chaddr), mac, sums);
            |good| > i && |bad| > i && bad[i] == good[i]
  {
    var w, w' := Conformant(spec, chaddr), Effective(spec, f, chaddr);
    EffectiveAgrees(spec, f, chaddr);
    FrameHeaderByte(w, mac, sums, i);
    FrameHeaderByte(w', mac, sums, i);
    HeaderBytesAgree(w, w', SlotOf(f), mac, i);
  }

  lemma HeaderBytesAgree(w: Wire, w': Wire, slot: Slot, mac: Mac, i: nat)
    requires AgreeExcept(w, w', slot) && !InSlot(slot, i)
    ensures HeaderByte(w', mac, i) == HeaderByte(w, mac, i)
  {
    if 70 < i < 76 {
      assert w'.chaddr[i - 70] == w'.chaddr[1..][i - 71] == w.chaddr[i - 70];
    } else if 278 < i < 282 {
      assert w'.cookie[i - 278] == w'.cookie[1..][i - 279] == w.cookie[i - 278];
    }
  }

  /** As a receiver reads them, the options differ at most in the flavor's one option. */
  lemma OptionsDifferOnlyInSlot(spec: EmitSpec, f: Flavor, chaddr: Mac, mac: Mac, sums: Checksums)
    ensures var good, bad := Frame(Conformant(spec, chaddr), mac, sums), Frame(Effective(spec, f, chaddr), mac, sums);
            && |good| >= OPTIONS_AT && |bad| >= OPTIONS_AT
            && Others(Fields(bad[OPTIONS_AT..]), SlotCode(SlotOf(f))) == Others(Fields(good[OPTIONS_AT..]), SlotCode(SlotOf(f)))
            && (SlotCode(SlotOf(f)).None? && !SlotOf(f).EndSlot? ==> bad[OPTIONS_AT..] == good[OPTIONS_AT..])
  {
    var w, w' := Conformant(spec, chaddr), Effective(spec, f, chaddr);
    EffectiveAgrees(spec, f, chaddr);
    FramePieces(w, mac, sums);
    FramePieces(w', mac, sums);
    FieldsOfArea(w);
    FieldsOfArea(w');
    AreasAgree(w, w', SlotOf(f));
  }

  lemma AreasAgree(w: Wire, w': Wire, slot: Slot)
    requires AgreeExcept(w, w', slot)
    ensures Others(AreaFields(w'), SlotCode(slot)) == Others(AreaFields(w), SlotCode(slot))
    ensures SlotCode(slot).None? && !slot.EndSlot? ==> OptionArea(w') == OptionArea(w)
  {
    OthersOfArea(w, SlotCode(slot));
    OthersOfArea(w', SlotCode(slot));
  }

  // ---------- What a flavor puts on the wire ----------

  /** The bytes a header flavor leaves in the frame. */
  predicate HeaderShows(f: Flavor, spec: EmitSpec, chaddr: Mac, fr: Bytes)
    requires |fr| >= 282
  {
    match f
    case DiscoverMagicCookieCorrupt => fr[278..282] == [0x00, 0x82, 0x53, 0x63]
    case DiscoverReservedFlagsSet => fr[52..54] == [0, 2]
    case DiscoverDstUnicast | RequestDstUnicast => fr[30..34] == [192, 0, 2, 1]
    case RenewingRequestDstWrong => fr[30..34] == [192, 0, 2, 9]
    case RebindingDstUnicast => fr[30..34] == [192, 0, 2, 12]
    case DiscoverSrcNonzero | RequestSrcNonzero => fr[26..30] == [192, 0, 2, 2]
    case RequestCiaddrNonzero => fr[54..58] == spec.requested
    case DiscoverCiaddrNonzero | ReacqRequestCiaddrWrong => fr[54..58] == [192, 0, 2, 11]
    case RequestSecsMismatch => fr[50..52] == [0x42, 0x42]
    case RequestXidMismatch => fr[46..50] == [Xor(spec.xid[0], 0xA5), Xor(spec.xid[1], 0xA5), Xor(spec.xid[2], 0xA5), Xor(spec.xid[3], 0xA5)]
    case DiscoverChaddrMismatch => fr[70..76] == [255 - chaddr[0]] + chaddr[1..]
    case _ => true
  }

  /** What an option flavor leaves in the options: the type missing, another address or parameter list, or a pad where the
      end mark belongs. */
  predicate OptionsShow(f: Flavor, opts: Bytes) {
    match f
    case DiscoverOmitMessageType | RequestOmitMessageType => Find(opts, 53) == None
    case RequestServerIdCorrupt | ReacqRequestIncludeServerId => Find(opts, 54) == Some([192, 0, 2, 54])
    case RequestRequestedIpCorrupt | ReacqRequestIncludeRequestedIp | DeclineRequestedIpWrong => Find(opts, 50) == Some([192, 0, 2, 50])
    case RequestParamListMismatch => Find(opts, 55) == Some([0xFE, 3, 6, 15])
    case DiscoverDropEnd => opts != [] && opts[|opts| - 1] == 0
    case _ => true
  }

  lemma {:induction false} XorOnes(a: nat, bits: nat)
    requires a < Weight(bits)
    ensures XorBits(a, Weight(bits) - 1, bits) == Weight(bits) - 1 - a
    decreases bits
  {
    if bits > 0 {
      OddMask(a, Weight(bits - 1));
      XorOnes(a / 2, bits - 1);
    }
  }

  lemma OddMask(a: nat, v: nat)
    requires a < 2 * v
    ensures (2 * v - 1) / 2 == v - 1 && a / 2 < v && (a + (2 * v - 1)) % 2 + 2 * (v - 1 - a / 2) == 2 * v - 1 - a
  {
    var h, low := a / 2, a % 2;
    assert a == 2 * h + low;
    assert a + (2 * v - 1) == 2 * (h + v - 1) + (low + 1);
  }

  lemma Complement(b: uint8)
    ensures Xor(b, 0xFF) == 255 - b
  {
    assert Weight(8) == 256;
    XorOnes(b, 8);
  }

  lemma FieldsHold(spec: EmitSpec, f: Flavor, chaddr: Mac, fr: Bytes)
    requires Targets(f, spec.phase) && |fr| >= 282
    requires var w := Effective(spec, f, chaddr);
      && fr[26..30] == w.l3Src && fr[30..34] == w.l3Dst && fr[46..50] == w.xid && fr[50..52] == w.secs && fr[52..54] == w.flags
      && fr[54..58] == w.ciaddr && fr[70..76] == w.chaddr && fr[278..282] == w.cookie
    ensures HeaderShows(f, spec, chaddr, fr)
  {
    Complement(chaddr[0]);
  }

  lemma OptionsHold(spec: EmitSpec, f: Flavor, chaddr: Mac)
    requires Targets(f, spec.phase)
    ensures OptionsShow(f, OptionArea(Effective(spec, f, chaddr)))
  {
    var w := Effective(spec, f, chaddr);
    FieldsOfArea(w);
    LookupArea(w, 53);
    LookupArea(w, 54);
    LookupArea(w, 50);
    LookupArea(w, 55);
  }

  /** On a message of its phase a flavor leaves exactly its own bytes in its own place. */
  lemma FlavorPutsItsBytes(spec: EmitSpec, f: Flavor, chaddr: Mac, mac: Mac, sums: Checksums)
    requires Targets(f, spec.phase)
    ensures var fr := Frame(Effective(spec, f, chaddr), mac, sums);
      |fr| >= 282 && HeaderShows(f, spec, chaddr, fr) && OptionsShow(f, fr[282..])
  {
    var w := Effective(spec, f, chaddr);
    FrameFields(w, mac, sums);
    FieldsHold(spec, f, chaddr, Frame(w, mac, sums));
    OptionsHold(spec, f, chaddr);
  }
}
