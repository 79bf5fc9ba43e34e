/**
 The DHCP option area: the walker that looks up one option, the fields it can see in arbitrary
 bytes, and the encoding it undoes. Option overload (section 9.3 of RFC 2132) is the one place
 where several areas are read.
 */
module DhcpOptions {
  import opened Wrappers

  type uint8 = x: int | 0 <= x < 0x100
  type Bytes = seq<uint8>

  const PAD: uint8 := 0x00
  const END: uint8 := 0xFF

  const OPT_ROUTER: uint8 := 3
  const OPT_REQUESTED_IP: uint8 := 50
  const OPT_LEASE_TIME: uint8 := 51
  const OPT_OVERLOAD: uint8 := 52
  const OPT_MESSAGE_TYPE: uint8 := 53
  const OPT_SERVER_ID: uint8 := 54
  const OPT_PARAMETER_LIST: uint8 := 55

  datatype Field = Pad | Tlv(code: uint8, value: Bytes)

  // ---------- The fields of arbitrary bytes ----------

  /** The fields before END, before the end of the area, or before a field that does not fit. */
  function Fields(b: Bytes): seq<Field> {
    if b == [] || b[0] == END then []
    else if b[0] == PAD then [Pad] + Fields(b[1..])
    else if |b| < 2 || 2 + b[1] > |b| then []
    else [Tlv(b[0], b[2..2 + b[1]])] + Fields(b[2 + b[1]..])
  }

  /** First match in a list of fields. */
  function Lookup(fs: seq<Field>, code: uint8): Option<Bytes> {
    if fs == [] then None
    else if fs[0].Tlv? && fs[0].code == code then Some(fs[0].value)
    else Lookup(fs[1..], code)
  }

  function Prefix(v: Bytes, cap: nat): Bytes {
    if |v| <= cap then v else v[..cap]
  }

  /** First match among the fields of an area. */
  function Find(b: Bytes, code: uint8): Option<Bytes> {
    Lookup(Fields(b), code)
  }

  /** The walker. On any bytes it stops within the area and returns the first match among the fields
      it can see, cut to the caller's capacity. */
  method FindDhcpOption(opts: Bytes, code: uint8, cap: nat) returns (found: bool, value: Bytes)
    ensures match Find(opts, code)
            case Some(v) => found && value == Prefix(v, cap)
            case None => !found && value == []
  {
    ghost var target := Find(opts, code);
    found, value := false, [];
    var i := 0;
    assert opts[0..] == opts;
    while i < |opts|
      invariant 0 <= i <= |opts|
      invariant target == Find(opts[i..], code)
    {
      ghost var rest := opts[i..];
      var c := opts[i];
      if c == END { FindAtStop(rest, code); return; }
      if c == PAD {
        FindPastPad(rest, code);
        assert rest[1..] == opts[i + 1..];
        i := i + 1;
        continue;
      }
      if i + 1 >= |opts| { FindAtStop(rest, code); return; }
      var l := opts[i + 1];
      if i + 2 + l > |opts| { FindAtStop(rest, code); return; }
      FindPastTlv(rest, code);
      assert rest[2..2 + l] == opts[i + 2..i + 2 + l] && rest[2 + l..] == opts[i + 2 + l..];
      if c == code {
        return true, Prefix(opts[i + 2..i + 2 + l], cap);
      }
      i := i + 2 + l;
    }
    FindAtStop(opts[i..], code);
  }

  lemma FindAtStop(b: Bytes, code: uint8)
    requires IsStop(b)
    ensures Find(b, code) == None
  {}

  lemma FindPastPad(b: Bytes, code: uint8)
    requires b != [] && b[0] == PAD
    ensures Find(b, code) == Find(b[1..], code)
  {
    assert Fields(b)[1..] == Fields(b[1..]);
  }

  lemma FindPastTlv(b: Bytes, code: uint8)
    requires |b| >= 2 && b[0] != PAD && b[0] != END && 2 + b[1] <= |b|
    ensures Find(b, code) == if b[0] == code then Some(b[2..2 + b[1]]) else Find(b[2 + b[1]..], code)
  {
    assert Fields(b)[1..] == Fields(b[2 + b[1]..]);
  }

  // ---------- The encoding ----------

  predicate Encodable(f: Field) {
    f.Tlv? ==> f.code != PAD && f.code != END && |f.value| < 0x100
  }

  function EncodeField(f: Field): Bytes
    requires Encodable(f)
  {
    match f
    case Pad => [PAD]
    case Tlv(c, v) => [c, |v|] + v
  }

  predicate AllEncodable(fs: seq<Field>) {
    forall f | f in fs :: Encodable(f)
  }

  function Encode(fs: seq<Field>): Bytes
    requires AllEncodable(fs)
  {
    if fs == [] then [] else EncodeField(fs[0]) + Encode(fs[1..])
  }

  /** What may follow the last field: nothing, or END and anything after it. */
  predicate IsTail(t: Bytes) {
    t == [] || t[0] == END
  }

  /** Where the walker stops: at a tail, or at a field cut off by the end of the area. */
  predicate IsStop(t: Bytes) {
    IsTail(t) || (t[0] != PAD && (|t| < 2 || 2 + t[1] > |t|))
  }

  lemma ConcatAssociates<T>(a: seq<T>, b: seq<T>, c: seq<T>)
    ensures (a + b) + c == a + (b + c)
  {}

  lemma EncodeCons(f: Field, fs: seq<Field>)
    requires Encodable(f) && AllEncodable(fs)
    ensures AllEncodable([f] + fs) && Encode([f] + fs) == EncodeField(f) + Encode(fs)
  {
    assert ([f] + fs)[1..] == fs;
  }

  lemma FieldsCons(f: Field, rest: Bytes)
    requires Encodable(f)
    ensures Fields(EncodeField(f) + rest) == [f] + Fields(rest)
  {
    var b := EncodeField(f) + rest;
    match f {
      case Pad =>
        assert b[1..] == rest;
      case Tlv(c, v) =>
        assert b[0] == c && b[1] == |v| && b[2..2 + |v|] == v && b[2 + |v|..] == rest;
    }
  }

  /** Reading back an encoding, with PADs anywhere in it, gives the fields that were encoded. */
  lemma {:induction false} FieldsOfEncoding(fs: seq<Field>, tail: Bytes)
    requires AllEncodable(fs) && IsTail(tail)
    ensures Fields(Encode(fs) + tail) == fs
  {
    if fs == [] {
      assert Encode(fs) + tail == tail;
    } else {
      var head, more := EncodeField(fs[0]), Encode(fs[1..]);
      ConcatAssociates(head, more, tail);
      FieldsCons(fs[0], more + tail);
      FieldsOfEncoding(fs[1..], tail);
    }
  }

  /** Bytes that do not stop begin with the encoding of their first field. */
  lemma FirstField(b: Bytes) returns (f: Field, rest: Bytes)
    requires !IsStop(b)
    ensures Encodable(f) && b == EncodeField(f) + rest && |rest| < |b|
  {
    if b[0] == PAD {
      f, rest := Pad, b[1..];
    } else {
      f, rest := Tlv(b[0], b[2..2 + b[1]]), b[2 + b[1]..];
    }
  }

  /** Conversely every byte string is the encoding of the fields seen in it, followed by a stop. */
  lemma {:induction false} EncodingOfFields(b: Bytes) returns (rest: Bytes)
    ensures AllEncodable(Fields(b))
    ensures IsStop(rest) && b == Encode(Fields(b)) + rest
    decreases |b|
  {
    if IsStop(b) {
      rest := b;
      assert Fields(b) == [] && b == [] + b;
    } else {
      var f, b' := FirstField(b);
      FieldsCons(f, b');
      rest := EncodingOfFields(b');
      EncodeCons(f, Fields(b'));
      ConcatAssociates(EncodeField(f), Encode(Fields(b')), rest);
    }
  }

  /** PAD and END are never found: they frame the fields. */
  lemma FramingCodesAreNeverFound(b: Bytes)
    ensures Find(b, PAD) == None && Find(b, END) == None
  {
    var _ := EncodingOfFields(b);
    LookupIsMember(Fields(b), PAD);
    LookupIsMember(Fields(b), END);
  }

  lemma {:induction false} LookupIsMember(fs: seq<Field>, code: uint8)
    ensures Lookup(fs, code).Some? ==> Tlv(code, Lookup(fs, code).value) in fs
    ensures Lookup(fs, code).None? ==> forall f | f in fs && f.Tlv? :: f.code != code
  {
    if fs != [] {
      LookupIsMember(fs[1..], code);
      assert fs == [fs[0]] + fs[1..];
    }
  }

  // ---------- Option overload ----------

  const BOOTP_FIXED: nat := 240
  const SNAME_AT: nat := 44
  const FILE_AT: nat := 108

  /** The first four bytes of an area's Router option, when it has one that long. */
  function RouterIn(area: Bytes): (r: Option<Bytes>)
    ensures r.Some? ==> |r.value| == 4
  {
    match Find(area, OPT_ROUTER)
    case Some(v) => if |v| >= 4 then Some(v[..4]) else None
    case None => None
  }

  /** The areas a reply spreads its options over, in the order they are read. */
  function Areas(body: Bytes): (areas: seq<Bytes>)
    requires |body| >= BOOTP_FIXED
  {
    var opts := body[BOOTP_FIXED..];
    match Find(opts, OPT_OVERLOAD)
    case None => [opts]
    case Some(v) =>
      if v == [] then [opts]
      else [opts] + (if v[0] % 2 == 1 then [body[FILE_AT..FILE_AT + 128]] else [])
                  + (if v[0] / 2 % 2 == 1 then [body[SNAME_AT..SNAME_AT + 64]] else [])
  }

  /** The last area that has a router decides. */
  function LastRouter(areas: seq<Bytes>): (r: Option<Bytes>)
    ensures r.Some? ==> |r.value| == 4
  {
    if areas == [] then None
    else
      var last := RouterIn(areas[|areas| - 1]);
      if last.Some? then last else LastRouter(areas[..|areas| - 1])
  }

  method ExtractRouterFrom(area: Bytes, current: Bytes) returns (router: Bytes)
    ensures router == match RouterIn(area) case Some(r) => r case None => current
  {
    var found, value := FindDhcpOption(area, OPT_ROUTER, 4);
    router := if found && |value| == 4 then value else current;
  }

  /** The router of a reply: zero unless some area names one, and then the last area that does,
      in the order options, file, sname. */
  method ExtractRouter(body: Bytes) returns (router: Bytes)
    requires |body| >= BOOTP_FIXED
    ensures router == match LastRouter(Areas(body)) case Some(r) => r case None => [0, 0, 0, 0]
  {
    var opts := body[BOOTP_FIXED..];
    ghost var seen := [opts];
    LastRouterSnoc([], opts);
    router := ExtractRouterFrom(opts, [0, 0, 0, 0]);
    var found, overload := FindDhcpOption(opts, OPT_OVERLOAD, 1);
    if found && |overload| == 1 {
      if overload[0] % 2 == 1 {
        LastRouterSnoc(seen, body[FILE_AT..FILE_AT + 128]);
        seen := seen + [body[FILE_AT..FILE_AT + 128]];
        router := ExtractRouterFrom(body[FILE_AT..FILE_AT + 128], router);
      }
      if overload[0] / 2 % 2 == 1 {
        LastRouterSnoc(seen, body[SNAME_AT..SNAME_AT + 64]);
        seen := seen + [body[SNAME_AT..SNAME_AT + 64]];
        router := ExtractRouterFrom(body[SNAME_AT..SNAME_AT + 64], router);
      }
    }
    assert seen == Areas(body);
  }

  lemma LastRouterSnoc(areas: seq<Bytes>, area: Bytes)
    ensures LastRouter(areas + [area]) == if RouterIn(area).Some? then RouterIn(area) else LastRouter(areas)
  {
    assert (areas + [area])[..|areas|] == areas;
  }

  /** The router of an area is the first four bytes of its option 3, if that is as long. */
  lemma RouterIsOption3(area: Bytes)
    ensures RouterIn(area) == if Find(area, 3).Some? && |Find(area, 3).value| >= 4 then Some(Find(area, 3).value[..4]) else None
  {}

  /** A router is taken from the last of the areas that has one. */
  lemma {:induction false} RouterIsTheLast(areas: seq<Bytes>) returns (i: nat)
    requires LastRouter(areas).Some?
    ensures i < |areas| && RouterIn(areas[i]) == LastRouter(areas)
    ensures forall k | i < k < |areas| :: RouterIn(areas[k]) == None
  {
    i := |areas| - 1;
    if RouterIn(areas[i]).None? {
      var n := i;
      i := RouterIsTheLast(areas[..n]);
      assert areas[..n][i] == areas[i];
      forall k | i < k < |areas| ensures RouterIn(areas[k]) == None {
        if k < n {
          assert areas[..n][k] == areas[k];
        }
      }
    }
  }

  /** And none is taken exactly if none of them has one. */
  lemma {:induction false} NoRouter(areas: seq<Bytes>)
    ensures LastRouter(areas) == None <==> forall k | 0 <= k < |areas| :: RouterIn(areas[k]) == None
  {
    if areas != [] {
      var n := |areas| - 1;
      NoRouter(areas[..n]);
      assert areas == areas[..n] + [areas[n]];
      if forall k | 0 <= k < n :: RouterIn(areas[..n][k]) == None {
        assert forall k | 0 <= k < n :: areas[..n][k] == areas[k];
      }
    }
  }

  // ---------- The message type ----------

  /** The message type of an option area: the first byte of its option 53, of whatever length. */
  method MessageType(opts: Bytes) returns (t: Option<uint8>)
    ensures match Find(opts, OPT_MESSAGE_TYPE)
            case Some(v) => t == if v == [] then None else Some(v[0])
            case None => t == None
  {
    var found, value := FindDhcpOption(opts, OPT_MESSAGE_TYPE, 1);
    t := if found && |value| == 1 then Some(value[0]) else None;
  }
}
