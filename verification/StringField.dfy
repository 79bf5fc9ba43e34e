/**
 The dynamic UTF-8 string field: its wire form (a 32-bit length, the byte-order mark, the characters, one NUL) and the
 rule for setting, reading, notifying and resetting it. Characters are bytes.
 */
module StringField {
  import opened Wrappers

  type uint8 = x: int | 0 <= x < 256
  type Bytes = seq<uint8>

  const WORD: int := 0x1_0000_0000

  // ---------- The wire form ----------

  function BigEndian(n: int): Bytes
    requires 0 <= n < WORD
  {
    [n / 256 / 256 / 256, n / 256 / 256 % 256, n / 256 % 256, n % 256]
  }

  /** One byte shifted in from the right. */
  function Shift(x: int, y: uint8): int {
    x * 256 + y
  }

  function FromBigEndian(b: Bytes): int
    requires |b| == 4
  {
    Shift(Shift(Shift(b[0], b[1]), b[2]), b[3])
  }

  const BOM: Bytes := [0xEF, 0xBB, 0xBF]

  /** The payload of a string. The length counts everything after itself, in 32 bits. */
  function Encode(chars: Bytes): Bytes {
    BigEndian((|chars| + 4) % WORD) + BOM + chars + [0]
  }

  predicate NulFree(chars: Bytes) {
    forall i | 0 <= i < |chars| :: chars[i] != 0
  }

  predicate Encodable(chars: Bytes) {
    NulFree(chars) && |chars| + 4 < WORD
  }

  /** The string a payload carries, if it is the encoding of one. */
  ghost function Carried(p: Bytes): (r: Option<Bytes>)
    ensures r.Some? ==> Encodable(r.value) && Encode(r.value) == p
    ensures r.None? ==> forall s: Bytes | Encodable(s) :: Encode(s) != p
  {
    if s: Bytes :| Encodable(s) && Encode(s) == p then Some(s) else None
  }

  lemma ShiftSplits(x: int, y: uint8)
    ensures Shift(x, y) / 256 == x && Shift(x, y) % 256 == y
  {}

  lemma ShiftJoins(n: int)
    ensures Shift(n / 256, n % 256) == n
  {}

  lemma BigEndianRoundTrip(n: int)
    requires 0 <= n < WORD
    ensures FromBigEndian(BigEndian(n)) == n
  {
    ShiftJoins(n);
    ShiftJoins(n / 256);
    ShiftJoins(n / 256 / 256);
  }

  lemma BigEndianIsUnique(b: Bytes)
    requires |b| == 4
    ensures 0 <= FromBigEndian(b) < WORD && BigEndian(FromBigEndian(b)) == b
  {
    ShiftSplits(b[0], b[1]);
    ShiftSplits(Shift(b[0], b[1]), b[2]);
    ShiftSplits(Shift(Shift(b[0], b[1]), b[2]), b[3]);
  }

  /** The payload byte by byte: the count of what follows it, high byte first, the byte-order mark, the characters, a NUL. */
  lemma PayloadLayout(s: Bytes)
    requires |s| + 4 < 0x1_0000_0000
    ensures var p := Encode(s);
      && |p| == |s| + 8 && Count(p[0], p[1], p[2], p[3]) == |p| - 4
      && p[4] == 0xEF && p[5] == 0xBB && p[6] == 0xBF && p[7..7 + |s|] == s && p[7 + |s|] == 0
  {
    var n := |s| + 4;
    Fits(n);
    BigEndianRoundTrip(n);
    assert Encode(s)[..4] == BigEndian(n);
  }

  function Count(a: int, b: int, c: int, d: int): int {
    ((a * 256 + b) * 256 + c) * 256 + d
  }

  /** A payload determines its string, encodable or not: nothing but the length is ever reduced. */
  lemma EncodeIsInjective(s: Bytes, t: Bytes)
    requires Encode(s) == Encode(t)
    ensures s == t
  {
    assert |s| == |Encode(s)| - 8 && |t| == |Encode(t)| - 8;
    assert s == Encode(s)[7..7 + |s|];
    assert t == Encode(t)[7..7 + |t|];
  }

  /** Encoding and reading back is the identity exactly on strings without a NUL whose length leaves the 32-bit count
      intact; any other string's own encoding is malformed. */
  lemma RoundTrip(s: Bytes)
    ensures Carried(Encode(s)) == Some(s) <==> Encodable(s)
    ensures !Encodable(s) ==> Carried(Encode(s)) == None
  {
    if Carried(Encode(s)).Some? {
      EncodeIsInjective(s, Carried(Encode(s)).value);
    }
  }

  method EncodeUtf8Dynamic(chars: Bytes) returns (out: Bytes)
    ensures out == Encode(chars)
  {
    var body := (3 + |chars| + 1) % WORD;
    out := [];
    out := out + [body / 256 / 256 / 256];
    out := out + [body / 256 / 256 % 256];
    out := out + [body / 256 % 256];
    out := out + [body % 256];
    assert out == BigEndian(body);
    out := out + [0xEF, 0xBB, 0xBF];
    out := out + chars;
    out := out + [0];
  }

  lemma EncodeFrom(head: Bytes, chars: Bytes)
    requires |chars| + 4 < WORD && head == BigEndian(|chars| + 4)
    ensures Encode(chars) == head + BOM + chars + [0]
  {
    Fits(|chars| + 4);
  }

  lemma Fits(n: nat)
    requires n < WORD
    ensures n % WORD == n
  {}

  /** What the checks before the scan establish: all but the NUL-freedom of the middle. */
  lemma Framed(p: Bytes)
    requires |p| >= 8 && FromBigEndian(p[..4]) == |p| - 4 && p[4..7] == BOM && p[|p| - 1] == 0
    ensures |p| - 4 < WORD && Encode(p[7..|p| - 1]) == p
  {
    var head, chars := p[..4], p[7..|p| - 1];
    BigEndianIsUnique(head);
    EncodeFrom(head, chars);
    assert p == head + p[4..7] + chars + [p[|p| - 1]];
  }

  /** Decoding is the inverse of encoding on well-formed payloads and refuses every other. */
  method DecodeUtf8Dynamic(p: Bytes) returns (r: Option<Bytes>)
    ensures r == Carried(p)
  {
    if |p| < 8 { return None; }
    var body := FromBigEndian(p[..4]);
    if body != |p| - 4 {
      Unframed(p);
      return None;
    }
    if p[4] != 0xEF || p[5] != 0xBB || p[6] != 0xBF {
      Unframed(p);
      return None;
    }
    if p[|p| - 1] != 0 {
      Unframed(p);
      return None;
    }
    assert p[4..7] == BOM;
    FramedCarries(p);
    var i := 7;
    while i < |p| - 1
      invariant 7 <= i <= |p| - 1
      invariant forall k | 7 <= k < i :: p[k] != 0
    {
      if p[i] == 0 { return None; }
      i := i + 1;
    }
    return Some(p[7..|p| - 1]);
  }

  /** A framed payload carries its middle exactly if that has no NUL, and else nothing. */
  lemma FramedCarries(p: Bytes)
    requires |p| >= 8 && FromBigEndian(p[..4]) == |p| - 4 && p[4..7] == BOM && p[|p| - 1] == 0
    ensures (forall k | 7 <= k < |p| - 1 :: p[k] != 0) ==> Carried(p) == Some(p[7..|p| - 1])
    ensures (exists k | 7 <= k < |p| - 1 :: p[k] == 0) ==> Carried(p) == None
  {
    var mid := p[7..|p| - 1];
    Framed(p);
    RoundTrip(mid);
    if k :| 7 <= k < |p| - 1 && p[k] == 0 {
      assert mid[k - 7] == 0;
    }
  }

  /** A payload that carries a string passes every check before the scan. */
  lemma Unframed(p: Bytes)
    ensures Carried(p).Some? ==>
      && |p| >= 8 && FromBigEndian(p[..4]) == |p| - 4 && p[4] == 0xEF && p[5] == 0xBB && p[6] == 0xBF && p[|p| - 1] == 0
  {
    if Carried(p).Some? {
      var s := Carried(p).value;
      var n := |s| + 4;
      var head := BigEndian(n);
      EncodeFrom(head, s);
      assert p[..4] == head;
      BigEndianRoundTrip(n);
    }
  }

  // ---------- The field ----------

  datatype Reply = Response(payload: Bytes) | MalformedMessage

  class Utf8DynamicField {
    var value: Bytes
    var notified: seq<Bytes>

    constructor (initial: Bytes)
      ensures value == initial && notified == []
    {
      value, notified := initial, [];
    }

    method Get() returns (reply: Reply)
      ensures reply == Response(Encode(value))
    {
      var payload := EncodeUtf8Dynamic(value);
      return Response(payload);
    }

    /** A well-formed request stores and answers its string, and notifies exactly if that changes the value; a malformed
        one changes and notifies nothing. */
    method Set(request: Bytes) returns (reply: Reply)
      modifies this
      ensures Field(value, notified) == AfterSet(Field(old(value), old(notified)), Carried(request))
      ensures reply == if Carried(request).None? then MalformedMessage else Response(request)
    {
      var chars := DecodeUtf8Dynamic(request);
      if chars.None? { return MalformedMessage; }
      if chars.value != value {
        value := chars.value;
        var note := EncodeUtf8Dynamic(value);
        notified := notified + [note];
      }
      var payload := EncodeUtf8Dynamic(value);
      return Response(payload);
    }

    method Reset(v: Bytes)
      modifies this
      ensures value == v && notified == old(notified)
    {
      value := v;
    }
  }

  // ---------- Any sequence of sets ----------

  datatype FieldState = Field(value: Bytes, notified: seq<Bytes>)

  function AfterSet(f: FieldState, chars: Option<Bytes>): FieldState {
    if chars.None? || chars.value == f.value then f else Field(chars.value, f.notified + [Encode(chars.value)])
  }

  ghost function AfterSets(f: FieldState, requests: seq<Bytes>): FieldState {
    if requests == [] then f else AfterSet(AfterSets(f, requests[..|requests| - 1]), Carried(requests[|requests| - 1]))
  }

  /** The strings of the well-formed requests, in order. */
  ghost function Accepted(requests: seq<Bytes>): seq<Bytes> {
    if requests == [] then []
    else
      var r := Carried(requests[|requests| - 1]);
      Accepted(requests[..|requests| - 1]) + if r.Some? then [r.value] else []
  }

  /** A sequence without its immediate repetitions. */
  function Destutter(xs: seq<Bytes>): (r: seq<Bytes>)
    ensures xs != [] ==> r != [] && r[|r| - 1] == xs[|xs| - 1]
    ensures forall i | 0 < i < |r| :: r[i] != r[i - 1]
  {
    if |xs| <= 1 then xs
    else
      var n := |xs| - 1;
      if xs[n] == xs[n - 1] then Destutter(xs[..n]) else Destutter(xs[..n]) + [xs[n]]
  }

  function EncodeAll(xs: seq<Bytes>): seq<Bytes> {
    seq(|xs|, i requires 0 <= i < |xs| => Encode(xs[i]))
  }

  /** The state of a field that has taken on these values in turn, announcing each but the first. */
  function Having(values: seq<Bytes>): FieldState
    requires values != []
  {
    Field(values[|values| - 1], EncodeAll(values[1..]))
  }

  lemma SetTakesOn(values: seq<Bytes>, x: Bytes)
    requires values != []
    ensures AfterSet(Having(values), Some(x)) == if x == values[|values| - 1] then Having(values) else Having(values + [x])
  {
    assert EncodeAll((values + [x])[1..]) == EncodeAll(values[1..]) + [Encode(x)];
  }

  lemma SetChanges(xs: seq<Bytes>, x: Bytes)
    requires xs != []
    ensures AfterSet(Having(Destutter(xs)), Some(x)) == Having(Destutter(xs + [x]))
  {
    DestutterSnoc(xs, x);
    SetTakesOn(Destutter(xs), x);
  }

  /** Over any sequence of sets, the notified payloads are those of the new stored values: the initial value followed by
      the accepted strings, without immediate repetitions and without the initial one. The value is the last of them. */
  lemma {:induction false} NotificationsAreTheChanges(initial: Bytes, requests: seq<Bytes>)
    ensures AfterSets(Field(initial, []), requests) == Having(Destutter([initial] + Accepted(requests)))
  {
    if requests == [] {
      assert [initial] + [] == [initial];
    } else {
      var was := requests[..|requests| - 1];
      NotificationsAreTheChanges(initial, was);
      var r := Carried(requests[|requests| - 1]);
      if r.Some? {
        var xs := [initial] + Accepted(was);
        assert [initial] + Accepted(requests) == xs + [r.value];
        SetChanges(xs, r.value);
      } else {
        assert Accepted(requests) == Accepted(was);
      }
    }
  }

  lemma DestutterSnoc(xs: seq<Bytes>, x: Bytes)
    requires xs != []
    ensures Destutter(xs + [x]) == if x == xs[|xs| - 1] then Destutter(xs) else Destutter(xs) + [x]
  {
    assert (xs + [x])[..|xs|] == xs;
  }
}
