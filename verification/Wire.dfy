/**
 * The protobuf wire reader of antigravity-usage.mjs, against the writer of the Protocol Buffers
 * Encoding guide ("Base 128 Varints", "Message Structure").
 */
module Wire {
  import opened Common

  type Byte = b: int | 0 <= b < 256

  function Pow2(k: nat): nat {
    if k == 0 then 1 else 2 * Pow2(k - 1)
  }

  /** `n` needs no more than this many bits. */
  predicate Fits(n: nat, bits: nat) {
    if bits == 0 then n == 0 else Fits(n / 2, bits - 1)
  }

  lemma {:induction false} FitsIs(n: nat, bits: nat)
    ensures Fits(n, bits) <==> n < Pow2(bits)
    decreases bits
  {
    if bits > 0 {
      FitsIs(n / 2, bits - 1);
    }
  }

  lemma {:induction false} ZeroFits(bits: nat)
    ensures Fits(0, bits)
    decreases bits
  {
    if bits > 0 {
      ZeroFits(bits - 1);
    }
  }

  lemma FitsTwo(n: nat, bits: nat)
    requires bits >= 2
    ensures Fits(n, bits) <==> Fits(n / 4, bits - 2)
  {
    assert n / 2 / 2 == n / 4;
    assert Fits(n, bits) <==> Fits(n / 2, bits - 1);
  }

  lemma FitsThree(n: nat, bits: nat)
    requires bits >= 3
    ensures Fits(n, bits) <==> Fits(n / 8, bits - 3)
  {
    FitsTwo(n, bits);
    assert n / 4 / 2 == n / 8;
  }

  lemma FitsFour(n: nat, bits: nat)
    requires bits >= 4
    ensures Fits(n, bits) <==> Fits(n / 16, bits - 4)
  {
    FitsTwo(n, bits);
    FitsTwo(n / 4, bits - 2);
    assert n / 4 / 4 == n / 16;
  }

  lemma FitsSeven(n: nat, bits: nat)
    requires bits >= 7
    ensures Fits(n, bits) <==> Fits(n / 128, bits - 7)
  {
    FitsFour(n, bits);
    FitsThree(n / 16, bits - 4);
    assert n / 16 / 8 == n / 128;
  }

  /** `v << k` */
  function ShiftLeft(v: nat, k: nat): nat {
    if k == 0 then v else 2 * ShiftLeft(v, k - 1)
  }

  /** The reader gives up when the next group would be shifted by more than this many bits. */
  const MAX_SHIFT: nat := 70

  datatype Read<T> = Overrun | TooLong | Got(value: T, end: nat)

  /** The varint at position `p`, `shift` bits into the number; `end` is the position after it. */
  function Varint(s: seq<Byte>, p: nat, shift: nat): (r: Read<nat>)
    requires p <= |s|
    ensures r.Got? ==> p < r.end <= |s|
    decreases |s| - p
  {
    if p == |s| then Overrun
    else if s[p] < 128 then Got(s[p], p + 1)
    else if shift + 7 > MAX_SHIFT then TooLong
    else
      match Varint(s, p + 1, shift + 7)
      case Got(v, end) => Got(s[p] - 128 + 128 * v, end)
      case e => e
  }

  /** What the groups read so far come to: `result`, with the rest of the number still to be read at `p`. */
  ghost predicate Partly(buf: seq<Byte>, pos: nat, p: nat, shift: nat, result: nat) {
    && pos <= p <= |buf|
    && Varint(buf, pos, 0) ==
       match Varint(buf, p, shift)
       case Got(v, end) => Got(result + ShiftLeft(v, shift), end)
       case e => e
  }

  /** What reading the byte at `p` comes to. */
  lemma ReadGroup(buf: seq<Byte>, pos: nat, p: nat, shift: nat, result: nat)
    requires Partly(buf, pos, p, shift, result) && p < |buf|
    ensures var more := result + ShiftLeft(buf[p] % 128, shift);
      if buf[p] < 128 then Varint(buf, pos, 0) == Got(more, p + 1)
      else if shift + 7 > MAX_SHIFT then Varint(buf, pos, 0) == TooLong
      else Partly(buf, pos, p + 1, shift + 7, more)
  {
    if buf[p] >= 128 && shift + 7 <= MAX_SHIFT {
      var rest := Varint(buf, p + 1, shift + 7);
      if rest.Got? {
        Carry(buf[p] - 128, rest.value, shift);
      }
    }
  }

  lemma {:induction false} Carry(group: nat, v: nat, shift: nat)
    ensures ShiftLeft(group + 128 * v, shift) == ShiftLeft(group, shift) + ShiftLeft(v, shift + 7)
    decreases shift
  {
    if shift == 0 {
      SevenUp(v);
    } else {
      Carry(group, v, shift - 1);
    }
  }

  lemma SevenUp(v: nat)
    ensures ShiftLeft(v, 7) == 128 * v
  {
    assert ShiftLeft(v, 1) == 2 * v;
    assert ShiftLeft(v, 3) == 8 * v;
    assert ShiftLeft(v, 5) == 32 * v;
  }

  /** A group of seven bits goes in above the bits read so far, so OR-ing it in is adding it. */
  lemma {:induction false} GroupFits(result: nat, group: nat, shift: nat)
    requires Fits(result, shift) && group < 128
    ensures Fits(result + ShiftLeft(group, shift), shift + 7)
    decreases shift
  {
    if shift == 0 {
      FitsSeven(group, 7);
    } else {
      GroupFits(result / 2, group, shift - 1);
      assert (result + ShiftLeft(group, shift)) / 2 == result / 2 + ShiftLeft(group, shift - 1);
    }
  }

  method ReadVarint(buf: seq<Byte>, pos: nat) returns (r: Read<nat>)
    requires pos <= |buf|
    ensures r == Varint(buf, pos, 0)
  {
    var result: nat, shift: nat, p: nat := 0, 0, pos;
    while true
      invariant Partly(buf, pos, p, shift, result) && Fits(result, shift)
      decreases |buf| - p
    {
      if p >= |buf| {
        return Overrun;
      }
      ReadGroup(buf, pos, p, shift, result);
      GroupFits(result, buf[p] % 128, shift);
      var b := buf[p];
      p := p + 1;
      result := result + ShiftLeft(b % 128, shift);
      if b < 128 {
        return Got(result, p);
      }
      shift := shift + 7;
      if shift > MAX_SHIFT {
        return TooLong;
      }
    }
  }

  // ---- Bytes in place ----

  /** `part` stands in `s` from position `p` on. */
  ghost predicate Stands(s: seq<Byte>, p: nat, part: seq<Byte>)
    decreases |part|
  {
    p + |part| <= |s| && (part == [] || (s[p] == part[0] && Stands(s, p + 1, part[1..])))
  }

  lemma StandsHead(s: seq<Byte>, p: nat, b: Byte, part: seq<Byte>)
    requires Stands(s, p, [b] + part)
    ensures p < |s| && s[p] == b && Stands(s, p + 1, part)
  {
    assert ([b] + part)[1..] == part;
  }

  lemma {:induction false} StandsBoth(s: seq<Byte>, p: nat, a: seq<Byte>, b: seq<Byte>)
    requires Stands(s, p, a + b)
    ensures Stands(s, p, a) && Stands(s, p + |a|, b)
    decreases |a|
  {
    if a == [] {
      assert a + b == b;
    } else {
      assert (a + b)[1..] == a[1..] + b;
      StandsBoth(s, p + 1, a[1..], b);
    }
  }

  lemma {:induction false} StandsIs(s: seq<Byte>, p: nat, part: seq<Byte>)
    requires Stands(s, p, part)
    ensures p + |part| <= |s| && s[p..p + |part|] == part
    decreases |part|
  {
    if part != [] {
      StandsIs(s, p + 1, part[1..]);
      assert part == [part[0]] + part[1..];
      assert s[p..p + |part|] == [s[p]] + s[p + 1..p + |part|];
    }
  }

  lemma {:induction false} StandsAll(part: seq<Byte>, s: seq<Byte>, p: nat)
    requires p <= |s| && s[p..] == part
    ensures Stands(s, p, part)
    decreases |part|
  {
    if part != [] {
      assert s[p + 1..] == part[1..];
      StandsAll(part[1..], s, p + 1);
    }
  }

  // ---- Writing varints ----

  /** The minimal encoding: seven bits a byte, low group first. */
  function Encode(n: nat): (s: seq<Byte>)
    ensures |s| >= 1
  {
    if n < 128 then [n] else [128 + n % 128] + Encode(n / 128)
  }

  /** Eleven groups of seven bits. */
  const VARINT_BITS: nat := 77

  lemma {:induction false} VarintGets(s: seq<Byte>, p: nat, n: nat, shift: nat, room: nat)
    requires Stands(s, p, Encode(n)) && Fits(n, room) && room + shift == VARINT_BITS && room % 7 == 0 && room > 0
    ensures Varint(s, p, shift) == Got(n, p + |Encode(n)|)
    decreases n
  {
    if n >= 128 {
      FitsSeven(n, room);
      StandsHead(s, p, 128 + n % 128, Encode(n / 128));
      VarintGets(s, p + 1, n / 128, shift + 7, room - 7);
    }
  }

  lemma {:induction false} VarintRefuses(s: seq<Byte>, p: nat, n: nat, shift: nat, room: nat)
    requires Stands(s, p, Encode(n)) && !Fits(n, room) && room + shift == VARINT_BITS && room % 7 == 0 && room > 0
    ensures Varint(s, p, shift) == TooLong
    decreases room
  {
    FitsSeven(n, room);
    ZeroFits(room);
    ZeroFits(room - 7);
    StandsHead(s, p, 128 + n % 128, Encode(n / 128));
    if room > 7 {
      VarintRefuses(s, p + 1, n / 128, shift + 7, room - 7);
    }
  }

  lemma VarintReadsBack(s: seq<Byte>, p: nat, n: nat)
    requires Stands(s, p, Encode(n))
    ensures Varint(s, p, 0) == if Fits(n, VARINT_BITS) then Got(n, p + |Encode(n)|) else TooLong
  {
    if Fits(n, VARINT_BITS) {
      VarintGets(s, p, n, 0, VARINT_BITS);
    } else {
      VarintRefuses(s, p, n, 0, VARINT_BITS);
    }
  }

  /**
   * Reading back what was written, wherever it stands, gives the number and the exact end - precisely
   * for numbers below 2^77.
   */
  lemma VarintRoundTrip(s: seq<Byte>, p: nat, n: nat)
    requires Stands(s, p, Encode(n))
    ensures Varint(s, p, 0) == if n < Pow2(VARINT_BITS) then Got(n, p + |Encode(n)|) else TooLong
  {
    FitsIs(n, VARINT_BITS);
    VarintReadsBack(s, p, n);
  }

  // ---- Fixed-width integers ----

  function LittleEndian(s: seq<Byte>, p: nat, width: nat): nat
    requires p + width <= |s|
    decreases width
  {
    if width == 0 then 0 else s[p] + 256 * LittleEndian(s, p + 1, width - 1)
  }

  function Fixed(n: nat, width: nat): (s: seq<Byte>)
    ensures |s| == width
  {
    if width == 0 then [] else [n % 256] + Fixed(n / 256, width - 1)
  }

  lemma FitsEight(n: nat, width: nat)
    requires width > 0
    ensures Fits(n, 8 * width) <==> Fits(n / 256, 8 * (width - 1))
  {
    FitsFour(n, 8 * width);
    FitsFour(n / 16, 8 * width - 4);
    assert n / 16 / 16 == n / 256;
  }

  /** A word written low byte first is read back from where it stands. */
  lemma {:induction false} FixedRoundTrip(s: seq<Byte>, p: nat, n: nat, width: nat)
    requires Stands(s, p, Fixed(n, width)) && Fits(n, 8 * width)
    ensures LittleEndian(s, p, width) == n
    decreases width
  {
    if width > 0 {
      FitsEight(n, width);
      StandsHead(s, p, n % 256, Fixed(n / 256, width - 1));
      FixedRoundTrip(s, p + 1, n / 256, width - 1);
    }
  }

  // ---- Messages ----

  datatype Value = Number(n: nat) | Fixed64(n: nat) | Bytes(b: seq<Byte>) | Fixed32(n: nat) {
    function Wire(): nat {
      match this
      case Number(_) => 0
      case Fixed64(_) => 1
      case Bytes(_) => 2
      case Fixed32(_) => 5
    }
  }

  datatype Field = Field(num: nat, value: Value)

  /** The payload of one field at position `p`, and the position after it. */
  function Payload(s: seq<Byte>, p: nat, wire: nat): (r: Option<(Value, nat)>)
    requires p <= |s|
    ensures r.Some? ==> p <= r.value.1 <= |s|
  {
    if wire == 0 then
      match Varint(s, p, 0)
      case Got(v, end) => Some((Number(v), end))
      case _ => None
    else if wire == 1 then
      if p + 8 > |s| then None else Some((Fixed64(LittleEndian(s, p, 8)), p + 8))
    else if wire == 2 then
      match Varint(s, p, 0)
      case Got(len, end) => if end + len > |s| then None else Some((Bytes(s[end..end + len]), end + len))
      case _ => None
    else if wire == 5 then
      if p + 4 > |s| then None else Some((Fixed32(LittleEndian(s, p, 4)), p + 4))
    else None
  }

  function OneField(s: seq<Byte>, p: nat): (r: Option<(Field, nat)>)
    requires p <= |s|
    ensures r.Some? ==> p < r.value.1 <= |s|
  {
    match Varint(s, p, 0)
    case Got(tag, end) =>
      if tag / 8 == 0 then None
      else
        (match Payload(s, end, tag % 8)
         case Some(v) => Some((Field(tag / 8, v.0), v.1))
         case None => None)
    case _ => None
  }

  function ParseFrom(s: seq<Byte>, p: nat): Option<seq<Field>>
    requires p <= |s|
    decreases |s| - p
  {
    if p == |s| then Some([])
    else
      match OneField(s, p)
      case None => None
      case Some(f) => Join([f.0], ParseFrom(s, f.1))
  }

  function Parse(s: seq<Byte>): Option<seq<Field>> {
    ParseFrom(s, 0)
  }

  function Join(fs: seq<Field>, rest: Option<seq<Field>>): Option<seq<Field>> {
    if rest.Some? then Some(fs + rest.value) else None
  }

  lemma JoinNone(rest: Option<seq<Field>>)
    ensures Join([], rest) == rest
  {
    assert rest.Some? ==> [] + rest.value == rest.value;
  }

  lemma JoinCons(f: Field, fs: seq<Field>, rest: Option<seq<Field>>)
    ensures Join([f], Join(fs, rest)) == Join([f] + fs, rest)
    ensures Join(fs, Join([f], rest)) == Join(fs + [f], rest)
  {
    assert rest.Some? ==> [f] + (fs + rest.value) == ([f] + fs) + rest.value;
    assert rest.Some? ==> fs + ([f] + rest.value) == (fs + [f]) + rest.value;
  }

  /** The payload branch for each wire type. */
  method ReadPayload(buf: seq<Byte>, pos: nat, wire: nat) returns (r: Option<(Value, nat)>)
    requires pos <= |buf|
    ensures r == Payload(buf, pos, wire)
  {
    if wire == 0 {
      var v := ReadVarint(buf, pos);
      r := if v.Got? then Some((Number(v.value), v.end)) else None;
    } else if wire == 1 {
      r := if pos + 8 > |buf| then None else Some((Fixed64(LittleEndian(buf, pos, 8)), pos + 8));
    } else if wire == 2 {
      var len := ReadVarint(buf, pos);
      if !len.Got? || len.end + len.value > |buf| {
        return None;
      }
      r := Some((Bytes(buf[len.end..len.end + len.value]), len.end + len.value));
    } else if wire == 5 {
      r := if pos + 4 > |buf| then None else Some((Fixed32(LittleEndian(buf, pos, 4)), pos + 4));
    } else {
      r := None;
    }
  }

  /** parseMessage: one field per turn of the loop, null on anything unclean or on field number 0. */
  method ParseMessage(buf: seq<Byte>) returns (r: Option<seq<Field>>)
    ensures r == Parse(buf)
  {
    var fields: seq<Field>, pos := [], 0;
    JoinNone(Parse(buf));
    while pos < |buf|
      invariant 0 <= pos <= |buf|
      invariant Parse(buf) == Join(fields, ParseFrom(buf, pos))
      decreases |buf| - pos
    {
      var tag := ReadVarint(buf, pos);
      if !tag.Got? || tag.value / 8 == 0 {
        return None;
      }
      var v := ReadPayload(buf, tag.end, tag.value % 8);
      if v.None? {
        return None;
      }
      var f := Field(tag.value / 8, v.value.0);
      assert OneField(buf, pos) == Some((f, v.value.1));
      JoinCons(f, fields, ParseFrom(buf, v.value.1));
      fields, pos := fields + [f], v.value.1;
    }
    assert fields + [] == fields;
    r := Some(fields);
  }

  // ---- Writing messages ----

  const EXACT_BITS: nat := 53

  /** A field number a double holds exactly and a value that fits its wire type. */
  ghost predicate Encodable(f: Field) {
    && f.num >= 1 && Fits(f.num, EXACT_BITS)
    && match f.value
       case Number(n) => Fits(n, VARINT_BITS)
       case Fixed64(n) => Fits(n, 8 * 8)
       case Bytes(b) => Fits(|b|, VARINT_BITS)
       case Fixed32(n) => Fits(n, 8 * 4)
  }

  function WritePayload(v: Value): seq<Byte> {
    match v
    case Number(n) => Encode(n)
    case Fixed64(n) => Fixed(n, 8)
    case Bytes(b) => Encode(|b|) + b
    case Fixed32(n) => Fixed(n, 4)
  }

  function Tag(f: Field): seq<Byte> {
    Encode(8 * f.num + f.value.Wire())
  }

  function WriteField(f: Field): seq<Byte> {
    Tag(f) + WritePayload(f.value)
  }

  function Joined(parts: seq<seq<Byte>>): seq<Byte> {
    if parts == [] then [] else parts[0] + Joined(parts[1..])
  }

  function Serialize(fs: seq<Field>): seq<Byte> {
    Joined(seq(|fs|, i requires 0 <= i < |fs| => WriteField(fs[i])))
  }

  lemma BytesAt(s: seq<Byte>, p: nat, b: seq<Byte>, q: nat)
    requires p <= |s| && Varint(s, p, 0) == Got(|b|, q) && q + |b| <= |s| && s[q..q + |b|] == b
    ensures Payload(s, p, 2) == Some((Bytes(b), q + |b|))
  {
  }

  lemma BytesRoundTrip(s: seq<Byte>, p: nat, b: seq<Byte>)
    requires Fits(|b|, VARINT_BITS) && Stands(s, p, Encode(|b|) + b)
    ensures Payload(s, p, 2) == Some((Bytes(b), p + |Encode(|b|)| + |b|))
  {
    StandsBoth(s, p, Encode(|b|), b);
    VarintReadsBack(s, p, |b|);
    StandsIs(s, p + |Encode(|b|)|, b);
    BytesAt(s, p, b, p + |Encode(|b|)|);
  }

  lemma PayloadRoundTrip(s: seq<Byte>, p: nat, f: Field)
    requires Encodable(f) && Stands(s, p, WritePayload(f.value))
    ensures Payload(s, p, f.value.Wire()) == Some((f.value, p + |WritePayload(f.value)|))
  {
    match f.value
    case Number(n) => VarintReadsBack(s, p, n);
    case Fixed64(n) => FixedRoundTrip(s, p, n, 8);
    case Fixed32(n) => FixedRoundTrip(s, p, n, 4);
    case Bytes(b) => BytesRoundTrip(s, p, b);
  }

  lemma {:induction false} FitsMore(n: nat, bits: nat, more: nat)
    requires Fits(n, bits)
    ensures Fits(n, bits + more)
    decreases bits, more
  {
    if bits > 0 {
      FitsMore(n / 2, bits - 1, more);
    } else if more > 0 {
      FitsMore(n, bits, more - 1);
    }
  }

  lemma TagFits(num: nat, wire: nat, bits: nat, more: nat)
    requires Fits(num, bits) && wire < 8
    ensures Fits(8 * num + wire, bits + 3 + more)
  {
    FitsThree(8 * num + wire, bits + 3);
    FitsMore(8 * num + wire, bits + 3, more);
  }

  lemma TagInRange(f: Field)
    requires Fits(f.num, EXACT_BITS)
    ensures Fits(8 * f.num + f.value.Wire(), VARINT_BITS)
  {
    TagFits(f.num, f.value.Wire(), EXACT_BITS, 21);
  }

  lemma SplitTag(num: nat, wire: nat)
    requires wire < 8
    ensures (8 * num + wire) / 8 == num && (8 * num + wire) % 8 == wire
  {
  }

  lemma FieldAt(s: seq<Byte>, p: nat, f: Field, q: nat, end: nat)
    requires f.num >= 1 && p <= |s| && Varint(s, p, 0) == Got(8 * f.num + f.value.Wire(), q)
    requires Payload(s, q, f.value.Wire()) == Some((f.value, end))
    ensures OneField(s, p) == Some((f, end))
  {
    SplitTag(f.num, f.value.Wire());
  }

  lemma TagRoundTrip(s: seq<Byte>, p: nat, f: Field)
    requires Fits(f.num, EXACT_BITS) && Stands(s, p, Tag(f))
    ensures Varint(s, p, 0) == Got(8 * f.num + f.value.Wire(), p + |Tag(f)|)
  {
    TagInRange(f);
    VarintReadsBack(s, p, 8 * f.num + f.value.Wire());
  }

  /** A field is read back, with its end, from wherever it stands. */
  lemma FieldRoundTrip(s: seq<Byte>, p: nat, f: Field)
    requires Encodable(f) && Stands(s, p, WriteField(f))
    ensures OneField(s, p) == Some((f, p + |WriteField(f)|))
  {
    StandsBoth(s, p, Tag(f), WritePayload(f.value));
    TagRoundTrip(s, p, f);
    PayloadRoundTrip(s, p + |Tag(f)|, f);
    FieldAt(s, p, f, p + |Tag(f)|, p + |WriteField(f)|);
  }

  lemma ParseOne(s: seq<Byte>, p: nat, f: Field, end: nat)
    requires p < |s| && OneField(s, p) == Some((f, end))
    ensures ParseFrom(s, p) == Join([f], ParseFrom(s, end))
  {
  }

  /** Wherever `part` stands, the reader finds this field there. */
  ghost predicate ReadsAs(part: seq<Byte>, f: Field) {
    part != [] && forall s, p: nat :: Stands(s, p, part) ==> p <= |s| && OneField(s, p) == Some((f, p + |part|))
  }

  lemma FieldReadsAs(f: Field)
    requires Encodable(f)
    ensures ReadsAs(WriteField(f), f)
  {
    forall s, p: nat | Stands(s, p, WriteField(f))
      ensures p <= |s| && OneField(s, p) == Some((f, p + |WriteField(f)|))
    {
      FieldRoundTrip(s, p, f);
    }
  }

  lemma PartThen(s: seq<Byte>, p: nat, part: seq<Byte>, f: Field, tail: seq<Byte>)
    requires ReadsAs(part, f) && Stands(s, p, part + tail)
    ensures p < p + |part| <= |s| && Stands(s, p + |part|, tail)
    ensures ParseFrom(s, p) == Join([f], ParseFrom(s, p + |part|))
  {
    StandsBoth(s, p, part, tail);
    ParseOne(s, p, f, p + |part|);
  }

  lemma JoinFirst(fs: seq<Field>)
    requires fs != []
    ensures Join([fs[0]], Some(fs[1..])) == Some(fs)
  {
    assert [fs[0]] + fs[1..] == fs;
  }

  lemma {:induction false} PartsRoundTrip(s: seq<Byte>, p: nat, parts: seq<seq<Byte>>, fs: seq<Field>)
    requires |parts| == |fs| && forall i :: 0 <= i < |fs| ==> ReadsAs(parts[i], fs[i])
    requires Stands(s, p, Joined(parts)) && p + |Joined(parts)| == |s|
    ensures ParseFrom(s, p) == Some(fs)
    decreases |fs|
  {
    if fs != [] {
      PartThen(s, p, parts[0], fs[0], Joined(parts[1..]));
      PartsRoundTrip(s, p + |parts[0]|, parts[1..], fs[1..]);
      JoinFirst(fs);
    }
  }

  /** The reader undoes the writer on every list of encodable fields. */
  lemma MessageRoundTrip(fs: seq<Field>)
    requires forall f | f in fs :: Encodable(f)
    ensures Parse(Serialize(fs)) == Some(fs)
  {
    var parts := seq(|fs|, i requires 0 <= i < |fs| => WriteField(fs[i]));
    forall i | 0 <= i < |fs| ensures ReadsAs(parts[i], fs[i]) {
      FieldReadsAs(fs[i]);
    }
    StandsAll(Serialize(fs), Serialize(fs), 0);
    PartsRoundTrip(Serialize(fs), 0, parts, fs);
  }

  // ---- Concatenation ----

  /** A varint that was read whole does not depend on what follows it. */
  lemma {:induction false} VarintPrefix(s: seq<Byte>, t: seq<Byte>, p: nat, shift: nat)
    requires p <= |s| && Varint(s, p, shift).Got?
    ensures Varint(s + t, p, shift) == Varint(s, p, shift)
    decreases |s| - p
  {
    assert (s + t)[p] == s[p];
    if s[p] >= 128 {
      VarintPrefix(s, t, p + 1, shift + 7);
    }
  }

  lemma {:induction false} FixedPrefix(s: seq<Byte>, t: seq<Byte>, p: nat, width: nat)
    requires p + width <= |s|
    ensures LittleEndian(s + t, p, width) == LittleEndian(s, p, width)
    decreases width
  {
    if width > 0 {
      FixedPrefix(s, t, p + 1, width - 1);
    }
  }

  lemma PayloadPrefix(s: seq<Byte>, t: seq<Byte>, p: nat, wire: nat)
    requires p <= |s| && Payload(s, p, wire).Some?
    ensures Payload(s + t, p, wire) == Payload(s, p, wire)
  {
    if wire == 0 || wire == 2 {
      VarintPrefix(s, t, p, 0);
      if wire == 2 {
        var v := Varint(s, p, 0);
        assert (s + t)[v.end..v.end + v.value] == s[v.end..v.end + v.value];
      }
    } else {
      FixedPrefix(s, t, p, if wire == 1 then 8 else 4);
    }
  }

  lemma FieldPrefix(s: seq<Byte>, t: seq<Byte>, p: nat)
    requires p <= |s| && OneField(s, p).Some?
    ensures OneField(s + t, p) == OneField(s, p)
  {
    VarintPrefix(s, t, p, 0);
    PayloadPrefix(s, t, Varint(s, p, 0).end, Varint(s, p, 0).value % 8);
  }

  /** What is read after a prefix is what is read without it. */
  lemma {:induction false} VarintSuffix(a: seq<Byte>, s: seq<Byte>, p: nat, shift: nat)
    requires p <= |s|
    ensures Varint(a + s, |a| + p, shift) ==
            match Varint(s, p, shift) case Got(v, end) => Got(v, |a| + end) case e => e
    decreases |s| - p
  {
    if p < |s| {
      assert (a + s)[|a| + p] == s[p];
      VarintSuffix(a, s, p + 1, shift + 7);
    }
  }

  lemma {:induction false} FixedSuffix(a: seq<Byte>, s: seq<Byte>, p: nat, width: nat)
    requires p + width <= |s|
    ensures LittleEndian(a + s, |a| + p, width) == LittleEndian(s, p, width)
    decreases width
  {
    if width > 0 {
      FixedSuffix(a, s, p + 1, width - 1);
    }
  }

  lemma SliceAfter(a: seq<Byte>, s: seq<Byte>, i: nat, j: nat)
    requires i <= j <= |s|
    ensures (a + s)[|a| + i..|a| + j] == s[i..j]
  {
  }

  lemma PayloadSuffix(a: seq<Byte>, s: seq<Byte>, p: nat, wire: nat)
    requires p <= |s|
    ensures Payload(a + s, |a| + p, wire) ==
            match Payload(s, p, wire) case Some(v) => Some((v.0, |a| + v.1)) case None => None
  {
    if wire == 0 || wire == 2 {
      VarintSuffix(a, s, p, 0);
      var v := Varint(s, p, 0);
      if wire == 2 && v.Got? && v.end + v.value <= |s| {
        SliceAfter(a, s, v.end, v.end + v.value);
      }
    } else if p + 8 <= |s| && wire == 1 {
      FixedSuffix(a, s, p, 8);
    } else if p + 4 <= |s| && wire == 5 {
      FixedSuffix(a, s, p, 4);
    }
  }

  lemma FieldSuffix(a: seq<Byte>, s: seq<Byte>, p: nat)
    requires p <= |s|
    ensures OneField(a + s, |a| + p) ==
            match OneField(s, p) case Some(f) => Some((f.0, |a| + f.1)) case None => None
  {
    VarintSuffix(a, s, p, 0);
    var tag := Varint(s, p, 0);
    if tag.Got? {
      PayloadSuffix(a, s, tag.end, tag.value % 8);
    }
  }

  lemma {:induction false} ParseSuffix(a: seq<Byte>, s: seq<Byte>, p: nat)
    requires p <= |s|
    ensures ParseFrom(a + s, |a| + p) == ParseFrom(s, p)
    decreases |s| - p
  {
    if p < |s| {
      FieldSuffix(a, s, p);
      if OneField(s, p).Some? {
        var f := OneField(s, p).value;
        ParseSuffix(a, s, f.1);
        ParseOne(s, p, f.0, f.1);
        ParseOne(a + s, |a| + p, f.0, |a| + f.1);
      }
    }
  }

  lemma {:induction false} ParseAcross(a: seq<Byte>, b: seq<Byte>, p: nat)
    requires p <= |a| && ParseFrom(a, p).Some?
    ensures ParseFrom(a + b, p) == Join(ParseFrom(a, p).value, Parse(b))
    decreases |a| - p
  {
    if p == |a| {
      ParseSuffix(a, b, 0);
      JoinNone(Parse(b));
    } else {
      FieldPrefix(a, b, p);
      var f := OneField(a, p).value;
      ParseAcross(a, b, f.1);
      JoinCons(f.0, ParseFrom(a, f.1).value, Parse(b));
    }
  }

  /** Messages concatenate: after a clean first half, the whole parses exactly as the second half does. */
  lemma ParseConcat(a: seq<Byte>, b: seq<Byte>)
    requires Parse(a).Some?
    ensures Parse(a + b) == Join(Parse(a).value, Parse(b))
  {
    ParseAcross(a, b, 0);
  }

  // ---- What is refused ----

  /** Field number 0 and the wire types the format has given up are refused, and with them the whole message. */
  lemma BadTagRefused(s: seq<Byte>, p: nat, tag: nat, end: nat)
    requires p < |s| && Varint(s, p, 0) == Got(tag, end) && (tag < 8 || tag % 8 in {3, 4, 6, 7})
    ensures ParseFrom(s, p) == None
  {
    assert OneField(s, p) == None;
  }

  /** The text ends at or after `p`, in the middle of `part`. */
  ghost predicate Cut(s: seq<Byte>, p: nat, part: seq<Byte>) {
    p <= |s| && |s| - p < |part| && s[p..] == part[..|s| - p]
  }

  /** A number whose every byte announces another one is never read. */
  lemma {:induction false} NeverEnds(s: seq<Byte>, p: nat, shift: nat)
    requires p <= |s| && forall i :: p <= i < |s| ==> s[i] >= 128
    ensures !Varint(s, p, shift).Got?
    decreases |s| - p
  {
    if p < |s| {
      NeverEnds(s, p + 1, shift + 7);
    }
  }

  lemma {:induction false} EncodeContinues(n: nat)
    ensures forall i :: 0 <= i < |Encode(n)| - 1 ==> Encode(n)[i] >= 128
  {
    if n >= 128 {
      EncodeContinues(n / 128);
    }
  }

  lemma VarintCut(s: seq<Byte>, p: nat, n: nat)
    requires Cut(s, p, Encode(n))
    ensures !Varint(s, p, 0).Got?
  {
    EncodeContinues(n);
    forall i | p <= i < |s| ensures s[i] >= 128 {
      assert s[i] == s[p..][i - p];
    }
    NeverEnds(s, p, 0);
  }

  /** A cut through `a + b` goes through `a`, or leaves `a` whole and goes through `b`. */
  lemma CutEither(s: seq<Byte>, p: nat, a: seq<Byte>, b: seq<Byte>)
    requires Cut(s, p, a + b)
    ensures Cut(s, p, a) || (Stands(s, p, a) && Cut(s, p + |a|, b))
  {
    var m := |s| - p;
    if m < |a| {
      assert (a + b)[..m] == a[..m];
    } else {
      assert s[p + |a|..] == s[p..][|a|..] == (a + b)[..m][|a|..] == b[..m - |a|];
      assert s[p..p + |a|] == s[p..][..|a|] == a;
      StandsSlice(s, p, a);
    }
  }

  lemma {:induction false} StandsSlice(s: seq<Byte>, p: nat, part: seq<Byte>)
    requires p + |part| <= |s| && s[p..p + |part|] == part
    ensures Stands(s, p, part)
    decreases |part|
  {
    if part != [] {
      assert s[p] == s[p..p + |part|][0];
      assert s[p + 1..p + |part|] == s[p..p + |part|][1..];
      StandsSlice(s, p + 1, part[1..]);
    }
  }

  lemma PayloadCut(s: seq<Byte>, p: nat, f: Field)
    requires Encodable(f) && Cut(s, p, WritePayload(f.value))
    ensures Payload(s, p, f.value.Wire()) == None
  {
    match f.value
    case Number(n) => VarintCut(s, p, n);
    case Fixed64(n) =>
    case Fixed32(n) =>
    case Bytes(b) =>
      CutEither(s, p, Encode(|b|), b);
      if Cut(s, p, Encode(|b|)) {
        VarintCut(s, p, |b|);
      } else {
        VarintReadsBack(s, p, |b|);
      }
  }

  lemma FieldCut(s: seq<Byte>, p: nat, f: Field)
    requires Encodable(f) && Cut(s, p, WriteField(f))
    ensures OneField(s, p) == None
  {
    CutEither(s, p, Tag(f), WritePayload(f.value));
    if Cut(s, p, Tag(f)) {
      VarintCut(s, p, 8 * f.num + f.value.Wire());
    } else {
      TagRoundTrip(s, p, f);
      PayloadCut(s, p + |Tag(f)|, f);
      SplitTag(f.num, f.value.Wire());
    }
  }

  /** A message cut off inside a field is refused, however many whole fields come before it. */
  lemma TruncatedIsRefused(fs: seq<Field>, f: Field, k: nat)
    requires (forall g | g in fs :: Encodable(g)) && Encodable(f) && 0 < k < |WriteField(f)|
    ensures Parse(Serialize(fs) + WriteField(f)[..k]) == None
  {
    var part := WriteField(f)[..k];
    MessageRoundTrip(fs);
    ParseConcat(Serialize(fs), part);
    assert part[0..] == part;
    FieldCut(part, 0, f);
  }
}
