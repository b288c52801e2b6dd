/** The variable-length numbers, strings and packets of the server list ping
    (internal/minecraft/slp.go). Bit operations on int32 are written as arithmetic on its 32 bits
    read as an unsigned number; an "or" into free bits is a sum, and that the bits are free is a
    precondition. */
module VarInt {
  import opened Wrappers

  const LIMIT := 0x1_0000_0000
  const HALF := 0x8000_0000

  type Int32 = v: int | -HALF <= v < HALF

  datatype Failure = EndOfInput | TooBig | OutOfBounds | UnexpectedPacket

  /** A value read, and the input left unread. */
  datatype Read<T> = Read(value: T, rest: Bytes)

  function Unsigned(v: Int32): nat {
    if v < 0 then v + LIMIT else v
  }

  /** The low 32 bits of a number as an int32. */
  function Signed(n: nat): Int32 {
    var m := n % LIMIT;
    if m < HALF then m else m - LIMIT
  }

  lemma SameBits(n: nat, v: Int32)
    ensures n < LIMIT ==> Unsigned(Signed(n)) == n
    ensures Unsigned(v) < LIMIT && Signed(Unsigned(v)) == v
  {
    assert n < LIMIT ==> n % LIMIT == n;
    assert Unsigned(v) % LIMIT == Unsigned(v);
  }

  // ---------------------------------------------------------------- the two loops

  /** byte((value & 0x7F) | 0x80). */
  function Marked(v: Int32): Byte {
    Unsigned(v) % 128 + 128
  }

  /** int32(uint32(value) >> 7). */
  function ShiftedDown(v: Int32): Int32 {
    Unsigned(v) / 128
  }

  predicate More(b: Byte) {
    b >= 128
  }

  /** An int32 in groups of seven bits from the low end, all but the last marked. */
  function Encoded(v: Int32): Bytes
    decreases Unsigned(v)
  {
    if 0 <= v < 128 then [v] else [Marked(v)] + Encoded(ShiftedDown(v))
  }

  /** The positions at which a group can start, and the weight of a bit there. */
  predicate Place(position: int) {
    position in {0, 7, 14, 21, 28}
  }

  function Weight(position: int): nat
    requires Place(position)
  {
    if position == 0 then 1
    else if position == 7 then 0x80
    else if position == 14 then 0x4000
    else if position == 21 then 0x20_0000
    else 0x1000_0000
  }

  /** value | int32(b & 0x7F) << position, where value has no bits from `position` on; bits shifted
      out at the top are lost. */
  function Put(value: Int32, b: Byte, position: int): Int32
    requires Place(position) && Unsigned(value) < Weight(position)
  {
    Signed(Unsigned(value) + b % 128 * Weight(position))
  }

  lemma PutLeavesRoomAbove(value: Int32, b: Byte, position: int)
    requires Place(position) && position < 28 && Unsigned(value) < Weight(position)
    ensures Place(position + 7)
    ensures Unsigned(Put(value, b, position)) == Unsigned(value) + b % 128 * Weight(position) < Weight(position + 7)
  {
    var g := b % 128;
    assert g * Weight(position) <= 127 * Weight(position) by {
      if position == 0 {
      } else if position == 7 {
      } else if position == 14 {
      } else {
      }
    }
    SameBits(Unsigned(value) + g * Weight(position), value);
  }

  /** Reading on with the bits gathered so far. */
  function DecodedFrom(s: Bytes, value: Int32, position: int): Result<Read<Int32>, Failure>
    requires Place(position) && Unsigned(value) < Weight(position)
    decreases |s|
  {
    if s == [] then Err(EndOfInput)
    else if !More(s[0]) then Ok(Read(Put(value, s[0], position), s[1..]))
    else if position + 7 >= 32 then Err(TooBig)
    else
      PutLeavesRoomAbove(value, s[0], position);
      DecodedFrom(s[1..], Put(value, s[0], position), position + 7)
  }

  function Decoded(s: Bytes): Result<Read<Int32>, Failure> {
    DecodedFrom(s, 0, 0)
  }

  /** writeVarInt. */
  method WriteVarInt(v: Int32) returns (out: Bytes)
    ensures out == Encoded(v)
  {
    out := [];
    var value := v;
    while true
      invariant out + Encoded(value) == Encoded(v)
      decreases Unsigned(value)
    {
      if 0 <= value < 128 { return out + [value]; }
      out := out + [Marked(value)];
      value := ShiftedDown(value);
    }
  }

  /** readVarInt. */
  method ReadVarInt(s: Bytes) returns (r: Result<Read<Int32>, Failure>)
    ensures r == Decoded(s)
  {
    var value: Int32, position, rest := 0, 0, s;
    while true
      invariant Place(position) && Unsigned(value) < Weight(position)
      invariant DecodedFrom(rest, value, position) == Decoded(s)
      decreases |rest|
    {
      if rest == [] { return Err(EndOfInput); }
      var current := rest[0];
      rest := rest[1..];
      if position < 28 { PutLeavesRoomAbove(value, current, position); }
      value := Put(value, current, position);
      if !More(current) { return Ok(Read(value, rest)); }
      position := position + 7;
      if position >= 32 { return Err(TooBig); }
    }
  }

  // ---------------------------------------------------------------- numbers

  /** How many groups of seven bits a number needs. */
  function Groups(v: Int32): nat {
    var u := Unsigned(v);
    if u < 0x80 then 1 else if u < 0x4000 then 2 else if u < 0x20_0000 then 3 else if u < 0x1000_0000 then 4 else 5
  }

  lemma {:induction false} EncodedSize(v: Int32)
    ensures |Encoded(v)| == Groups(v)
    decreases Unsigned(v)
  {
    if !(0 <= v < 128) { EncodedSize(ShiftedDown(v)); }
  }

  /** The bits gathered so far, with a number put above them. */
  function Sum(v: Int32, value: Int32, position: int): nat
    requires Place(position)
  {
    Unsigned(value) + Unsigned(v) * Weight(position)
  }

  /** A low group and the rest above it make the number again. */
  lemma GroupsMakeTheNumber(v: Int32, value: Int32, position: int)
    requires Place(position) && position < 28 && Unsigned(value) < Weight(position)
    requires Unsigned(v) * Weight(position) < LIMIT
    ensures var put := Put(value, Marked(v), position);
      && Place(position + 7) && Unsigned(put) < Weight(position + 7)
      && Unsigned(ShiftedDown(v)) * Weight(position + 7) < LIMIT
      && Sum(ShiftedDown(v), put, position + 7) == Sum(v, value, position)
  {
    PutLeavesRoomAbove(value, Marked(v), position);
    var u := Unsigned(v);
    assert u == u / 128 * 128 + u % 128 && Marked(v) % 128 == u % 128;
    if position == 0 {
    } else if position == 7 {
    } else if position == 14 {
    } else {
    }
  }

  lemma LongNumbersStartLow(v: Int32, position: int)
    requires Place(position) && Unsigned(v) * Weight(position) < LIMIT
    ensures Unsigned(v) >= 128 ==> position < 28
  {
  }

  lemma StepLast(b: Byte, rest: Bytes, value: Int32, position: int)
    requires Place(position) && Unsigned(value) < Weight(position) && !More(b)
    ensures DecodedFrom([b] + rest, value, position) == Ok(Read(Put(value, b, position), rest))
  {
    assert ([b] + rest)[1..] == rest;
  }

  lemma StepMore(b: Byte, rest: Bytes, value: Int32, position: int)
    requires Place(position) && position < 28 && Unsigned(value) < Weight(position) && More(b)
    requires Place(position + 7) && Unsigned(Put(value, b, position)) < Weight(position + 7)
    ensures DecodedFrom([b] + rest, value, position) == DecodedFrom(rest, Put(value, b, position), position + 7)
  {
    assert ([b] + rest)[1..] == rest;
  }

  lemma EncodedStep(v: Int32, rest: Bytes)
    requires !(0 <= v < 128)
    ensures Encoded(v) + rest == [Marked(v)] + (Encoded(ShiftedDown(v)) + rest) && More(Marked(v))
  {
  }

  lemma EncodedLast(v: Int32, rest: Bytes)
    requires 0 <= v < 128
    ensures Encoded(v) + rest == [v] + rest && !More(v)
  {
  }

  lemma {:induction false} ReadsBackFrom(v: Int32, value: Int32, position: int, rest: Bytes)
    requires Place(position) && Unsigned(value) < Weight(position) && Unsigned(v) * Weight(position) < LIMIT
    ensures DecodedFrom(Encoded(v) + rest, value, position) == Ok(Read(Signed(Sum(v, value, position)), rest))
    decreases Unsigned(v)
  {
    if 0 <= v < 128 {
      EncodedLast(v, rest);
      StepLast(v, rest, value, position);
      assert v % 128 == v;
    } else {
      LongNumbersStartLow(v, position);
      GroupsMakeTheNumber(v, value, position);
      var put := Put(value, Marked(v), position);
      EncodedStep(v, rest);
      StepMore(Marked(v), Encoded(ShiftedDown(v)) + rest, value, position);
      ReadsBackFrom(ShiftedDown(v), put, position + 7, rest);
    }
  }

  /** Every int32, negative ones included, reads back from one to five bytes, and what follows them
      is left unread. */
  lemma NumberRoundTrip(v: Int32, rest: Bytes)
    ensures Decoded(Encoded(v) + rest) == Ok(Read(v, rest)) && 1 <= |Encoded(v)| <= 5
  {
    SameBits(0, v);
    assert Unsigned(v) * Weight(0) == Unsigned(v);
    ReadsBackFrom(v, 0, 0, rest);
    EncodedSize(v);
  }

  /** The seven bits at place `i`, counted from zero. */
  function GroupAt(e: Bytes, i: nat): int {
    if i < |e| then e[i] % 128 else 0
  }

  /** The bytes written: groups of seven bits from the low end, all but the last marked by 128. */
  lemma {:induction false} WrittenBytes(v: Int32)
    ensures var e := Encoded(v);
      && 1 <= |e| <= 5 && e[|e| - 1] < 128 && (forall i :: 0 <= i < |e| - 1 ==> e[i] >= 128)
      && (if v < 0 then v + 0x1_0000_0000 else v) ==
           GroupAt(e, 0) + GroupAt(e, 1) * 0x80 + GroupAt(e, 2) * 0x4000 + GroupAt(e, 3) * 0x20_0000
             + GroupAt(e, 4) * 0x1000_0000
    decreases Unsigned(v)
  {
    EncodedSize(v);
    if !(0 <= v < 128) {
      var low := ShiftedDown(v);
      EncodedSize(low);
      WrittenBytes(low);
      GroupsMoveUp(Marked(v), Encoded(low));
    }
  }

  lemma GroupsMoveUp(b: Byte, rest: Bytes)
    requires |rest| <= 4
    ensures var e := [b] + rest;
      && GroupAt(e, 0) == b % 128 && GroupAt(e, 1) == GroupAt(rest, 0) && GroupAt(e, 2) == GroupAt(rest, 1)
      && GroupAt(e, 3) == GroupAt(rest, 2) && GroupAt(e, 4) == GroupAt(rest, 3) && GroupAt(rest, 4) == 0
  {
  }

  /** How many bytes may still come from `position` on. */
  function Left(position: int): nat
    requires Place(position)
  {
    (35 - position) / 7
  }

  lemma {:induction false} FailsFrom(s: Bytes, value: Int32, position: int)
    requires Place(position) && Unsigned(value) < Weight(position)
    ensures DecodedFrom(s, value, position) == Err(EndOfInput) <==>
      |s| < Left(position) && forall i :: 0 <= i < |s| ==> More(s[i])
    ensures DecodedFrom(s, value, position) == Err(TooBig) <==>
      |s| >= Left(position) && forall i :: 0 <= i < Left(position) ==> More(s[i])
    ensures DecodedFrom(s, value, position).Ok? || DecodedFrom(s, value, position).error in {TooBig, EndOfInput}
    decreases |s|
  {
    if s != [] && More(s[0]) && position < 28 {
      PutLeavesRoomAbove(value, s[0], position);
      FailsFrom(s[1..], Put(value, s[0], position), position + 7);
      assert forall i :: 1 <= i < |s| ==> s[i] == s[1..][i - 1];
    }
  }

  /** Reading fails exactly when the first five bytes all announce another one, or the input ends while
      every byte so far did. */
  lemma NumberFailsExactly(s: Bytes)
    ensures Decoded(s) == Err(TooBig) <==> |s| >= 5 && forall i :: 0 <= i < 5 ==> More(s[i])
    ensures Decoded(s) == Err(EndOfInput) <==> |s| < 5 && forall i :: 0 <= i < |s| ==> More(s[i])
    ensures Decoded(s).Ok? || Decoded(s).error in {TooBig, EndOfInput}
  {
    FailsFrom(s, 0, 0);
  }

  lemma {:induction false} AcceptedFrom(s: Bytes, value: Int32, position: int)
    requires Place(position) && Unsigned(value) < Weight(position) && DecodedFrom(s, value, position).Ok?
    ensures var r := DecodedFrom(s, value, position).value;
      && 1 <= |s| - |r.rest| <= Left(position) && r.rest == s[|s| - |r.rest|..]
      && (|s| - |r.rest| < Left(position) ==>
            Place(position + 7 * (|s| - |r.rest|)) && Unsigned(r.value) < Weight(position + 7 * (|s| - |r.rest|)))
    decreases |s|
  {
    if position < 28 { PutLeavesRoomAbove(value, s[0], position); }
    if More(s[0]) {
      AcceptedFrom(s[1..], Put(value, s[0], position), position + 7);
    }
  }

  /** The number spelled by groups of seven bits from the low end. */
  function Spelled(e: Bytes): nat {
    if e == [] then 0 else e[0] % 128 + 128 * Spelled(e[1..])
  }

  /** A number ends at the first byte that is not marked. */
  lemma {:induction false} EndsUnmarked(s: Bytes, value: Int32, position: int)
    requires Place(position) && Unsigned(value) < Weight(position) && DecodedFrom(s, value, position).Ok?
    ensures var k := |s| - |DecodedFrom(s, value, position).value.rest|;
      1 <= k <= |s| && !More(s[k - 1]) && forall i :: 0 <= i < k - 1 ==> More(s[i])
    decreases |s|
  {
    if More(s[0]) {
      PutLeavesRoomAbove(value, s[0], position);
      EndsUnmarked(s[1..], Put(value, s[0], position), position + 7);
      assert forall i :: 1 <= i < |s| ==> s[i] == s[1..][i - 1];
    }
  }

  /** The bits gathered so far, with spelled bytes put above them. */
  function Total(value: Int32, position: int, e: Bytes): nat
    requires Place(position)
  {
    Unsigned(value) + Weight(position) * Spelled(e)
  }

  lemma WeightSplits(position: int, low: nat, high: nat)
    requires Place(position) && position < 28
    ensures Place(position + 7)
    ensures Weight(position) * (low + 128 * high) == low * Weight(position) + Weight(position + 7) * high
  {
    if position == 0 {
    } else if position == 7 {
    } else if position == 14 {
    } else {
    }
  }

  lemma TotalStays(value: Int32, position: int, e: Bytes)
    requires Place(position) && position < 28 && Unsigned(value) < Weight(position) && e != []
    ensures Place(position + 7) && Total(Put(value, e[0], position), position + 7, e[1..]) == Total(value, position, e)
  {
    PutLeavesRoomAbove(value, e[0], position);
    WeightSplits(position, e[0] % 128, Spelled(e[1..]));
  }

  lemma TotalEnds(value: Int32, position: int, b: Byte)
    requires Place(position) && Unsigned(value) < Weight(position)
    ensures Unsigned(Put(value, b, position)) == Total(value, position, [b]) % LIMIT
  {
    assert Spelled([b]) == b % 128;
    SameBits(0, Put(value, b, position));
  }

  lemma {:induction false} ReadFromSpells(s: Bytes, value: Int32, position: int)
    requires Place(position) && Unsigned(value) < Weight(position) && DecodedFrom(s, value, position).Ok?
    ensures var r := DecodedFrom(s, value, position).value;
      |r.rest| < |s| && Unsigned(r.value) == Total(value, position, s[..|s| - |r.rest|]) % LIMIT
    decreases |s|
  {
    AcceptedFrom(s, value, position);
    var rest := DecodedFrom(s, value, position).value.rest;
    var e := s[..|s| - |rest|];
    if More(s[0]) {
      PutLeavesRoomAbove(value, s[0], position);
      ReadFromSpells(s[1..], Put(value, s[0], position), position + 7);
      assert e[1..] == s[1..][..|s[1..]| - |rest|];
      TotalStays(value, position, e);
    } else {
      assert e == [s[0]];
      TotalEnds(value, position, s[0]);
    }
  }

  /** What any accepted bytes mean: those up to the first unmarked one spell the number from the low
      end, and bits beyond the 32nd are lost. */
  lemma ReadBytesSpell(s: Bytes)
    requires Decoded(s).Ok?
    ensures var v, k := Decoded(s).value.value, |s| - |Decoded(s).value.rest|;
      && 1 <= k <= 5 && s[k - 1] < 128 && (forall i :: 0 <= i < k - 1 ==> s[i] >= 128)
      && s[k..] == Decoded(s).value.rest
      && (if v < 0 then v + 0x1_0000_0000 else v) == Spelled(s[..k]) % 0x1_0000_0000
  {
    AcceptedFrom(s, 0, 0);
    EndsUnmarked(s, 0, 0);
    ReadFromSpells(s, 0, 0);
  }

  /** Written numbers take the shortest form: whatever is accepted as a number, padded forms and lost
      top bits included, has at least as many bytes as writing that number takes. */
  lemma WrittenFormIsShortest(s: Bytes)
    requires Decoded(s).Ok?
    ensures var r := Decoded(s).value;
      |Encoded(r.value)| <= |s| - |r.rest| <= 5 && s[|s| - |r.rest|..] == r.rest
  {
    AcceptedFrom(s, 0, 0);
    EncodedSize(Decoded(s).value.value);
  }

  // ---------------------------------------------------------------- strings

  const MAX_STRING := 32767

  /** writeString. */
  function StringBytes(text: Bytes): Bytes {
    Encoded(Signed(|text|)) + text
  }

  /** readString. */
  method ReadString(s: Bytes) returns (r: Result<Read<Bytes>, Failure>)
    ensures r == StringRead(s)
  {
    var length := ReadVarInt(s);
    if length.Err? { return Err(length.error); }
    var n, rest := length.value.value, length.value.rest;
    if n < 0 || n > MAX_STRING { return Err(OutOfBounds); }
    if |rest| < n { return Err(EndOfInput); }
    return Ok(Read(rest[..n], rest[n..]));
  }

  function StringRead(s: Bytes): (r: Result<Read<Bytes>, Failure>)
    ensures r.Ok? ==> |r.value.value| <= MAX_STRING
  {
    match Decoded(s)
    case Err(e) => Err(e)
    case Ok(length) =>
      var n, rest := length.value, length.rest;
      if n < 0 || n > MAX_STRING then Err(OutOfBounds)
      else if |rest| < n then Err(EndOfInput)
      else Ok(Read(rest[..n], rest[n..]))
  }

  lemma LengthSurvives(n: nat)
    ensures n <= MAX_STRING ==> Signed(n) == n
    ensures MAX_STRING < n < LIMIT ==> Signed(n) < 0 || Signed(n) > MAX_STRING
  {
    if n < LIMIT { assert n % LIMIT == n; }
  }

  lemma ShortStringReads(text: Bytes, rest: Bytes)
    requires |text| <= MAX_STRING
    ensures StringRead(StringBytes(text) + rest) == Ok(Read(text, rest))
  {
    LengthSurvives(|text|);
    var n := Signed(|text|);
    NumberRoundTrip(n, text + rest);
    assert StringBytes(text) + rest == Encoded(n) + (text + rest);
    assert (text + rest)[..n] == text && (text + rest)[n..] == rest;
  }

  /** A written string reads back exactly when it has at most 32767 bytes; the writer does not check. */
  lemma StringRoundTrip(text: Bytes, rest: Bytes)
    ensures StringRead(StringBytes(text) + rest) == Ok(Read(text, rest)) <==> |text| <= 32767
    ensures 32767 < |text| < LIMIT ==> StringRead(StringBytes(text) + rest) == Err(OutOfBounds)
  {
    if |text| <= MAX_STRING {
      ShortStringReads(text, rest);
    } else if |text| < LIMIT {
      LengthSurvives(|text|);
      NumberRoundTrip(Signed(|text|), text + rest);
      assert StringBytes(text) + rest == Encoded(Signed(|text|)) + (text + rest);
    }
  }

  // ---------------------------------------------------------------- packets

  const MAX_PACKET := 0x10_0000

  /** sendPacket: what goes out on the connection. */
  function Packet(data: Bytes): Bytes {
    Encoded(Signed(|data|)) + data
  }

  /** The text of a status packet. */
  function StatusText(data: Bytes): Result<Bytes, Failure> {
    match Decoded(data)
    case Err(e) => Err(e)
    case Ok(id) =>
      if id.value != 0 then Err(UnexpectedPacket)
      else
        match StringRead(id.rest)
        case Err(e) => Err(e)
        case Ok(text) => Ok(text.value)
  }

  function StatusRead(conn: Bytes): Result<Read<Bytes>, Failure> {
    match Decoded(conn)
    case Err(e) => Err(e)
    case Ok(length) =>
      var n, rest := length.value, length.rest;
      if n < 1 || n > MAX_PACKET then Err(OutOfBounds)
      else if |rest| < n then Err(EndOfInput)
      else match StatusText(rest[..n])
        case Err(e) => Err(e)
        case Ok(text) => Ok(Read(text, rest[n..]))
  }

  /** readStatusResponse: the text of the packet and what is left on the connection. */
  method ReadStatusResponse(conn: Bytes) returns (r: Result<Read<Bytes>, Failure>)
    ensures r == StatusRead(conn)
  {
    var length := ReadVarInt(conn);
    if length.Err? { return Err(length.error); }
    var n, rest := length.value.value, length.value.rest;
    if n < 1 || n > MAX_PACKET { return Err(OutOfBounds); }
    if |rest| < n { return Err(EndOfInput); }
    var id := ReadVarInt(rest[..n]);
    if id.Err? { return Err(id.error); }
    if id.value.value != 0 { return Err(UnexpectedPacket); }
    var text := ReadString(id.value.rest);
    if text.Err? { return Err(text.error); }
    return Ok(Read(text.value.value, rest[n..]));
  }

  /** A packet's content is looked at whole and alone, and what follows is left on the connection. */
  lemma PacketIsReadWhole(data: Bytes, rest: Bytes)
    requires |data| < 0x8000_0000
    ensures StatusRead(Packet(data) + rest) ==
      if |data| == 0 || |data| > 0x10_0000 then Err(OutOfBounds)
      else match StatusText(data) case Err(e) => Err(e) case Ok(text) => Ok(Read(text, rest))
  {
    var n := Signed(|data|);
    assert n == |data|;
    NumberRoundTrip(n, data + rest);
    assert Packet(data) + rest == Encoded(n) + (data + rest);
    assert (data + rest)[..n] == data && (data + rest)[n..] == rest;
  }

  lemma StatusTextRoundTrip(id: Int32, text: Bytes)
    requires |text| <= MAX_STRING
    ensures StatusText(Encoded(id) + StringBytes(text)) == if id == 0 then Ok(text) else Err(UnexpectedPacket)
  {
    var rest := StringBytes(text);
    NumberRoundTrip(id, rest);
    ShortStringReads(text, []);
    assert rest + [] == rest;
  }

  lemma StatusTextsAreShort(conn: Bytes)
    ensures StatusRead(conn).Ok? ==> |StatusRead(conn).value.value| <= MAX_STRING
  {
  }

  /** A status response, framed as the protocol does, is read exactly when its text has at most 32767
      bytes: the packet limit of 1 MiB never decides, the string limit does. */
  lemma StatusRoundTrip(text: Bytes, rest: Bytes)
    ensures StatusRead(Packet(Encoded(0) + StringBytes(text)) + rest) == Ok(Read(text, rest)) <==> |text| <= 32767
  {
    var data := Encoded(0) + StringBytes(text);
    StatusTextsAreShort(Packet(data) + rest);
    if |text| <= MAX_STRING {
      NumberRoundTrip(Signed(|text|), []);
      StatusTextRoundTrip(0, text);
      PacketIsReadWhole(data, rest);
    }
  }
}
