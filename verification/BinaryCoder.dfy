/** The typed, length-prefixed message coder (base/src/binary_coder_extended.c). */
module BinaryCoder {
  import opened Bytes
  import opened Sequences

  const STRING: byte := 1
  const INTEGER: byte := 2
  const HEADER_LEN := 3

  /** How unpacking one field ends.
      Done holds the text handed to the caller, empty when the index lies past the last field.
      Corrupt is the -1 return and WrongType the failed assertion on the content type.
      Overread is a read outside the allocation, which C leaves undefined. */
  datatype Unpacked<T> = Done(value: T) | Corrupt | WrongType | Overread

  /** A field as its sender means it. */
  datatype Field = Str(text: seq<byte>) | Num(value: int)

  // ---------------------------------------------------------------- integers

  predicate IsInt32(v: int) { -0x8000_0000 <= v < 0x8000_0000 }

  /** The bytes binary_pack_int() writes: two for anything below 0xFFFF, four from there on. */
  function IntBytes(v: int): (b: seq<byte>)
    ensures |b| == if v >= 0xFFFF then 4 else 2
  {
    if v >= 0xFFFF
    then [(v / 0x100_0000) % 256, (v / 0x1_0000) % 256, (v / 256) % 256, v % 256]
    else [(v / 256) % 256, v % 256]
  }

  /** The value binary_unpack_int() assembles; the fourth byte counts only when there are exactly four. */
  function IntValue(b: seq<byte>): int
  {
    if |b| == 0 then 0
    else if |b| == 1 then b[0]
    else if |b| == 2 then Word(b[0], b[1])
    else if |b| == 4 then Wrap32(Word(b[0], b[1]) * 0x1_0000 + Word(b[2], b[3]))
    else Word(b[0], b[1]) * 256 + b[2] as int
  }

  function Wrap32(v: int): int
    requires 0 <= v < 0x1_0000_0000
  {
    if v < 0x8000_0000 then v else v - 0x1_0000_0000
  }

  /** What the receiver of an int sees: negative values lose their upper half. */
  lemma IntTransport(v: int)
    requires IsInt32(v)
    ensures IntValue(IntBytes(v)) == if v < 0 then v % 0x1_0000 else v
  {
    if v >= 0xFFFF {
      FourDigits(v);
    }
  }

  lemma FourDigits(v: nat)
    requires v < 0x8000_0000
    ensures Word((v / 0x100_0000) % 256, (v / 0x1_0000) % 256) == v / 0x1_0000
    ensures Word((v / 256) % 256, v % 256) == v % 0x1_0000
  {
    var high := v / 0x1_0000;
    assert v / 0x100_0000 == high / 256 && high < 0x8000;
    assert v == v / 256 * 256 + v % 256 && v / 256 == high * 256 + (v / 256) % 256;
  }

  /** An int survives the wire exactly when it is not negative. */
  lemma IntSurvivesIffNonNegative(v: int)
    requires IsInt32(v)
    ensures IntValue(IntBytes(v)) == v <==> 0 <= v
  {
    IntTransport(v);
  }

  // ---------------------------------------------------------------- layout

  function FieldType(f: Field): byte { if f.Str? then STRING else INTEGER }

  function FieldBody(f: Field): seq<byte> { if f.Str? then f.text else IntBytes(f.value) }

  /** A length as the coder stores it: high byte, then low byte of its 16-bit value. */
  function Length16(n: nat): (b: seq<byte>)
    ensures |b| == 2
    ensures n < 0x1_0000 ==> Word(b[0], b[1]) == n
  {
    [(n / 256) % 256, n % 256]
  }

  function Word(high: byte, low: byte): nat { high as int * 256 + low as int }

  function Encode(f: Field): (b: seq<byte>)
    ensures |b| == HEADER_LEN + |FieldBody(f)|
  {
    [FieldType(f)] + Length16(|FieldBody(f)|) + FieldBody(f)
  }

  function EncodeAll(fields: seq<Field>): seq<byte>
  {
    if |fields| == 0 then [] else Encode(fields[0]) + EncodeAll(fields[1..])
  }

  function MessageLength(fields: seq<Field>): nat { 2 + |EncodeAll(fields)| }

  /** The layout the receiver relies on: the total length, then the fields one after another. */
  function Message(fields: seq<Field>): (m: seq<byte>)
    ensures |m| == MessageLength(fields)
  {
    Length16(MessageLength(fields)) + EncodeAll(fields)
  }

  /** The offset of field i's header. */
  function HeaderStart(fields: seq<Field>, i: nat): nat
    requires i <= |fields|
  {
    MessageLength(fields[..i])
  }

  function BodyStart(fields: seq<Field>, i: nat): nat
    requires i < |fields|
  {
    HeaderStart(fields, i) + HEADER_LEN
  }

  /** One call of binary_pack_string_helper() that finds room: append, then rewrite the total. */
  function Appended(buffer: seq<byte>, contentType: byte, body: seq<byte>): (b: seq<byte>)
    requires |buffer| >= 2
  {
    Length16(|buffer| + HEADER_LEN + |body|) + buffer[2..] + [contentType] + Length16(|body|) + body
  }

  lemma AppendedIs(buffer: seq<byte>, contentType: byte, body: seq<byte>)
    requires |buffer| >= 2
    ensures var grown := buffer + [contentType] + Length16(|body|) + body;
      Appended(buffer, contentType, body) == Length16(|grown|) + grown[2..]
  {
  }

  lemma {:induction false} EncodeAllAppend(fields: seq<Field>, more: seq<Field>)
    ensures EncodeAll(fields + more) == EncodeAll(fields) + EncodeAll(more)
  {
    if |fields| == 0 {
      assert fields + more == more;
    } else {
      var both, head := fields + more, Encode(fields[0]);
      assert EncodeAll(both) == head + EncodeAll(fields[1..] + more) by {
        assert both[0] == fields[0] && both[1..] == fields[1..] + more;
      }
      EncodeAllAppend(fields[1..], more);
      Associative(head, EncodeAll(fields[1..]), EncodeAll(more));
    }
  }

  lemma EncodeOne(f: Field)
    ensures EncodeAll([f]) == Encode(f)
  {
    assert EncodeAll([f]) == Encode(f) + EncodeAll([]);
  }

  /** Packing fields one at a time builds the message of the whole list. */
  lemma AppendedExtendsMessage(fields: seq<Field>, f: Field)
    ensures Appended(Message(fields), FieldType(f), FieldBody(f)) == Message(fields + [f])
  {
    EncodeAllAppend(fields, [f]);
    EncodeOne(f);
    assert Message(fields)[2..] == EncodeAll(fields);
  }

  // ---------------------------------------------------------------- unpacking

  /** The position behind a field; it is a uint8_t and wraps. */
  function Next(pos: byte, length: nat): (next: byte)
    ensures pos + length + HEADER_LEN <= 255 ==> next == pos + length + HEADER_LEN
  {
    (pos + length + HEADER_LEN) % 256
  }

  /** The do-while loop of binary_unpack_string_helper(). */
  function Scan(mem: seq<byte>, total: nat, pos: byte, skip: nat, expected: byte): Unpacked<seq<byte>>
    decreases skip
  {
    if pos + 2 >= |mem| then Overread
    else
      var length := Word(mem[pos + 1], mem[pos + 2]);
      if pos + length > total then Corrupt
      else if skip > 0 then
        var next := Next(pos, length);
        if next < total then Scan(mem, total, next, skip - 1, expected) else Done([])
      else if mem[pos] != expected then WrongType
      else
        var start := Next(pos, 0);
        if start + length > |mem| then Overread else Done(mem[start..start + length])
  }

  /** binary_unpack_string_helper() on a buffer of the given length inside memory mem. */
  function Unpack(mem: seq<byte>, length: nat, skip: nat, expected: byte): Unpacked<seq<byte>>
    requires 2 <= length <= |mem|
  {
    if length == 2 then Done([])
    else
      var total := Word(mem[0], mem[1]);
      if total > length then Corrupt else Scan(mem, total, 2, skip, expected)
  }

  function UnpackInt(mem: seq<byte>, length: nat, skip: nat): Unpacked<int>
    requires 2 <= length <= |mem|
  {
    match Unpack(mem, length, skip, INTEGER)
    case Done(b) => Done(IntValue(b))
    case Corrupt => Corrupt
    case WrongType => WrongType
    case Overread => Overread
  }

  // ---------------------------------------------------------------- round trip

  /** mem holds the message of these fields, followed by anything at all. */
  ghost predicate Holds(mem: seq<byte>, fields: seq<Field>)
  {
    |fields| > 0 && MessageLength(fields) < 0x1_0000 && Message(fields) <= mem
  }

  /** The encoding of f lies at offset s. */
  ghost predicate FieldAt(mem: seq<byte>, s: nat, f: Field)
  {
    s + HEADER_LEN + |FieldBody(f)| <= |mem| && mem[s..s + HEADER_LEN + |FieldBody(f)|] == Encode(f)
  }

  lemma ReadField(mem: seq<byte>, s: nat, f: Field)
    requires FieldAt(mem, s, f) && |FieldBody(f)| < 0x1_0000
    ensures mem[s] == FieldType(f)
    ensures Word(mem[s + 1], mem[s + 2]) == |FieldBody(f)|
    ensures mem[s + HEADER_LEN..s + HEADER_LEN + |FieldBody(f)|] == FieldBody(f)
  {
    var e := s + HEADER_LEN + |FieldBody(f)|;
    var whole := mem[s..e];
    EncodeParts(f);
    assert mem[s] == whole[0] && mem[s + 1] == whole[1] && mem[s + 2] == whole[2];
    assert mem[s + HEADER_LEN..e] == whole[HEADER_LEN..];
  }

  lemma EncodeParts(f: Field)
    ensures var size := Length16(|FieldBody(f)|);
      Encode(f)[0] == FieldType(f) && Encode(f)[1] == size[0] && Encode(f)[2] == size[1]
      && Encode(f)[HEADER_LEN..] == FieldBody(f)
  {
  }

  /** Field i lies at its header start and ends where the next one starts. */
  lemma HeaderAt(mem: seq<byte>, fields: seq<Field>, i: nat)
    requires Holds(mem, fields) && i < |fields|
    ensures var s := HeaderStart(fields, i);
            && s + HEADER_LEN + |FieldBody(fields[i])| == HeaderStart(fields, i + 1) <= MessageLength(fields)
            && FieldAt(mem, s, fields[i])
  {
    SplitAt(fields, i);
    InTheMiddle(mem, Length16(MessageLength(fields)), EncodeAll(fields[..i]), Encode(fields[i]),
                EncodeAll(fields[i + 1..]));
  }

  lemma SplitAt(fields: seq<Field>, i: nat)
    requires i < |fields|
    ensures EncodeAll(fields) == EncodeAll(fields[..i]) + (Encode(fields[i]) + EncodeAll(fields[i + 1..]))
    ensures EncodeAll(fields[..i + 1]) == EncodeAll(fields[..i]) + Encode(fields[i])
  {
    TakeDrop(fields, i);
    EncodeAllAppend(fields[..i], fields[i..]);
    DropHead(fields, i);
    TakeSnoc(fields, i);
    EncodeAllAppend(fields[..i], [fields[i]]);
    EncodeOne(fields[i]);
  }

  lemma InTheMiddle(mem: seq<byte>, head: seq<byte>, a: seq<byte>, b: seq<byte>, c: seq<byte>)
    requires head + (a + (b + c)) <= mem
    ensures |head| + |a| + |b| <= |mem|
    ensures mem[|head| + |a|..|head| + |a| + |b|] == b
  {
    assert mem[|head| + |a|..|head| + |a| + |b|] == (head + (a + (b + c)))[|head| + |a|..|head| + |a| + |b|];
  }

  lemma {:induction false} HeaderStartIncreases(fields: seq<Field>, i: nat, j: nat)
    requires i <= j <= |fields|
    ensures 2 <= HeaderStart(fields, i) <= HeaderStart(fields, j)
    ensures i < j ==> HeaderStart(fields, i) < HeaderStart(fields, j)
  {
    assert fields[..j] == fields[..i] + fields[i..j];
    EncodeAllAppend(fields[..i], fields[i..j]);
    if i < j {
      assert |EncodeAll(fields[i..j])| > 0;
    }
  }

  /** Skipping one field moves the scan to the next header, or ends it when the message ends there. */
  lemma ScanSkips(mem: seq<byte>, total: nat, s: nat, f: Field, skip: nat, expected: byte)
    requires s <= 255 && skip > 0 && total < 0x1_0000
    requires FieldAt(mem, s, f) && s + HEADER_LEN + |FieldBody(f)| <= total
    requires s + HEADER_LEN + |FieldBody(f)| <= 255
    ensures Scan(mem, total, s, skip, expected)
         == if s + HEADER_LEN + |FieldBody(f)| < total
            then Scan(mem, total, s + HEADER_LEN + |FieldBody(f)|, skip - 1, expected) else Done([])
  {
    ReadField(mem, s, f);
  }

  lemma ScanReads(mem: seq<byte>, total: nat, s: nat, f: Field, expected: byte)
    requires s + HEADER_LEN <= 255 && total < 0x1_0000
    requires FieldAt(mem, s, f) && s + HEADER_LEN + |FieldBody(f)| <= total
    ensures Scan(mem, total, s, 0, expected) == if expected == FieldType(f) then Done(FieldBody(f)) else WrongType
  {
    ReadField(mem, s, f);
  }

  /** As long as headers start at or below 255 the scan walks from header to header. */
  lemma {:induction false} ScanWalks(mem: seq<byte>, fields: seq<Field>, i: nat, j: nat, more: nat, expected: byte)
    requires Holds(mem, fields) && i <= j < |fields| && HeaderStart(fields, j) <= 255
    ensures HeaderStart(fields, i) <= 255
    ensures Scan(mem, MessageLength(fields), HeaderStart(fields, i), j - i + more, expected)
         == Scan(mem, MessageLength(fields), HeaderStart(fields, j), more, expected)
    decreases j - i
  {
    HeaderStartIncreases(fields, i, j);
    if i < j {
      var total, s, next := MessageLength(fields), HeaderStart(fields, i), HeaderStart(fields, i + 1);
      assert FieldAt(mem, s, fields[i]) && s + HEADER_LEN + |FieldBody(fields[i])| == next < total && next <= 255 by {
        HeaderAt(mem, fields, i);
        HeaderAt(mem, fields, j);
        HeaderStartIncreases(fields, i + 1, j);
      }
      ScanSkips(mem, total, s, fields[i], j - i + more, expected);
      ScanWalks(mem, fields, i + 1, j, more, expected);
    }
  }

  /** Where the scan for field i starts. */
  lemma UnpackScans(mem: seq<byte>, length: nat, fields: seq<Field>, skip: nat, expected: byte)
    requires Holds(mem, fields) && MessageLength(fields) <= length <= |mem|
    ensures MessageLength(fields) > 2
    ensures Unpack(mem, length, skip, expected)
         == Scan(mem, MessageLength(fields), HeaderStart(fields, 0), skip, expected)
  {
    assert EncodeAll(fields)[0] == Encode(fields[0])[0];
    var m := Message(fields);
    assert mem[0] == m[0] && mem[1] == m[1];
    assert fields[..0] == [];
  }

  /** Round trip. Whatever lies behind the message and however far the receiver extends the length,
      index i gives back field i, provided its body starts at offset 255 or lower. */
  lemma UnpackReturnsField(mem: seq<byte>, length: nat, fields: seq<Field>, i: nat)
    requires Holds(mem, fields) && MessageLength(fields) <= length <= |mem|
    requires i < |fields| && BodyStart(fields, i) <= 255
    ensures Unpack(mem, length, i, FieldType(fields[i])) == Done(FieldBody(fields[i]))
    ensures forall t: byte | t != FieldType(fields[i]) :: Unpack(mem, length, i, t) == WrongType
  {
    HeaderAt(mem, fields, i);
    forall t: byte
      ensures Unpack(mem, length, i, t)
           == if t == FieldType(fields[i]) then Done(FieldBody(fields[i])) else WrongType
    {
      UnpackScans(mem, length, fields, i, t);
      ScanWalks(mem, fields, 0, i, 0, t);
      ScanReads(mem, MessageLength(fields), HeaderStart(fields, i), fields[i], t);
    }
  }

  /** Skipping the last field ends the scan. */
  lemma ScanEnds(mem: seq<byte>, fields: seq<Field>, skip: nat, expected: byte)
    requires Holds(mem, fields) && MessageLength(fields) <= 255 && skip > 0
    ensures HeaderStart(fields, |fields| - 1) <= 255
    ensures Scan(mem, MessageLength(fields), HeaderStart(fields, |fields| - 1), skip, expected) == Done([])
  {
    var last := |fields| - 1;
    assert fields[..last + 1] == fields;
    HeaderAt(mem, fields, last);
    ScanSkips(mem, MessageLength(fields), HeaderStart(fields, last), fields[last], skip, expected);
  }

  /** An index behind the last field reads as empty, as long as the whole message is at most 255 bytes. */
  lemma UnpackPastEnd(mem: seq<byte>, length: nat, fields: seq<Field>, skip: nat, expected: byte)
    requires Holds(mem, fields) && MessageLength(fields) <= length <= |mem|
    requires |fields| <= skip && MessageLength(fields) <= 255
    ensures Unpack(mem, length, skip, expected) == Done([])
  {
    var last := |fields| - 1;
    ScanEnds(mem, fields, skip - last, expected);
    ScanWalks(mem, fields, 0, last, skip - last, expected);
    UnpackScans(mem, length, fields, skip, expected);
  }

  /** What the receiver of a field reads. */
  function Received(f: Field): Field
  {
    if f.Str? then f else Num(if f.value < 0 then f.value % 0x1_0000 else f.value)
  }

  lemma UnpackIntReturnsField(mem: seq<byte>, length: nat, fields: seq<Field>, i: nat)
    requires Holds(mem, fields) && MessageLength(fields) <= length <= |mem|
    requires i < |fields| && BodyStart(fields, i) <= 255 && fields[i].Num? && IsInt32(fields[i].value)
    ensures UnpackInt(mem, length, i) == Done(Received(fields[i]).value)
  {
    UnpackReturnsField(mem, length, fields, i);
    IntTransport(fields[i].value);
  }

  // ---------------------------------------------------------------- the bound is exact

  /** Field i comes back whatever lies behind the message. */
  ghost predicate FieldComesBack(fields: seq<Field>, i: nat)
    requires i < |fields|
  {
    forall mem, length | Holds(mem, fields) && MessageLength(fields) <= length <= |mem| ::
      Unpack(mem, length, i, FieldType(fields[i])) == Done(FieldBody(fields[i]))
  }

  ghost predicate EndIsSeen(fields: seq<Field>)
  {
    forall mem, length, skip: nat, t: byte
      | Holds(mem, fields) && MessageLength(fields) <= length <= |mem| && |fields| <= skip ::
      Unpack(mem, length, skip, t) == Done([])
  }

  ghost predicate Packable(fields: seq<Field>) { |fields| > 0 && MessageLength(fields) < 0x1_0000 }

  /** 248 bytes put the header of the second field at 253, so its body offset wraps to 0. */
  function WrapExample(): (fields: seq<Field>)
    ensures |fields| == 2 && FieldBody(fields[1]) == [9]
  {
    [Str(seq(248, _ => 7)), Str([9])]
  }

  lemma WrapExampleLayout()
    ensures MessageLength(WrapExample()) == 257 && HeaderStart(WrapExample(), 1) == 253
  {
    var fields := WrapExample();
    SplitAt(fields, 0);
    SplitAt(fields, 1);
    assert fields[..0] == [] && fields[2..] == [] && fields[0 + 1..] == fields[1..];
  }

  lemma WrapExampleFails()
    ensures Packable(WrapExample()) && BodyStart(WrapExample(), 1) == 256 && !FieldComesBack(WrapExample(), 1)
  {
    var fields := WrapExample();
    var mem := Message(fields);
    WrapExampleLayout();
    HeaderAt(mem, fields, 1);
    ScanWraps(mem, 257, fields[1]);
    ScanWalks(mem, fields, 0, 1, 0, STRING);
    UnpackScans(mem, 257, fields, 1, STRING);
    assert mem[0..1][0] == mem[0] == Length16(257)[0] == 1;
  }

  lemma ScanWraps(mem: seq<byte>, total: nat, f: Field)
    requires FieldAt(mem, 253, f) && f.Str? && |f.text| == 1 && 254 <= total
    ensures Scan(mem, total, 253, 0, STRING) == Done(mem[0..1])
  {
    ReadField(mem, 253, f);
  }

  /** One string of 251 bytes makes a message of 256, where the position wraps to 0 instead of stopping. */
  function EndExample(): (fields: seq<Field>)
    ensures |fields| == 1
  {
    [Str(seq(251, _ => 7))]
  }

  lemma EndExampleFails()
    ensures Packable(EndExample()) && MessageLength(EndExample()) == 256
    ensures BodyStart(EndExample(), 0) == 5 && !EndIsSeen(EndExample())
  {
    var fields := EndExample();
    var mem := Message(fields);
    assert EncodeAll(fields) == Encode(fields[0]) + EncodeAll([]);
    assert fields[..0] == [] && fields[..1] == fields;
    HeaderAt(mem, fields, 0);
    UnpackScans(mem, 256, fields, 1, STRING);
    assert mem[0] == 1 && mem[1] == 0 && mem[2] == STRING;
    assert Scan(mem, 256, 2, 1, STRING) == Scan(mem, 256, 0, 0, STRING);
    assert Unpack(mem, 256, 1, STRING) == Done(mem[3..4]);
    assert |mem[3..4]| == 1;
  }

  /** 255 is the exact limit on body offsets: every field up to it comes back, and no larger limit has that property. */
  lemma BodyOffsetLimitIsExact(limit: nat)
    ensures (forall fields, i: nat | Packable(fields) && i < |fields| && BodyStart(fields, i) <= limit ::
               FieldComesBack(fields, i))
            <==> limit <= 255
  {
    if limit <= 255 {
      forall fields, i: nat | Packable(fields) && i < |fields| && BodyStart(fields, i) <= limit
        ensures FieldComesBack(fields, i)
      {
        forall mem, length | Holds(mem, fields) && MessageLength(fields) <= length <= |mem| {
          UnpackReturnsField(mem, length, fields, i);
        }
      }
    } else {
      WrapExampleFails();
    }
  }

  /** 255 is also the exact limit on message lengths for reads behind the last field to come out empty. */
  lemma MessageLengthLimitIsExact(limit: nat)
    ensures (forall fields | Packable(fields) && MessageLength(fields) <= limit :: EndIsSeen(fields))
            <==> limit <= 255
  {
    if limit <= 255 {
      forall fields | Packable(fields) && MessageLength(fields) <= limit
        ensures EndIsSeen(fields)
      {
        forall mem, length, skip: nat, t: byte
          | Holds(mem, fields) && MessageLength(fields) <= length <= |mem| && |fields| <= skip {
          UnpackPastEnd(mem, length, fields, skip, t);
        }
      }
    } else {
      EndExampleFails();
    }
  }
}
