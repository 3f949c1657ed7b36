/** aroop_txt_t as the coder uses it: bytes in a fixed allocation, rewritten in place. */
module BinaryBuffer {
  import opened Bytes
  import opened BinaryCoder

  class Txt {
    const data: array<byte>
    var len: nat

    /** Lengths are kept in uint16_t throughout the coder, so every buffer is smaller than that. */
    ghost predicate Valid()
      reads this
    {
      len <= data.Length < 0x1_0000
    }

    ghost function Contents(): (c: seq<byte>)
      requires Valid()
      reads this, data
    {
      data[..len]
    }

    constructor (capacity: nat)
      requires capacity < 0x1_0000
      ensures Valid() && fresh(data) && data.Length == capacity && Contents() == []
    {
      data := new byte[capacity](_ => 0);
      len := 0;
    }

    method ConcatChar(c: byte)
      requires Valid() && len < data.Length
      modifies this`len, data
      ensures Valid() && Contents() == old(Contents()) + [c]
    {
      data[len] := c;
      len := len + 1;
    }

    method Concat(x: seq<byte>)
      requires Valid() && len + |x| <= data.Length
      modifies this`len, data
      ensures Valid() && Contents() == old(Contents()) + x
    {
      forall i | 0 <= i < |x| {
        data[len + i] := x[i];
      }
      len := len + |x|;
      assert data[..len] == old(data[..len]) + x;
    }

    method Reset()
      requires Valid() && data.Length >= 256
      modifies this`len, data
      ensures Valid() && Contents() == Message([])
    {
      len := 0;
      ConcatChar(0);
      ConcatChar(2);
    }

    method ResetForPid(pid: int)
      requires Valid() && data.Length >= 256
      requires 0 <= pid && IsInt32(pid)
      modifies this`len, data
      ensures Valid() && Contents() == Message([Num(pid)])
    {
      Reset();
      var ok := PackInt(pid);
      AppendedExtendsMessage([], Num(pid));
      assert [] + [Num(pid)] == [Num(pid)];
    }

    /** A field that does not fit leaves the buffer as it was. */
    method PackHelper(x: seq<byte>, contentType: byte) returns (ok: bool)
      requires Valid() && len >= 2
      modifies this`len, data
      ensures Valid()
      ensures ok <==> |x| + old(len) + HEADER_LEN <= data.Length
      ensures Contents() == if ok then Appended(old(Contents()), contentType, x) else old(Contents())
    {
      if |x| + len + HEADER_LEN > data.Length {
        return false;
      }
      var header := Length16(|x|);
      ConcatChar(contentType);
      ConcatChar(header[0]);
      ConcatChar(header[1]);
      Concat(x);
      ghost var grown := Contents();
      assert grown == old(Contents()) + [contentType] + header + x by {
        assert old(Contents()) + [contentType] + [header[0]] + [header[1]] == old(Contents()) + [contentType] + header;
      }
      SetTotal();
      AppendedIs(old(Contents()), contentType, x);
      return true;
    }

    /** The first two bytes hold the length of the whole. */
    method SetTotal()
      requires Valid() && len >= 2
      modifies data
      ensures Valid() && Contents() == Length16(len) + old(Contents())[2..]
    {
      var total := Length16(len);
      data[0] := total[0];
      data[1] := total[1];
    }

    method PackString(x: seq<byte>) returns (ok: bool)
      requires Valid() && len >= 2
      modifies this`len, data
      ensures Valid()
      ensures ok <==> |Encode(Str(x))| + old(len) <= data.Length
      ensures Contents() == if ok then Appended(old(Contents()), STRING, x) else old(Contents())
    {
      ok := PackHelper(x, STRING);
    }

    /** The digits are first collected in a scratch buffer: four from 0xFFFF on, else two. */
    method PackInt(value: int) returns (ok: bool)
      requires Valid() && len >= 2 && IsInt32(value)
      modifies this`len, data
      ensures Valid()
      ensures ok <==> |Encode(Num(value))| + old(len) <= data.Length
      ensures Contents() == if ok then Appended(old(Contents()), INTEGER, IntBytes(value)) else old(Contents())
    {
      var digits: seq<byte> := [];
      if value >= 0xFFFF {
        digits := digits + [(value / 0x100_0000) % 256];
        digits := digits + [(value / 0x1_0000) % 256];
      }
      digits := digits + [(value / 256) % 256];
      digits := digits + [value % 256];
      assert digits == IntBytes(value);
      ok := PackHelper(digits, INTEGER);
    }

    method UnpackHelper(skip: nat, expected: byte) returns (x: Unpacked<seq<byte>>)
      requires Valid() && len >= 2
      ensures x == Unpack(data[..], len, skip, expected)
    {
      if len == 2 {
        return Done([]);
      }
      var total := Word(data[0], data[1]);
      if total > len {
        return Corrupt;
      }
      var pos: byte := 2;
      var left := skip;
      while true
        invariant Scan(data[..], total, pos, left, expected) == Scan(data[..], total, 2, skip, expected)
        decreases left
      {
        if pos + 2 >= data.Length {
          return Overread;
        }
        var contentType, length := data[pos], Word(data[pos + 1], data[pos + 2]);
        if pos + length > total {
          return Corrupt;
        }
        if left > 0 {
          pos := Next(pos, length);
          left := left - 1;
          if pos >= total {
            return Done([]);
          }
        } else {
          if contentType != expected {
            return WrongType;
          }
          pos := Next(pos, 0);
          if pos + length > data.Length {
            return Overread;
          }
          assert data[pos..pos + length] == data[..][pos..pos + length];
          return Done(data[pos..pos + length]);
        }
      }
    }

    method UnpackString(skip: nat) returns (x: Unpacked<seq<byte>>)
      requires Valid() && len >= 2
      ensures x == Unpack(data[..], len, skip, STRING)
    {
      x := UnpackHelper(skip, STRING);
    }

    method UnpackInteger(skip: nat) returns (value: Unpacked<int>)
      requires Valid() && len >= 2
      ensures value == UnpackInt(data[..], len, skip)
    {
      var x := UnpackHelper(skip, INTEGER);
      match x
      case Done(str) =>
        var output := Assemble(str);
        value := Done(output);
      case Corrupt => value := Corrupt;
      case WrongType => value := WrongType;
      case Overread => value := Overread;
    }

    /** Up to four bytes, high byte first. */
    static method Assemble(str: seq<byte>) returns (output: int)
      ensures output == IntValue(str)
    {
      output := 0;
      if |str| >= 1 {
        output := str[0] as int;
      }
      if |str| >= 2 {
        output := output * 256 + str[1] as int;
      }
      if |str| >= 3 {
        output := output * 256 + str[2] as int;
      }
      if |str| == 4 {
        output := Wrap32(output * 256 + str[3] as int);
      }
    }

    /** The received length only has to pass the assertion on its low eight bits;
        then the length written in the message replaces it. */
    method Fixup()
      requires Valid() && len >= 2 && len % 256 >= 2
      requires Word(data[0], data[1]) <= data.Length
      modifies this`len
      ensures Valid() && len == Word(data[0], data[1])
    {
      var total := Word(data[0], data[1]);
      if total != len {
        len := total;
      }
    }
  }
}
