/** The RDB readers and the opcode loop as they run: every parser advances one shared reader. */
module RdbLoader {
  import opened Text
  import opened Parsing
  import opened Keyspace
  import opened Rdb

  type Result<+T> = Parsing.Result<T, Rdb.Error>

  class Reader {
    var input: seq<Byte>

    constructor (input: seq<Byte>)
      ensures this.input == input
    {
      this.input := input;
    }

    method NextByte() returns (r: Result<Byte>)
      modifies this
      ensures Did(ReadByte(old(input)), r, input)
    {
      if input == [] {
        return Error(Eof);
      }
      r := Value(input[0]);
      input := input[1..];
    }

    method Full(n: nat) returns (r: Result<seq<Byte>>)
      modifies this
      ensures Did(ReadFull(old(input), n), r, input)
    {
      if |input| < n {
        return Error(if input == [] then Eof else UnexpectedEof);
      }
      r := Value(input[..n]);
      input := input[n..];
    }

    method ParseLength() returns (r: Result<Length>)
      modifies this
      ensures Did(ReadLength(old(input)), r, input)
    {
      var first := NextByte();
      if first.Error? {
        return Error(first.error);
      }
      var low: Byte := first.value % 64;
      match first.value / 64 {
        case 0 =>
          r := Value(Length(false, low));
        case 1 =>
          var second := NextByte();
          if second.Error? {
            return Error(second.error);
          }
          r := Value(Length(false, BigEndian([low, second.value])));
        case 2 =>
          var buf := Full(4);
          if buf.Error? {
            return Error(buf.error);
          }
          r := Value(Length(false, BigEndian(buf.value)));
        case _ =>
          r := Value(Length(true, low));
      }
    }

    method ParseInteger(width: nat, bound: nat) returns (r: Result<string>)
      modifies this
      ensures Did(ReadInteger(old(input), width, bound), r, input)
    {
      var buf := Full(width);
      if buf.Error? {
        return Error(buf.error);
      }
      r := Value(Itoa(Signed(LittleEndian(buf.value), bound)));
    }

    method ParseText(length: Length) returns (r: Result<string>)
      modifies this
      ensures Did(ReadText(old(input), length), r, input)
    {
      if !length.special {
        var buf := Full(length.size);
        if buf.Error? {
          return Error(buf.error);
        }
        return Value(AsText(buf.value));
      }
      match length.size {
        case 0 => r := ParseInteger(1, 0x80);
        case 1 => r := ParseInteger(2, 0x8000);
        case 2 => r := ParseInteger(4, 0x8000_0000);
        case 3 => r := Error(LzfUnsupported);
        case _ => r := Error(InvalidStringHeader);
      }
    }

    method ParseString() returns (r: Result<string>)
      modifies this
      ensures Did(ReadString(old(input)), r, input)
    {
      var length := ParseLength();
      if length.Error? {
        return Error(length.error);
      }
      r := ParseText(length.value);
    }

    method ParseKeyWithType(valueType: Byte, expireAt: Option<int>) returns (r: Result<Record>)
      modifies this
      ensures Did(ReadEntry(old(input), valueType, expireAt), r, input)
    {
      var key := ParseString();
      if key.Error? {
        return Error(key.error);
      }
      if valueType != 0 {
        return Error(if KnownType(valueType) then UnsupportedType else UnknownType);
      }
      var text := ParseString();
      if text.Error? {
        return Error(text.error);
      }
      r := Value(Put(key.value, text.value, expireAt));
    }

    method ParseExpireKey(millis: bool) returns (r: Result<Record>)
      modifies this
      ensures Did(ReadExpiring(old(input), millis), r, input)
    {
      var buf := Full(if millis then 8 else 4);
      if buf.Error? {
        return Error(buf.error);
      }
      var valueType := NextByte();
      if valueType.Error? {
        return Error(valueType.error);
      }
      r := ParseKeyWithType(valueType.value, Some(ExpiryOf(buf.value, millis)));
    }

    method HandleAux() returns (r: Result<Record>)
      modifies this
      ensures Did(ReadAux(old(input)), r, input)
    {
      var name := ParseString();
      if name.Error? {
        return Error(name.error);
      }
      var setting := ParseString();
      if setting.Error? {
        return Error(setting.error);
      }
      r := Value(Skip);
    }

    /** The length encodings of SELECTDB, one, and of RESIZEDB, two. */
    method ParseSizes(n: nat) returns (r: Result<Record>)
      modifies this
      ensures Did(ReadSizes(old(input), n), r, input)
    {
      for i := 0 to n
        invariant ReadSizes(old(input), n) == ReadSizes(input, n - i)
      {
        var length := ParseLength();
        if length.Error? {
          return Error(length.error);
        }
        if length.value.special {
          return Error(SpecialLength);
        }
      }
      r := Value(Skip);
    }

    /** The switch of `Load`. */
    method NextRecord() returns (r: Result<Record>)
      modifies this
      ensures Did(ReadRecord(old(input)), r, input)
    {
      var op := NextByte();
      if op.Error? {
        return Error(op.error);
      }
      if op.value == OP_AUX {
        r := HandleAux();
      } else if op.value == OP_SELECT_DB {
        r := ParseSizes(1);
      } else if op.value == OP_RESIZE_DB {
        r := ParseSizes(2);
      } else if op.value == OP_EXPIRY_SEC || op.value == OP_EXPIRY_MS {
        r := ParseExpireKey(op.value == OP_EXPIRY_MS);
      } else if op.value == OP_EOF {
        r := Value(Stop);
      } else {
        r := ParseKeyWithType(op.value, None);
      }
    }

    method Header() returns (r: Result<bool>)
      modifies this
      ensures Did(ReadHeader(old(input)), r, input)
    {
      var magic := Full(5);
      if magic.Error? {
        return Error(magic.error);
      }
      if magic.value != MAGIC {
        return Error(InvalidMagic);
      }
      var version := Full(4);
      if version.Error? {
        return Error(version.error);
      }
      r := Value(true);
    }
  }

  /** `Load` of a file that could be opened, into a store that holds `init`. */
  method Load(file: seq<Byte>, init: Data, now: int) returns (r: Loaded)
    ensures r == LoadFile(file, init, now)
  {
    var reader := new Reader(file);
    var header := reader.Header();
    if header.Error? {
      return Loaded(init, Some(header.error));
    }
    var data := init;
    while true
      invariant fresh(reader) && LoadFile(file, init, now) == LoadRecords(reader.input, data, now)
      decreases |reader.input|
    {
      var record := reader.NextRecord();
      if record.Error? {
        return Loaded(data, Some(record.error));
      }
      if record.value == Stop {
        return Loaded(data, None);
      }
      data := Apply(data, record.value, now);
    }
  }
}
