/** Loading an RDB file: the readers of the binary format, the opcode loop, and what loading an
    encoded list of items gives, whole or cut short. */
module Rdb {
  import opened Text
  import opened Parsing
  import opened Keyspace

  type Byte = b: int | 0 <= b < 256

  datatype Error =
    | Eof | UnexpectedEof | InvalidMagic | LzfUnsupported | InvalidStringHeader | SpecialLength
    | UnsupportedType | UnknownType

  /** A value and the bytes after it. */
  type Parsed<+T> = Parsing.Parsed<T, seq<Byte>, Error>

  // ---------------------------------------------------------------------------------------
  // Readers
  // ---------------------------------------------------------------------------------------

  function ReadByte(bs: seq<Byte>): (r: Parsed<Byte>)
    ensures r.Ok? ==> |r.rest| < |bs|
  {
    if bs == [] then Fail(Eof) else Ok(bs[0], bs[1..])
  }

  /** `io.ReadFull`. */
  function ReadFull(bs: seq<Byte>, n: nat): (r: Parsed<seq<Byte>>)
    ensures r.Ok? ==> |r.rest| <= |bs|
  {
    if n <= |bs| then Ok(bs[..n], bs[n..]) else Fail(if bs == [] then Eof else UnexpectedEof)
  }

  function BigEndian(bs: seq<Byte>): nat {
    if bs == [] then 0 else 256 * BigEndian(bs[..|bs| - 1]) + bs[|bs| - 1]
  }

  function LittleEndian(bs: seq<Byte>): nat {
    if bs == [] then 0 else bs[0] + 256 * LittleEndian(bs[1..])
  }

  /** The signed reading of an unsigned number, with the sign bit worth `bound`. */
  function Signed(v: nat, bound: nat): int {
    if v < bound then v else v - 2 * bound
  }

  function AsText(bs: seq<Byte>): string {
    seq(|bs|, i requires 0 <= i < |bs| => bs[i] as char)
  }

  datatype Length = Length(special: bool, size: nat)

  /** `parseLength`: the two top bits of the first byte choose the form. */
  function ReadLength(bs: seq<Byte>): (r: Parsed<Length>)
    ensures r.Ok? ==> |r.rest| <= |bs|
  {
    var (b, rest) :- ReadByte(bs);
    var low: Byte := b % 64;
    match b / 64
    case 0 => Ok(Length(false, low), rest)
    case 1 =>
      var (second, rest) :- ReadByte(rest);
      Ok(Length(false, BigEndian([low, second])), rest)
    case 2 =>
      var (buf, rest) :- ReadFull(rest, 4);
      Ok(Length(false, BigEndian(buf)), rest)
    case _ => Ok(Length(true, low), rest)
  }

  /** The integer forms of a string: so many little-endian bytes, as decimal text. */
  function ReadInteger(bs: seq<Byte>, width: nat, bound: nat): (r: Parsed<string>)
    ensures r.Ok? ==> |r.rest| <= |bs|
  {
    var (buf, rest) :- ReadFull(bs, width);
    Ok(Itoa(Signed(LittleEndian(buf), bound)), rest)
  }

  /** `ParseString`. */
  function ReadString(bs: seq<Byte>): (r: Parsed<string>)
    ensures r.Ok? ==> |r.rest| <= |bs|
  {
    var (length, rest) :- ReadLength(bs);
    ReadText(rest, length)
  }

  function ReadText(bs: seq<Byte>, length: Length): (r: Parsed<string>)
    ensures r.Ok? ==> |r.rest| <= |bs|
  {
    if !length.special then
      var (buf, rest) :- ReadFull(bs, length.size);
      Ok(AsText(buf), rest)
    else match length.size
      case 0 => ReadInteger(bs, 1, 0x80)
      case 1 => ReadInteger(bs, 2, 0x8000)
      case 2 => ReadInteger(bs, 4, 0x8000_0000)
      case 3 => Fail(LzfUnsupported)
      case _ => Fail(InvalidStringHeader)
  }

  /** `ParseLengthEncoding`. */
  function ReadSize(bs: seq<Byte>): (r: Parsed<nat>)
    ensures r.Ok? ==> |r.rest| <= |bs|
  {
    var (length, rest) :- ReadLength(bs);
    if length.special then Fail(SpecialLength) else Ok(length.size, rest)
  }

  /** What one opcode asks of the loader. Expiries are in milliseconds. */
  datatype Record = Skip | Stop | Put(key: string, text: string, expireAt: Option<int>)

  predicate KnownType(valueType: Byte) { valueType in {1, 2, 3, 4, 9, 10, 11, 12, 13, 14} }

  /** `parseKeyWithType`. */
  function ReadEntry(bs: seq<Byte>, valueType: Byte, expireAt: Option<int>): (r: Parsed<Record>)
    ensures r.Ok? ==> |r.rest| <= |bs|
  {
    var (key, rest) :- ReadString(bs);
    ReadValue(rest, key, valueType, expireAt)
  }

  function ReadValue(bs: seq<Byte>, key: string, valueType: Byte, expireAt: Option<int>): (r: Parsed<Record>)
    ensures r.Ok? ==> |r.rest| <= |bs|
  {
    if valueType != 0 then Fail(if KnownType(valueType) then UnsupportedType else UnknownType)
    else
      var (text, rest) :- ReadString(bs);
      Ok(Put(key, text, expireAt), rest)
  }

  /** `ParseKey`. */
  function ReadTypedEntry(bs: seq<Byte>, expireAt: Option<int>): (r: Parsed<Record>)
    ensures r.Ok? ==> |r.rest| <= |bs|
  {
    var (valueType, rest) :- ReadByte(bs);
    ReadEntry(rest, valueType, expireAt)
  }

  function ExpiryOf(buf: seq<Byte>, millis: bool): int {
    if millis then Signed(LittleEndian(buf), INT64_BOUND) else 1000 * LittleEndian(buf)
  }

  /** `ParseExpireKey`: an expiry in seconds takes 4 bytes, one in milliseconds takes 8. */
  function ReadExpiring(bs: seq<Byte>, millis: bool): (r: Parsed<Record>)
    ensures r.Ok? ==> |r.rest| <= |bs|
  {
    var (buf, rest) :- ReadFull(bs, if millis then 8 else 4);
    ReadTypedEntry(rest, Some(ExpiryOf(buf, millis)))
  }

  function ReadAux(bs: seq<Byte>): (r: Parsed<Record>)
    ensures r.Ok? ==> |r.rest| <= |bs|
  {
    var (_, rest) :- ReadString(bs);
    ReadAuxValue(rest)
  }

  function ReadAuxValue(bs: seq<Byte>): (r: Parsed<Record>)
    ensures r.Ok? ==> |r.rest| <= |bs|
  {
    var (_, rest) :- ReadString(bs);
    Ok(Skip, rest)
  }

  function ReadSizes(bs: seq<Byte>, n: nat): (r: Parsed<Record>)
    ensures r.Ok? ==> |r.rest| <= |bs|
  {
    if n == 0 then Ok(Skip, bs) else
      var (_, rest) :- ReadSize(bs);
      ReadSizes(rest, n - 1)
  }

  const OP_AUX: Byte := 0xFA
  const OP_RESIZE_DB: Byte := 0xFB
  const OP_EXPIRY_MS: Byte := 0xFC
  const OP_EXPIRY_SEC: Byte := 0xFD
  const OP_SELECT_DB: Byte := 0xFE
  const OP_EOF: Byte := 0xFF

  /** What follows an opcode; one that is not known is the type of a value without expiry. */
  function ReadBody(bs: seq<Byte>, op: Byte): (r: Parsed<Record>)
    ensures r.Ok? ==> |r.rest| <= |bs|
  {
    if op == OP_AUX then ReadAux(bs)
    else if op == OP_SELECT_DB then ReadSizes(bs, 1)
    else if op == OP_RESIZE_DB then ReadSizes(bs, 2)
    else if op == OP_EXPIRY_SEC then ReadExpiring(bs, false)
    else if op == OP_EXPIRY_MS then ReadExpiring(bs, true)
    else if op == OP_EOF then Ok(Stop, bs)
    else ReadEntry(bs, op, None)
  }

  function ReadRecord(bs: seq<Byte>): (r: Parsed<Record>)
    ensures r.Ok? ==> |r.rest| < |bs|
  {
    var (op, rest) :- ReadByte(bs);
    ReadBody(rest, op)
  }

  // ---------------------------------------------------------------------------------------
  // Loading
  // ---------------------------------------------------------------------------------------

  /** The store after loading, and the error if there was one. */
  datatype Loaded = Loaded(data: Data, error: Option<Error>)

  /** Seconds of the Unix time of a millisecond, rounded down. */
  function Seconds(millis: int): int { millis / 1000 }

  /** Entries whose expiry second is not after the current one are left out. */
  function Apply(data: Data, r: Record, now: int): Data {
    match r
    case Put(key, text, Some(at)) =>
      if Seconds(at) <= Seconds(now) then data else data[key := Entry(Str(text), Some(at))]
    case Put(key, text, None) => data[key := Entry(Str(text), None)]
    case _ => data
  }

  const MAGIC: seq<Byte> := [0x52, 0x45, 0x44, 0x49, 0x53]

  /** The magic string and the version, which is not looked at. */
  function ReadHeader(bs: seq<Byte>): (r: Parsed<bool>)
    ensures r.Ok? ==> |r.rest| <= |bs|
  {
    var (magic, rest) :- ReadFull(bs, 5);
    ReadVersion(rest, magic)
  }

  function ReadVersion(bs: seq<Byte>, magic: seq<Byte>): (r: Parsed<bool>)
    ensures r.Ok? ==> |r.rest| <= |bs|
  {
    if magic != MAGIC then Fail(InvalidMagic)
    else
      var (_, rest) :- ReadFull(bs, 4);
      Ok(true, rest)
  }

  /** The opcode loop of `Load`. */
  function LoadRecords(bs: seq<Byte>, data: Data, now: int): Loaded
    decreases |bs|
  {
    match ReadRecord(bs)
    case Fail(e) => Loaded(data, Some(e))
    case Ok(r, rest) => if r == Stop then Loaded(data, None) else LoadRecords(rest, Apply(data, r, now), now)
  }

  /** `Load` of a file that could be opened. */
  function LoadFile(bs: seq<Byte>, data: Data, now: int): Loaded {
    match ReadHeader(bs)
    case Fail(e) => Loaded(data, Some(e))
    case Ok(_, rest) => LoadRecords(rest, data, now)
  }

  // ---------------------------------------------------------------------------------------
  // Reading a prefix
  // ---------------------------------------------------------------------------------------

  /** How reading the first `m` bytes of `bs` relates to reading all of it: with all the bytes the
      value took, the same value and the rest cut short; with fewer, an end-of-file error. */
  ghost predicate OnPrefix<T>(bs: seq<Byte>, m: nat, whole: Parsed<T>, part: Parsed<T>)
    requires m <= |bs|
  {
    whole.Ok? && |whole.rest| <= |bs| ==>
      && (m >= |bs| - |whole.rest| ==> part == Ok(whole.value, whole.rest[..m - (|bs| - |whole.rest|)]))
      && (m < |bs| - |whole.rest| ==> part.Fail? && part.error in {Eof, UnexpectedEof})
  }

  lemma BytePrefix(bs: seq<Byte>, m: nat)
    requires m <= |bs|
    ensures OnPrefix(bs, m, ReadByte(bs), ReadByte(bs[..m]))
  {
    if m > 0 {
      assert bs[..m][1..] == bs[1..][..m - 1];
    }
  }

  lemma FullPrefix(bs: seq<Byte>, n: nat, m: nat)
    requires m <= |bs|
    ensures OnPrefix(bs, m, ReadFull(bs, n), ReadFull(bs[..m], n))
  {
    if n <= m {
      assert bs[..m][..n] == bs[..n];
      assert bs[..m][n..] == bs[n..][..m - n];
    }
  }

  /** The step every sequence of two readers takes. */
  lemma ThenPrefix<T, U>(bs: seq<Byte>, m: nat, first: Parsed<T>, first': Parsed<T>,
                         whole: Parsed<U>, part: Parsed<U>)
    requires m <= |bs| && OnPrefix(bs, m, first, first') && (first.Ok? ==> |first.rest| <= |bs|)
    requires first.Fail? ==> whole.Fail?
    requires first'.Fail? ==> part == Fail(first'.error)
    requires first.Ok? && first'.Ok? && m >= |bs| - |first.rest| ==>
      OnPrefix(first.rest, m - (|bs| - |first.rest|), whole, part)
    requires first.Ok? && whole.Ok? ==> |whole.rest| <= |first.rest|
    ensures OnPrefix(bs, m, whole, part)
  {
  }

  lemma LengthPrefix(bs: seq<Byte>, m: nat)
    requires m <= |bs|
    ensures OnPrefix(bs, m, ReadLength(bs), ReadLength(bs[..m]))
  {
    BytePrefix(bs, m);
    if m > 0 {
      var rest := ReadByte(bs).rest;
      BytePrefix(rest, m - 1);
      FullPrefix(rest, 4, m - 1);
    }
  }

  lemma IntegerPrefix(bs: seq<Byte>, width: nat, bound: nat, m: nat)
    requires m <= |bs|
    ensures OnPrefix(bs, m, ReadInteger(bs, width, bound), ReadInteger(bs[..m], width, bound))
  {
    FullPrefix(bs, width, m);
  }

  lemma TextPrefix(bs: seq<Byte>, length: Length, m: nat)
    requires m <= |bs|
    ensures OnPrefix(bs, m, ReadText(bs, length), ReadText(bs[..m], length))
  {
    FullPrefix(bs, length.size, m);
    IntegerPrefix(bs, 1, 0x80, m);
    IntegerPrefix(bs, 2, 0x8000, m);
    IntegerPrefix(bs, 4, 0x8000_0000, m);
  }

  lemma StringPrefix(bs: seq<Byte>, m: nat)
    requires m <= |bs|
    ensures OnPrefix(bs, m, ReadString(bs), ReadString(bs[..m]))
  {
    LengthPrefix(bs, m);
    var first, first' := ReadLength(bs), ReadLength(bs[..m]);
    if first.Ok? && m >= |bs| - |first.rest| {
      TextPrefix(first.rest, first.value, m - (|bs| - |first.rest|));
    }
    ThenPrefix(bs, m, first, first', ReadString(bs), ReadString(bs[..m]));
  }

  lemma ValuePrefix(bs: seq<Byte>, key: string, valueType: Byte, expireAt: Option<int>, m: nat)
    requires m <= |bs|
    ensures OnPrefix(bs, m, ReadValue(bs, key, valueType, expireAt), ReadValue(bs[..m], key, valueType, expireAt))
  {
    StringPrefix(bs, m);
  }

  lemma EntryPrefix(bs: seq<Byte>, valueType: Byte, expireAt: Option<int>, m: nat)
    requires m <= |bs|
    ensures OnPrefix(bs, m, ReadEntry(bs, valueType, expireAt), ReadEntry(bs[..m], valueType, expireAt))
  {
    StringPrefix(bs, m);
    var first := ReadString(bs);
    if first.Ok? && m >= |bs| - |first.rest| {
      ValuePrefix(first.rest, first.value, valueType, expireAt, m - (|bs| - |first.rest|));
    }
    ThenPrefix(bs, m, first, ReadString(bs[..m]), ReadEntry(bs, valueType, expireAt), ReadEntry(bs[..m], valueType, expireAt));
  }

  lemma TypedEntryPrefix(bs: seq<Byte>, expireAt: Option<int>, m: nat)
    requires m <= |bs|
    ensures OnPrefix(bs, m, ReadTypedEntry(bs, expireAt), ReadTypedEntry(bs[..m], expireAt))
  {
    BytePrefix(bs, m);
    var first := ReadByte(bs);
    if first.Ok? && m >= |bs| - |first.rest| {
      EntryPrefix(first.rest, first.value, expireAt, m - (|bs| - |first.rest|));
    }
    ThenPrefix(bs, m, first, ReadByte(bs[..m]), ReadTypedEntry(bs, expireAt), ReadTypedEntry(bs[..m], expireAt));
  }

  lemma ExpiringPrefix(bs: seq<Byte>, millis: bool, m: nat)
    requires m <= |bs|
    ensures OnPrefix(bs, m, ReadExpiring(bs, millis), ReadExpiring(bs[..m], millis))
  {
    var width := if millis then 8 else 4;
    FullPrefix(bs, width, m);
    var first := ReadFull(bs, width);
    if first.Ok? && m >= |bs| - |first.rest| {
      TypedEntryPrefix(first.rest, Some(ExpiryOf(first.value, millis)), m - (|bs| - |first.rest|));
    }
    ThenPrefix(bs, m, first, ReadFull(bs[..m], width), ReadExpiring(bs, millis), ReadExpiring(bs[..m], millis));
  }

  lemma AuxValuePrefix(bs: seq<Byte>, m: nat)
    requires m <= |bs|
    ensures OnPrefix(bs, m, ReadAuxValue(bs), ReadAuxValue(bs[..m]))
  {
    StringPrefix(bs, m);
  }

  lemma AuxPrefix(bs: seq<Byte>, m: nat)
    requires m <= |bs|
    ensures OnPrefix(bs, m, ReadAux(bs), ReadAux(bs[..m]))
  {
    StringPrefix(bs, m);
    var first := ReadString(bs);
    if first.Ok? && m >= |bs| - |first.rest| {
      AuxValuePrefix(first.rest, m - (|bs| - |first.rest|));
    }
    ThenPrefix(bs, m, first, ReadString(bs[..m]), ReadAux(bs), ReadAux(bs[..m]));
  }

  lemma SizePrefix(bs: seq<Byte>, m: nat)
    requires m <= |bs|
    ensures OnPrefix(bs, m, ReadSize(bs), ReadSize(bs[..m]))
  {
    LengthPrefix(bs, m);
  }

  lemma {:induction false} SizesPrefix(bs: seq<Byte>, n: nat, m: nat)
    requires m <= |bs|
    ensures OnPrefix(bs, m, ReadSizes(bs, n), ReadSizes(bs[..m], n))
    decreases n
  {
    if n > 0 {
      SizePrefix(bs, m);
      var first := ReadSize(bs);
      if first.Ok? && m >= |bs| - |first.rest| {
        SizesPrefix(first.rest, n - 1, m - (|bs| - |first.rest|));
      }
      ThenPrefix(bs, m, first, ReadSize(bs[..m]), ReadSizes(bs, n), ReadSizes(bs[..m], n));
    }
  }

  lemma BodyPrefix(bs: seq<Byte>, op: Byte, m: nat)
    requires m <= |bs|
    ensures OnPrefix(bs, m, ReadBody(bs, op), ReadBody(bs[..m], op))
  {
    if op == OP_AUX {
      AuxPrefix(bs, m);
    } else if op == OP_SELECT_DB {
      SizesPrefix(bs, 1, m);
    } else if op == OP_RESIZE_DB {
      SizesPrefix(bs, 2, m);
    } else if op == OP_EXPIRY_SEC || op == OP_EXPIRY_MS {
      ExpiringPrefix(bs, op == OP_EXPIRY_MS, m);
    } else {
      EntryPrefix(bs, op, None, m);
    }
  }

  /** Any record, on any bytes: a cut inside it is an end-of-file error, and a cut after it goes
      unnoticed. */
  lemma RecordPrefix(bs: seq<Byte>, m: nat)
    requires m <= |bs|
    ensures OnPrefix(bs, m, ReadRecord(bs), ReadRecord(bs[..m]))
  {
    BytePrefix(bs, m);
    var first := ReadByte(bs);
    if first.Ok? && m >= |bs| - |first.rest| {
      BodyPrefix(first.rest, first.value, m - (|bs| - |first.rest|));
    }
    ThenPrefix(bs, m, first, ReadByte(bs[..m]), ReadRecord(bs), ReadRecord(bs[..m]));
  }

  lemma VersionPrefix(bs: seq<Byte>, magic: seq<Byte>, m: nat)
    requires m <= |bs|
    ensures OnPrefix(bs, m, ReadVersion(bs, magic), ReadVersion(bs[..m], magic))
  {
    FullPrefix(bs, 4, m);
  }

  lemma HeaderPrefix(bs: seq<Byte>, m: nat)
    requires m <= |bs|
    ensures OnPrefix(bs, m, ReadHeader(bs), ReadHeader(bs[..m]))
  {
    FullPrefix(bs, 5, m);
    var first := ReadFull(bs, 5);
    if first.Ok? && m >= |bs| - |first.rest| {
      VersionPrefix(first.rest, first.value, m - (|bs| - |first.rest|));
    }
    ThenPrefix(bs, m, first, ReadFull(bs[..m], 5), ReadHeader(bs), ReadHeader(bs[..m]));
  }

  // ---------------------------------------------------------------------------------------
  // Encoding
  // ---------------------------------------------------------------------------------------

  function Power(n: nat): nat { if n == 0 then 1 else 256 * Power(n - 1) }

  function BigBytes(v: nat, n: nat): (bs: seq<Byte>)
    ensures |bs| == n
  {
    if n == 0 then [] else BigBytes(v / 256, n - 1) + [v % 256]
  }

  function LittleBytes(v: nat, n: nat): (bs: seq<Byte>)
    ensures |bs| == n
  {
    if n == 0 then [] else [v % 256] + LittleBytes(v / 256, n - 1)
  }

  lemma {:induction false} BigEndianOf(v: nat, n: nat)
    requires v < Power(n)
    ensures BigEndian(BigBytes(v, n)) == v
  {
    if n > 0 {
      BigEndianOf(v / 256, n - 1);
      assert BigBytes(v, n)[..n - 1] == BigBytes(v / 256, n - 1);
    }
  }

  lemma {:induction false} LittleEndianOf(v: nat, n: nat)
    requires v < Power(n)
    ensures LittleEndian(LittleBytes(v, n)) == v
  {
    if n > 0 {
      LittleEndianOf(v / 256, n - 1);
      assert LittleBytes(v, n)[1..] == LittleBytes(v / 256, n - 1);
    }
  }

  /** Two's complement. */
  function Unsigned(n: int, bound: int): nat
    requires -bound <= n < bound
  {
    if n < 0 then n + 2 * bound else n
  }

  predicate IsByteString(s: string) { forall i :: 0 <= i < |s| ==> s[i] as int < 256 }

  function AsBytes(s: string): (bs: seq<Byte>)
    requires IsByteString(s)
    ensures |bs| == |s| && AsText(bs) == s
  {
    seq(|s|, i requires 0 <= i < |s| => s[i] as int)
  }

  /** A length and the form to write it in. */
  datatype Width = Bits6 | Bits14 | Bits32

  datatype Size = Size(n: nat, width: Width)

  predicate SizeFits(size: Size) {
    size.n < match size.width case Bits6 => 64 case Bits14 => 0x4000 case Bits32 => 0x1_0000_0000
  }

  function EncodeSize(size: Size): seq<Byte>
    requires SizeFits(size)
  {
    match size.width
    case Bits6 => [size.n]
    case Bits14 => [0x40 + size.n / 256, size.n % 256]
    case Bits32 => [0x80] + BigBytes(size.n, 4)
  }

  /** A string and the form to write it in: with a length, or as a small integer. */
  datatype Encoded = Raw(text: string, width: Width) | Int8(n: int) | Int16(n: int) | Int32(n: int)

  predicate StringFits(e: Encoded) {
    match e
    case Raw(text, width) => IsByteString(text) && SizeFits(Size(|text|, width))
    case Int8(n) => -0x80 <= n < 0x80
    case Int16(n) => -0x8000 <= n < 0x8000
    case Int32(n) => -0x8000_0000 <= n < 0x8000_0000
  }

  function EncodeString(e: Encoded): seq<Byte>
    requires StringFits(e)
  {
    match e
    case Raw(text, width) => EncodeSize(Size(|text|, width)) + AsBytes(text)
    case Int8(n) => [0xC0] + LittleBytes(Unsigned(n, 0x80), 1)
    case Int16(n) => [0xC1] + LittleBytes(Unsigned(n, 0x8000), 2)
    case Int32(n) => [0xC2] + LittleBytes(Unsigned(n, 0x8000_0000), 4)
  }

  /** The string an encoding stands for. */
  function Meaning(e: Encoded): string {
    match e
    case Raw(text, _) => text
    case Int8(n) => Itoa(n)
    case Int16(n) => Itoa(n)
    case Int32(n) => Itoa(n)
  }

  datatype Expiry = Never | AtSecond(second: nat) | AtMilli(milli: int)

  datatype Item =
    | Aux(name: Encoded, setting: Encoded)
    | SelectDb(number: Size)
    | ResizeDb(keys: Size, expiring: Size)
    | Pair(key: Encoded, text: Encoded, expiry: Expiry)

  predicate ExpiryFits(e: Expiry) {
    match e
    case Never => true
    case AtSecond(second) => second < 0x1_0000_0000
    case AtMilli(milli) => -INT64_BOUND <= milli < INT64_BOUND
  }

  predicate ItemFits(item: Item) {
    match item
    case Aux(name, setting) => StringFits(name) && StringFits(setting)
    case SelectDb(number) => SizeFits(number)
    case ResizeDb(keys, expiring) => SizeFits(keys) && SizeFits(expiring)
    case Pair(key, text, expiry) => StringFits(key) && StringFits(text) && ExpiryFits(expiry)
  }

  function EncodeExpiry(e: Expiry): seq<Byte>
    requires ExpiryFits(e)
  {
    match e
    case Never => []
    case AtSecond(second) => [OP_EXPIRY_SEC] + LittleBytes(second, 4)
    case AtMilli(milli) => [OP_EXPIRY_MS] + LittleBytes(Unsigned(milli, INT64_BOUND), 8)
  }

  function EncodeItem(item: Item): (bs: seq<Byte>)
    requires ItemFits(item)
    ensures bs != []
  {
    match item
    case Aux(name, setting) => [OP_AUX] + EncodeString(name) + EncodeString(setting)
    case SelectDb(number) => [OP_SELECT_DB] + EncodeSize(number)
    case ResizeDb(keys, expiring) => [OP_RESIZE_DB] + EncodeSize(keys) + EncodeSize(expiring)
    case Pair(key, text, expiry) => EncodeExpiry(expiry) + [0] + EncodeString(key) + EncodeString(text)
  }

  function ExpireAt(e: Expiry): Option<int> {
    match e
    case Never => None
    case AtSecond(second) => Some(1000 * second)
    case AtMilli(milli) => Some(milli)
  }

  function RecordOf(item: Item): Record {
    if item.Pair? then Put(Meaning(item.key), Meaning(item.text), ExpireAt(item.expiry)) else Skip
  }

  // ---------------------------------------------------------------------------------------
  // Reading back what was encoded
  // ---------------------------------------------------------------------------------------

  lemma SizeReadsBack(size: Size, t: seq<Byte>)
    requires SizeFits(size)
    ensures ReadLength(EncodeSize(size) + t) == Ok(Length(false, size.n), t)
  {
    var bs := EncodeSize(size) + t;
    match size.width {
      case Bits6 =>
      case Bits14 =>
        assert bs[1..][1..] == t;
        assert BigEndian([size.n / 256, size.n % 256]) == size.n by {
          assert [size.n / 256, size.n % 256][..1] == [size.n / 256];
          assert BigEndian([size.n / 256]) == size.n / 256;
        }
      case Bits32 =>
        assert bs[1..] == BigBytes(size.n, 4) + t;
        assert bs[1..][..4] == BigBytes(size.n, 4) && bs[1..][4..] == t;
        assert Power(4) == 0x1_0000_0000;
        BigEndianOf(size.n, 4);
    }
  }

  lemma FullReadsBack(bs: seq<Byte>, t: seq<Byte>)
    ensures ReadFull(bs + t, |bs|) == Ok(bs, t)
  {
    assert (bs + t)[..|bs|] == bs && (bs + t)[|bs|..] == t;
  }

  lemma SignedReadsBack(n: int, width: nat, bound: nat)
    requires -(bound as int) <= n < bound && 2 * bound == Power(width)
    ensures Signed(LittleEndian(LittleBytes(Unsigned(n, bound), width)), bound) == n
  {
    LittleEndianOf(Unsigned(n, bound), width);
  }

  lemma IntegerReadsBack(n: int, width: nat, bound: nat, t: seq<Byte>)
    requires -(bound as int) <= n < bound && 2 * bound == Power(width)
    ensures ReadInteger(LittleBytes(Unsigned(n, bound), width) + t, width, bound) == Ok(Itoa(n), t)
  {
    FullReadsBack(LittleBytes(Unsigned(n, bound), width), t);
    SignedReadsBack(n, width, bound);
  }

  lemma Powers()
    ensures Power(1) == 0x100 && Power(2) == 0x1_0000 && Power(4) == 0x1_0000_0000
    ensures Power(8) == 0x1_0000_0000_0000_0000
  {
    assert Power(4) == 0x1_0000_0000;
    assert Power(6) == 0x1_0000_0000_0000;
  }

  lemma ByteReadsBack(b: Byte, bs: seq<Byte>, t: seq<Byte>)
    requires bs == [b] + t
    ensures ReadByte(bs) == Ok(b, t)
  {
  }

  /** The integer forms of a string. */
  lemma IntReadsBack(code: Byte, n: int, width: nat, bound: nat, bs: seq<Byte>, t: seq<Byte>)
    requires (code, width, bound) in {(0xC0, 1, 0x80), (0xC1, 2, 0x8000), (0xC2, 4, 0x8000_0000)}
    requires -(bound as int) <= n < bound
    requires bs == [code] + LittleBytes(Unsigned(n, bound), width) + t
    ensures ReadString(bs) == Ok(Itoa(n), t)
  {
    Powers();
    var tail := LittleBytes(Unsigned(n, bound), width) + t;
    IntegerReadsBack(n, width, bound, t);
    ByteReadsBack(code, bs, tail);
  }

  /** Every form of a string reads back as the string it stands for. */
  lemma StringReadsBack(e: Encoded, t: seq<Byte>)
    requires StringFits(e)
    ensures ReadString(EncodeString(e) + t) == Ok(Meaning(e), t)
  {
    match e {
      case Raw(text, width) =>
        var size, bytes := Size(|text|, width), AsBytes(text);
        SizeReadsBack(size, bytes + t);
        FullReadsBack(bytes, t);
        assert EncodeString(e) + t == EncodeSize(size) + (bytes + t);
      case Int8(n) => IntReadsBack(0xC0, n, 1, 0x80, EncodeString(e) + t, t);
      case Int16(n) => IntReadsBack(0xC1, n, 2, 0x8000, EncodeString(e) + t, t);
      case Int32(n) => IntReadsBack(0xC2, n, 4, 0x8000_0000, EncodeString(e) + t, t);
    }
  }

  lemma EntryReadsBack(key: Encoded, text: Encoded, at: Option<int>, bs: seq<Byte>, rest: seq<Byte>, t: seq<Byte>)
    requires StringFits(key) && StringFits(text)
    requires bs == EncodeString(key) + rest && rest == EncodeString(text) + t
    ensures ReadEntry(bs, 0, at) == Ok(Put(Meaning(key), Meaning(text), at), t)
  {
    StringReadsBack(key, rest);
    StringReadsBack(text, t);
  }

  lemma ExpiryReadsBack(expiry: Expiry, buf: seq<Byte>)
    requires ExpiryFits(expiry) && expiry != Never && buf == EncodeExpiry(expiry)[1..]
    ensures |buf| == (if expiry.AtMilli? then 8 else 4) && Some(ExpiryOf(buf, expiry.AtMilli?)) == ExpireAt(expiry)
  {
    Powers();
    if expiry.AtMilli? {
      SignedReadsBack(expiry.milli, 8, INT64_BOUND);
    } else {
      LittleEndianOf(expiry.second, 4);
    }
  }

  lemma ExpiringReadsBack(key: Encoded, text: Encoded, expiry: Expiry,
                          bs: seq<Byte>, entry: seq<Byte>, rest: seq<Byte>, t: seq<Byte>)
    requires StringFits(key) && StringFits(text) && ExpiryFits(expiry) && expiry != Never
    requires bs == EncodeExpiry(expiry)[1..] + ([0] + entry)
    requires entry == EncodeString(key) + rest && rest == EncodeString(text) + t
    ensures ReadExpiring(bs, expiry.AtMilli?) == Ok(Put(Meaning(key), Meaning(text), ExpireAt(expiry)), t)
  {
    var buf := EncodeExpiry(expiry)[1..];
    ExpiryReadsBack(expiry, buf);
    FullReadsBack(buf, [0] + entry);
    ByteReadsBack(0, [0] + entry, entry);
    EntryReadsBack(key, text, ExpireAt(expiry), entry, rest, t);
  }

  lemma Regroup(a: seq<Byte>, b: seq<Byte>, c: seq<Byte>, d: seq<Byte>, t: seq<Byte>)
    ensures a + b + c + d + t == a + (b + (c + (d + t)))
  {
  }

  lemma FirstApart(a: seq<Byte>, t: seq<Byte>)
    requires a != []
    ensures a + t == [a[0]] + (a[1..] + t)
  {
  }

  lemma OpcodeFirst(op: Byte, bs: seq<Byte>, tail: seq<Byte>)
    requires bs == [op] + tail
    ensures ReadRecord(bs) == ReadBody(tail, op)
  {
    ByteReadsBack(op, bs, tail);
  }

  lemma PairBytes(item: Item, t: seq<Byte>)
    requires ItemFits(item) && item.Pair?
    ensures EncodeItem(item) + t ==
            EncodeExpiry(item.expiry) + ([0] + (EncodeString(item.key) + (EncodeString(item.text) + t)))
  {
    Regroup(EncodeExpiry(item.expiry), [0], EncodeString(item.key), EncodeString(item.text), t);
  }

  lemma PlainReadsBack(item: Item, bs: seq<Byte>, entry: seq<Byte>, rest: seq<Byte>, t: seq<Byte>)
    requires ItemFits(item) && item.Pair? && item.expiry == Never && bs == [0] + entry
    requires entry == EncodeString(item.key) + rest && rest == EncodeString(item.text) + t
    ensures ReadRecord(bs) == Ok(RecordOf(item), t)
  {
    OpcodeFirst(0, bs, entry);
    EntryReadsBack(item.key, item.text, None, entry, rest, t);
  }

  lemma ExpiryOpcode(expiry: Expiry, tail: seq<Byte>)
    requires ExpiryFits(expiry) && expiry != Never
    ensures ReadBody(tail, EncodeExpiry(expiry)[0]) == ReadExpiring(tail, expiry.AtMilli?)
  {
  }

  lemma ExpiringRecord(item: Item, op: Byte, bs: seq<Byte>, tail: seq<Byte>, record: Record, t: seq<Byte>)
    requires ItemFits(item) && item.Pair? && item.expiry != Never && op == EncodeExpiry(item.expiry)[0]
    requires bs == [op] + tail && ReadExpiring(tail, item.expiry.AtMilli?) == Ok(record, t)
    ensures ReadRecord(bs) == Ok(record, t)
  {
    OpcodeFirst(op, bs, tail);
    ExpiryOpcode(item.expiry, tail);
  }

  lemma PairReadsBack(item: Item, bs: seq<Byte>, entry: seq<Byte>, rest: seq<Byte>, t: seq<Byte>)
    requires ItemFits(item) && item.Pair? && bs == EncodeExpiry(item.expiry) + ([0] + entry)
    requires entry == EncodeString(item.key) + rest && rest == EncodeString(item.text) + t
    ensures ReadRecord(bs) == Ok(RecordOf(item), t)
  {
    var e := EncodeExpiry(item.expiry);
    if item.expiry == Never {
      assert bs == [0] + entry;
      PlainReadsBack(item, bs, entry, rest, t);
    } else {
      var tail := e[1..] + ([0] + entry);
      FirstApart(e, [0] + entry);
      ExpiringReadsBack(item.key, item.text, item.expiry, tail, entry, rest, t);
      ExpiringRecord(item, e[0], bs, tail, RecordOf(item), t);
    }
  }

  lemma SizeIsPlain(size: Size, t: seq<Byte>)
    requires SizeFits(size)
    ensures ReadSize(EncodeSize(size) + t) == Ok(size.n, t)
  {
    SizeReadsBack(size, t);
  }

  lemma SelectReadsBack(number: Size, t: seq<Byte>)
    requires SizeFits(number)
    ensures ReadSizes(EncodeSize(number) + t, 1) == Ok(Skip, t)
  {
    SizeIsPlain(number, t);
  }

  lemma ResizeReadsBack(keys: Size, expiring: Size, bs: seq<Byte>, t: seq<Byte>)
    requires SizeFits(keys) && SizeFits(expiring) && bs == EncodeSize(keys) + (EncodeSize(expiring) + t)
    ensures ReadSizes(bs, 2) == Ok(Skip, t)
  {
    SizeIsPlain(keys, EncodeSize(expiring) + t);
    SelectReadsBack(expiring, t);
  }

  lemma AuxReadsBack(name: Encoded, setting: Encoded, bs: seq<Byte>, t: seq<Byte>)
    requires StringFits(name) && StringFits(setting) && bs == EncodeString(name) + (EncodeString(setting) + t)
    ensures ReadAux(bs) == Ok(Skip, t)
  {
    StringReadsBack(name, EncodeString(setting) + t);
    StringReadsBack(setting, t);
  }

  lemma OpcodeApart(op: Byte, a: seq<Byte>, b: seq<Byte>, t: seq<Byte>)
    ensures ReadRecord([op] + a + b + t) == ReadBody(a + (b + t), op)
  {
    assert [op] + a + b + t == [op] + (a + (b + t));
    OpcodeFirst(op, [op] + a + b + t, a + (b + t));
  }

  /** Every item reads back, whatever follows it. */
  lemma ItemReadsBack(item: Item, t: seq<Byte>)
    requires ItemFits(item)
    ensures ReadRecord(EncodeItem(item) + t) == Ok(RecordOf(item), t)
  {
    match item {
      case Aux(name, setting) =>
        var a, b := EncodeString(name), EncodeString(setting);
        OpcodeApart(OP_AUX, a, b, t);
        AuxReadsBack(name, setting, a + (b + t), t);
      case SelectDb(number) =>
        OpcodeApart(OP_SELECT_DB, EncodeSize(number), [], t);
        SelectReadsBack(number, [] + t);
        assert [OP_SELECT_DB] + EncodeSize(number) + [] == EncodeItem(item);
        assert [] + t == t;
      case ResizeDb(keys, expiring) =>
        var a, b := EncodeSize(keys), EncodeSize(expiring);
        OpcodeApart(OP_RESIZE_DB, a, b, t);
        ResizeReadsBack(keys, expiring, a + (b + t), t);
      case Pair(key, text, _) =>
        var rest := EncodeString(text) + t;
        PairBytes(item, t);
        PairReadsBack(item, EncodeItem(item) + t, EncodeString(key) + rest, rest, t);
    }
  }

  // ---------------------------------------------------------------------------------------
  // Whole files and cut files
  // ---------------------------------------------------------------------------------------

  /** Whether an entry is still to be loaded at `now`. */
  predicate Live(e: Expiry, now: int) {
    match e
    case Never => true
    case AtSecond(second) => Seconds(now) < second
    case AtMilli(milli) => Seconds(now) < Seconds(milli)
  }

  function SetItem(data: Data, item: Item, now: int): Data {
    if item.Pair? && Live(item.expiry, now)
    then data[Meaning(item.key) := Entry(Str(Meaning(item.text)), ExpireAt(item.expiry))]
    else data
  }

  /** The entries that are live, set in order. */
  function Restore(items: seq<Item>, data: Data, now: int): Data {
    if items == [] then data else Restore(items[1..], SetItem(data, items[0], now), now)
  }

  ghost predicate AllFit(items: seq<Item>) {
    forall i :: 0 <= i < |items| ==> ItemFits(items[i])
  }

  function Items(items: seq<Item>): seq<Byte>
    requires AllFit(items)
  {
    if items == [] then [] else EncodeItem(items[0]) + Items(items[1..])
  }

  /** How many items end within the first `n` bytes. */
  function WholeItems(items: seq<Item>, n: int): (k: nat)
    requires AllFit(items)
    ensures k <= |items|
  {
    if items == [] || n < |EncodeItem(items[0])| then 0
    else 1 + WholeItems(items[1..], n - |EncodeItem(items[0])|)
  }

  lemma ApplyIsSet(data: Data, item: Item, now: int)
    ensures Apply(data, RecordOf(item), now) == SetItem(data, item, now)
  {
  }

  /** The body of a file cut to its first `n` bytes. */
  ghost predicate CutLoads(items: seq<Item>, n: int, data: Data, now: int, r: Loaded)
    requires AllFit(items)
  {
    if n > |Items(items)| then r == Loaded(Restore(items, data, now), None)
    else r.error in {Some(Eof), Some(UnexpectedEof)} && r.data == Restore(items[..WholeItems(items, n)], data, now)
  }

  lemma CutLoadsStep(items: seq<Item>, n: int, data: Data, now: int, r: Loaded)
    requires AllFit(items) && items != [] && n >= |EncodeItem(items[0])|
    requires CutLoads(items[1..], n - |EncodeItem(items[0])|, SetItem(data, items[0], now), now, r)
    ensures CutLoads(items, n, data, now, r)
  {
    var k := WholeItems(items[1..], n - |EncodeItem(items[0])|);
    assert items[..k + 1][1..] == items[1..][..k];
  }

  /** The first item of a cut body. */
  lemma FirstOfCut(item: Item, rest: seq<Byte>, n: nat, bs: seq<Byte>)
    requires ItemFits(item) && bs == EncodeItem(item) + rest && n <= |bs|
    ensures var r := ReadRecord(bs[..n]);
            if n < |EncodeItem(item)| then r.Fail? && r.error in {Eof, UnexpectedEof}
            else r == Ok(RecordOf(item), rest[..n - |EncodeItem(item)|])
  {
    ItemReadsBack(item, rest);
    RecordPrefix(bs, n);
  }

  lemma LoadOfCutEnd(t: seq<Byte>, n: nat, data: Data, now: int, bs: seq<Byte>)
    requires bs == [OP_EOF] + t && n <= |bs|
    ensures CutLoads([], n, data, now, LoadRecords(bs[..n], data, now))
  {
    if n > 0 {
      ByteReadsBack(OP_EOF, bs[..n], t[..n - 1]);
    }
  }

  lemma LoadRecordsStep(item: Item, bs: seq<Byte>, rest: seq<Byte>, data: Data, now: int)
    requires ReadRecord(bs) == Ok(RecordOf(item), rest)
    ensures LoadRecords(bs, data, now) == LoadRecords(rest, SetItem(data, item, now), now)
  {
    ApplyIsSet(data, item, now);
  }

  lemma CutInFirst(items: seq<Item>, n: nat, data: Data, now: int, bs: seq<Byte>, rest: seq<Byte>)
    requires AllFit(items) && items != [] && n < |EncodeItem(items[0])| && bs == EncodeItem(items[0]) + rest
    ensures CutLoads(items, n, data, now, LoadRecords(bs[..n], data, now))
  {
    FirstOfCut(items[0], rest, n, bs);
  }

  lemma CutLater(items: seq<Item>, n: nat, data: Data, now: int, cut: seq<Byte>, tail: seq<Byte>)
    requires AllFit(items) && items != [] && n >= |EncodeItem(items[0])|
    requires ReadRecord(cut) == Ok(RecordOf(items[0]), tail)
    requires var data' := SetItem(data, items[0], now);
             CutLoads(items[1..], n - |EncodeItem(items[0])|, data', now, LoadRecords(tail, data', now))
    ensures CutLoads(items, n, data, now, LoadRecords(cut, data, now))
  {
    LoadRecordsStep(items[0], cut, tail, data, now);
    CutLoadsStep(items, n, data, now, LoadRecords(cut, data, now));
  }

  lemma ItemsApart(items: seq<Item>, t: seq<Byte>)
    requires AllFit(items) && items != []
    ensures Items(items) + ([OP_EOF] + t) == EncodeItem(items[0]) + (Items(items[1..]) + ([OP_EOF] + t))
  {
  }

  lemma {:induction false} LoadOfCutItems(items: seq<Item>, t: seq<Byte>, n: nat, data: Data, now: int, bs: seq<Byte>)
    requires AllFit(items) && n <= |bs| && bs == Items(items) + ([OP_EOF] + t)
    ensures CutLoads(items, n, data, now, LoadRecords(bs[..n], data, now))
    decreases |items|
  {
    if items == [] {
      LoadOfCutEnd(t, n, data, now, bs);
    } else {
      var m, rest := n - |EncodeItem(items[0])|, Items(items[1..]) + ([OP_EOF] + t);
      ItemsApart(items, t);
      if m < 0 {
        CutInFirst(items, n, data, now, bs, rest);
      } else {
        LoadOfCutItems(items[1..], t, m, SetItem(data, items[0], now), now, rest);
        FirstOfCut(items[0], rest, n, bs);
        CutLater(items, n, data, now, bs[..n], rest[..m]);
      }
    }
  }

  /** A file: the header, the items, the end opcode, and whatever comes after it. */
  function File(version: seq<Byte>, items: seq<Item>, t: seq<Byte>): seq<Byte>
    requires AllFit(items)
  {
    MAGIC + version + (Items(items) + ([OP_EOF] + t))
  }

  lemma HeaderReadsBack(version: seq<Byte>, rest: seq<Byte>)
    requires |version| == 4
    ensures ReadHeader(MAGIC + version + rest) == Ok(true, rest)
  {
    FullReadsBack(MAGIC, version + rest);
    FullReadsBack(version, rest);
    assert MAGIC + version + rest == MAGIC + (version + rest);
  }

  lemma HeaderOfCut(version: seq<Byte>, rest: seq<Byte>, n: nat, bs: seq<Byte>)
    requires |version| == 4 && bs == MAGIC + version + rest && n <= |bs|
    ensures var r := ReadHeader(bs[..n]);
            if n < 9 then r.Fail? && r.error in {Eof, UnexpectedEof} else r == Ok(true, rest[..n - 9])
  {
    HeaderReadsBack(version, rest);
    HeaderPrefix(bs, n);
  }

  lemma NoWholeItems(items: seq<Item>, n: int)
    requires AllFit(items) && n < 0
    ensures WholeItems(items, n) == 0 && n <= |Items(items)|
  {
  }

  lemma LoadOfCutHeader(items: seq<Item>, n: nat, bs: seq<Byte>, data: Data, now: int)
    requires AllFit(items) && n < 9
    requires ReadHeader(bs).Fail? && ReadHeader(bs).error in {Eof, UnexpectedEof}
    ensures CutLoads(items, n - 9, data, now, LoadFile(bs, data, now))
  {
    NoWholeItems(items, n - 9);
  }

  /** A file cut to its first `n` bytes loads exactly the live entries among the items that are whole,
      and loads without error exactly when the end opcode is there. */
  lemma LoadOfCutFile(version: seq<Byte>, items: seq<Item>, t: seq<Byte>, n: nat, data: Data, now: int)
    requires |version| == 4 && AllFit(items) && n <= |File(version, items, t)|
    ensures CutLoads(items, n - 9, data, now, LoadFile(File(version, items, t)[..n], data, now))
  {
    var bs, rest := File(version, items, t), Items(items) + ([OP_EOF] + t);
    HeaderOfCut(version, rest, n, bs);
    if n < 9 {
      LoadOfCutHeader(items, n, bs[..n], data, now);
    } else {
      LoadOfCutItems(items, t, n - 9, data, now, rest);
      assert LoadFile(bs[..n], data, now) == LoadRecords(rest[..n - 9], data, now);
    }
  }

  /** A whole file loads to the end opcode and leaves its live entries, set in order. */
  lemma LoadOfFile(version: seq<Byte>, items: seq<Item>, t: seq<Byte>, data: Data, now: int)
    requires |version| == 4 && AllFit(items)
    ensures LoadFile(File(version, items, t), data, now) == Loaded(Restore(items, data, now), None)
  {
    var bs := File(version, items, t);
    LoadOfCutFile(version, items, t, |bs|, data, now);
    assert bs[..|bs|] == bs;
  }

  predicate Sets(item: Item, key: string, now: int) {
    item.Pair? && Meaning(item.key) == key && Live(item.expiry, now)
  }

  /** At every key: the last live item for it, or what the store held before. */
  lemma {:induction false} RestoredAt(items: seq<Item>, data: Data, now: int, key: string, last: int)
    requires -1 <= last < |items| && (last >= 0 ==> Sets(items[last], key, now))
    requires forall i :: last < i < |items| ==> !Sets(items[i], key, now)
    ensures var data' := Restore(items, data, now);
            if last >= 0 then
              key in data' && data'[key] == Entry(Str(Meaning(items[last].text)), ExpireAt(items[last].expiry))
            else SameAt(data, data', key)
    decreases |items|
  {
    if items != [] {
      RestoredAt(items[1..], SetItem(data, items[0], now), now, key, if last >= 0 then last - 1 else -1);
    }
  }
}
