/** The formats byte by byte on samples, and a position of the geospatial tests with its score: what fixes the
    markers, the opcodes and the grid that the round trips leave open. */
module Samples {
  import opened Text
  import opened Parsing
  import opened Order
  import opened Keyspace
  import opened Commands
  import opened Morton
  import opened Geo
  import opened Answers
  import Resp
  import Rdb

  // ---------------------------------------------------------------------------------------
  // RESP
  // ---------------------------------------------------------------------------------------

  lemma HeaderBytes(symbol: char, n: nat)
    requires n < 10
    ensures Resp.Header(symbol, n) == [symbol, Digit(n), '\r', '\n']
  {
  }

  /** The bytes of a bulk string of one digit's length, and of a command of one element. */
  lemma BulkBytes(v: string)
    requires |v| < 10
    ensures Resp.Bulk(v) == ['$', Digit(|v|), '\r', '\n'] + v + ['\r', '\n']
  {
    HeaderBytes('$', |v|);
  }

  lemma CommandBytes(v: string)
    requires |v| < 10
    ensures Resp.Command([v]) == ['*', '1', '\r', '\n'] + (['$', Digit(|v|), '\r', '\n'] + v + ['\r', '\n'])
  {
    HeaderBytes('*', 1);
    BulkBytes(v);
    assert [v][1..] == [] && Resp.Bulk(v) + "" == Resp.Bulk(v);
    assert Resp.Elems([v]) == Resp.Bulk(v) + Resp.Elems([v][1..]);
    assert Digit(1) == '1';
  }

  /** Such a command reads back from its bytes, whatever follows them. */
  lemma BytesRead(v: string, t: string)
    requires |v| < 10
    ensures Resp.ReadArray(['*', '1', '\r', '\n'] + (['$', Digit(|v|), '\r', '\n'] + v + ['\r', '\n']) + t) == Ok([v], t)
  {
    CommandBytes(v);
    Resp.RoundTrip([v], t);
  }

  // ---------------------------------------------------------------------------------------
  // RDB
  // ---------------------------------------------------------------------------------------

  const K := Rdb.Raw("k", Rdb.Bits6)
  const V := Rdb.Raw("v", Rdb.Bits6)

  lemma SizeBytes()
    ensures Rdb.EncodeSize(Rdb.Size(3, Rdb.Bits6)) == [3]
    ensures Rdb.EncodeSize(Rdb.Size(256, Rdb.Bits14)) == [0x41, 0x00]
    ensures Rdb.EncodeSize(Rdb.Size(256, Rdb.Bits32)) == [0x80, 0, 0, 1, 0]
  {
    assert Rdb.BigBytes(0, 1) == [0] && Rdb.BigBytes(0, 2) == [0, 0];
    assert Rdb.BigBytes(1, 3) == [0, 0, 1] && Rdb.BigBytes(256, 4) == [0, 0, 1, 0];
  }

  /** The three forms of a length, read from their bytes. */
  lemma SizeBytesRead(t: seq<Rdb.Byte>)
    ensures Rdb.ReadLength([3] + t) == Ok(Rdb.Length(false, 3), t)
    ensures Rdb.ReadLength([0x41, 0x00] + t) == Ok(Rdb.Length(false, 256), t)
    ensures Rdb.ReadLength([0x80, 0, 0, 1, 0] + t) == Ok(Rdb.Length(false, 256), t)
  {
    SizeBytes();
    Rdb.SizeReadsBack(Rdb.Size(3, Rdb.Bits6), t);
    Rdb.SizeReadsBack(Rdb.Size(256, Rdb.Bits14), t);
    Rdb.SizeReadsBack(Rdb.Size(256, Rdb.Bits32), t);
  }

  lemma ZeroBytes()
    ensures Rdb.LittleBytes(0, 2) == [0, 0] && Rdb.LittleBytes(0, 6) == [0, 0, 0, 0, 0, 0]
  {
    assert Rdb.LittleBytes(0, 4) == [0, 0] + Rdb.LittleBytes(0, 2);
    assert Rdb.LittleBytes(0, 6) == [0, 0] + Rdb.LittleBytes(0, 4);
  }

  lemma Bytes258()
    ensures Rdb.LittleBytes(258, 2) == [2, 1] && Rdb.LittleBytes(258, 4) == [2, 1, 0, 0]
    ensures Rdb.LittleBytes(258, 8) == [2, 1, 0, 0, 0, 0, 0, 0]
  {
    ZeroBytes();
    assert Rdb.LittleBytes(1, 1) == [1];
    assert Rdb.LittleBytes(1, 3) == [1] + Rdb.LittleBytes(0, 2);
    assert Rdb.LittleBytes(1, 7) == [1] + Rdb.LittleBytes(0, 6);
  }

  lemma NumberBytes()
    ensures Rdb.EncodeString(Rdb.Int8(-5)) == [0xC0, 0xFB]
    ensures Rdb.EncodeString(Rdb.Int16(258)) == [0xC1, 2, 1]
    ensures Rdb.EncodeString(Rdb.Int32(258)) == [0xC2, 2, 1, 0, 0]
  {
    Bytes258();
    assert Rdb.LittleBytes(251, 1) == [251];
  }

  lemma LetterBytes()
    ensures Rdb.EncodeString(K) == [1, 0x6B] && Rdb.EncodeString(V) == [1, 0x76]
  {
    assert Rdb.AsBytes("k") == [0x6B] && Rdb.AsBytes("v") == [0x76];
  }

  /** A string and the three forms of a number, read from their bytes. */
  lemma StringBytesRead(t: seq<Rdb.Byte>)
    ensures Rdb.ReadString([1, 0x6B] + t) == Ok("k", t)
    ensures Rdb.ReadString([0xC0, 0xFB] + t) == Ok(Itoa(-5), t)
    ensures Rdb.ReadString([0xC1, 2, 1] + t) == Ok(Itoa(258), t)
    ensures Rdb.ReadString([0xC2, 2, 1, 0, 0] + t) == Ok(Itoa(258), t)
  {
    LetterBytes();
    NumberBytes();
    Rdb.StringReadsBack(K, t);
    Rdb.StringReadsBack(Rdb.Int8(-5), t);
    Rdb.StringReadsBack(Rdb.Int16(258), t);
    Rdb.StringReadsBack(Rdb.Int32(258), t);
  }

  lemma EntryBytes()
    ensures Rdb.EncodeItem(Rdb.Pair(K, V, Rdb.Never)) == [0x00, 1, 0x6B, 1, 0x76]
    ensures Rdb.EncodeItem(Rdb.Aux(K, V)) == [0xFA, 1, 0x6B, 1, 0x76]
    ensures Rdb.EncodeItem(Rdb.SelectDb(Rdb.Size(0, Rdb.Bits6))) == [0xFE, 0]
    ensures Rdb.EncodeItem(Rdb.ResizeDb(Rdb.Size(2, Rdb.Bits6), Rdb.Size(1, Rdb.Bits6))) == [0xFB, 2, 1]
  {
    LetterBytes();
  }

  lemma SecondsBytes()
    ensures Rdb.EncodeItem(Rdb.Pair(K, V, Rdb.AtSecond(258))) == [0xFD, 2, 1, 0, 0] + [0x00, 1, 0x6B, 1, 0x76]
  {
    LetterBytes();
    Bytes258();
    assert Rdb.EncodeExpiry(Rdb.AtSecond(258)) == [0xFD, 2, 1, 0, 0];
  }

  lemma MillisBytes()
    ensures Rdb.EncodeItem(Rdb.Pair(K, V, Rdb.AtMilli(258))) ==
            [0xFC, 2, 1, 0, 0, 0, 0, 0, 0] + [0x00, 1, 0x6B, 1, 0x76]
  {
    LetterBytes();
    Bytes258();
    assert Rdb.EncodeExpiry(Rdb.AtMilli(258)) == [0xFC, 2, 1, 0, 0, 0, 0, 0, 0];
  }

  /** Every opcode and the type byte of a string, read from the bytes of a record; an expiry of 258 seconds or
      milliseconds. */
  lemma RecordBytesRead(t: seq<Rdb.Byte>)
    ensures Rdb.ReadRecord([0x00, 1, 0x6B, 1, 0x76] + t) == Ok(Rdb.Put("k", "v", None), t)
    ensures Rdb.ReadRecord([0xFA, 1, 0x6B, 1, 0x76] + t) == Ok(Rdb.Skip, t)
    ensures Rdb.ReadRecord([0xFE, 0] + t) == Ok(Rdb.Skip, t) && Rdb.ReadRecord([0xFB, 2, 1] + t) == Ok(Rdb.Skip, t)
    ensures Rdb.ReadRecord([0xFF] + t) == Ok(Rdb.Stop, t)
  {
    EntryBytes();
    Rdb.ItemReadsBack(Rdb.Pair(K, V, Rdb.Never), t);
    Rdb.ItemReadsBack(Rdb.Aux(K, V), t);
    Rdb.ItemReadsBack(Rdb.SelectDb(Rdb.Size(0, Rdb.Bits6)), t);
    Rdb.ItemReadsBack(Rdb.ResizeDb(Rdb.Size(2, Rdb.Bits6), Rdb.Size(1, Rdb.Bits6)), t);
    assert ([0xFF] + t)[1..] == t;
  }

  lemma ExpiringBytesRead(t: seq<Rdb.Byte>)
    ensures Rdb.ReadRecord([0xFD, 2, 1, 0, 0] + [0x00, 1, 0x6B, 1, 0x76] + t) == Ok(Rdb.Put("k", "v", Some(258000)), t)
    ensures Rdb.ReadRecord([0xFC, 2, 1, 0, 0, 0, 0, 0, 0] + [0x00, 1, 0x6B, 1, 0x76] + t) ==
            Ok(Rdb.Put("k", "v", Some(258)), t)
  {
    SecondsBytes();
    MillisBytes();
    Rdb.ItemReadsBack(Rdb.Pair(K, V, Rdb.AtSecond(258)), t);
    Rdb.ItemReadsBack(Rdb.Pair(K, V, Rdb.AtMilli(258)), t);
  }

  lemma OneItem(item: Rdb.Item, data: Data, now: int)
    requires Rdb.ItemFits(item)
    ensures Rdb.Items([item]) == Rdb.EncodeItem(item) && Rdb.Restore([item], data, now) == Rdb.SetItem(data, item, now)
  {
    assert [item][1..] == [] && Rdb.EncodeItem(item) + [] == Rdb.EncodeItem(item);
  }

  lemma FileBytes(version: seq<Rdb.Byte>, t: seq<Rdb.Byte>, items: seq<Rdb.Item>)
    requires items == [Rdb.Pair(K, V, Rdb.Never)]
    ensures Rdb.File(version, items, t) ==
            [0x52, 0x45, 0x44, 0x49, 0x53] + version + ([0x00, 1, 0x6B, 1, 0x76] + ([0xFF] + t))
  {
    EntryBytes();
    OneItem(items[0], map[], 0);
  }

  /** A file starts with REDIS and four bytes of version; this one holds one entry. */
  lemma FileBytesLoad(version: seq<Rdb.Byte>, t: seq<Rdb.Byte>, data: Data, now: int)
    requires |version| == 4
    ensures Rdb.LoadFile([0x52, 0x45, 0x44, 0x49, 0x53] + version + ([0x00, 1, 0x6B, 1, 0x76] + ([0xFF] + t)), data, now) ==
            Rdb.Loaded(data["k" := Entry(Str("v"), None)], None)
  {
    var items := [Rdb.Pair(K, V, Rdb.Never)];
    FileBytes(version, t, items);
    OneItem(items[0], data, now);
    Rdb.LoadOfFile(version, items, t, data, now);
  }

  // ---------------------------------------------------------------------------------------
  // Positions
  // ---------------------------------------------------------------------------------------

  lemma ParisCells()
    ensures (67108864.0 * (48.8584625 + 85.05112878) / 170.10225756).Floor == 52830107
    ensures (67108864.0 * (2.2944692 + 180.0) / 360.0).Floor == 33982152
  {
  }

  /** One more bit of each word. */
  lemma OneBit(x: nat, y: nat, a: nat, b: nat, k: nat)
    requires a < 2 && b < 2
    ensures MortonSum(2 * x + a, 2 * y + b, k + 1) == a + 2 * b + 4 * MortonSum(x, y, k)
  {
    assert (2 * x + a) / 2 == x && (2 * y + b) / 2 == y;
  }

  /** Two more bits of each word, the higher ones `a` and `b` and the lower ones `c` and `d`. */
  lemma TwoBits(x: nat, y: nat, a: nat, b: nat, c: nat, d: nat, k: nat, rest: nat) returns (x': nat, y': nat, sum: nat)
    requires a < 2 && b < 2 && c < 2 && d < 2 && MortonSum(x, y, k) == rest
    ensures x' == 4 * x + 2 * a + c && y' == 4 * y + 2 * b + d
    ensures sum == c + 2 * d + 4 * a + 8 * b + 16 * rest
    ensures MortonSum(x', y', k + 2) == sum
  {
    OneBit(x, y, a, b, k);
    OneBit(2 * x + a, 2 * y + b, c, d, k + 1);
    x', y' := 2 * (2 * x + a) + c, 2 * (2 * y + b) + d;
    sum := MortonSum(x', y', k + 2);
  }

  lemma {:induction false} NothingLeft(k: nat)
    ensures MortonSum(0, 0, k) == 0
  {
    if k > 0 {
      NothingLeft(k - 1);
    }
  }

  // The cells of the position, digit by digit.

  lemma ParisHigh() returns (x: nat, y: nat, sum: nat)
    ensures x == 201 && y == 129 && sum == 53315 && MortonSum(x, y, 14) == sum
  {
    NothingLeft(6);
    x, y, sum := 0, 0, 0;
    x, y, sum := TwoBits(x, y, 1, 1, 1, 0, 6, sum);
    x, y, sum := TwoBits(x, y, 0, 0, 0, 0, 8, sum);
    x, y, sum := TwoBits(x, y, 1, 0, 0, 0, 10, sum);
    x, y, sum := TwoBits(x, y, 0, 0, 1, 1, 12, sum);
  }

  lemma ParisUpper() returns (x: nat, y: nat, sum: nat)
    ensures x == 12897 && y == 8296 && sum == 218381441 && MortonSum(x, y, 20) == sum
  {
    x, y, sum := ParisHigh();
    x, y, sum := TwoBits(x, y, 1, 1, 0, 0, 14, sum);
    x, y, sum := TwoBits(x, y, 0, 1, 0, 0, 16, sum);
    x, y, sum := TwoBits(x, y, 0, 0, 1, 0, 18, sum);
  }

  lemma ParisLower() returns (x: nat, y: nat, sum: nat)
    ensures x == 825470 && y == 530971 && sum == 894490384350 && MortonSum(x, y, 26) == sum
  {
    x, y, sum := ParisUpper();
    x, y, sum := TwoBits(x, y, 1, 0, 1, 1, 20, sum);
    x, y, sum := TwoBits(x, y, 1, 1, 1, 0, 22, sum);
    x, y, sum := TwoBits(x, y, 1, 1, 0, 1, 24, sum);
  }

  lemma ParisSum(cellX: nat, cellY: nat)
    requires cellX == 52830107 && cellY == 33982152
    ensures MortonSum(cellX, cellY, 32) == 3663832614298053
  {
    var x, y, sum := ParisLower();
    x, y, sum := TwoBits(x, y, 0, 0, 1, 0, 26, sum);
    x, y, sum := TwoBits(x, y, 1, 1, 0, 0, 28, sum);
    x, y, sum := TwoBits(x, y, 1, 0, 1, 0, 30, sum);
  }

  /** Paris, as the geospatial tests give it: GEOADD stores it with the score they expect. */
  lemma ParisScore(args: seq<string>, env: Env, data: Data, o: Outcome)
    requires UsesMorton(env) && AsksFor(args, env, Coordinates(48.8584625, 2.2944692))
    requires o == Handle(GEOADD, args, env, data) && o.Done?
    ensures args[3] in ScoresAt(o.data, args[0]) && ScoresAt(o.data, args[0])[args[3]] == Finite(3663832614298053.0)
  {
    var c := Coordinates(48.8584625, 2.2944692);
    var x, y := GeoAddAnswers(args, env, data, c, o);
    CodeInNumbers(c, x, y);
    ParisCells();
    ParisSum(Value32(x, 32), Value32(y, 32));
  }
}
