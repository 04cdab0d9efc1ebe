/** The RESP2 codec for commands: arrays of bulk strings. */
module Resp {
  import opened Text
  import opened Parsing

  /** How reading can fail. `Eof` is an error that wraps io.EOF; `UnexpectedEof` is not. `Panic` is
      a slice out of range in the reader. */
  datatype Failure = Eof | UnexpectedEof | Malformed | Panic

  type Read<+T> = Parsed<T, string, Failure>

  // ---------------------------------------------------------------------------------------
  // Writing
  // ---------------------------------------------------------------------------------------

  const CRLF := "\r\n"

  function Header(symbol: char, n: nat): string { [symbol] + NatToString(n) + CRLF }

  /** `BulkString.Marshal`. */
  function Bulk(v: string): string { Header('$', |v|) + v + CRLF }

  function Elems(vs: seq<string>): string {
    if vs == [] then "" else Bulk(vs[0]) + Elems(vs[1..])
  }

  /** A command as it is written to the log and to replicas. */
  function Command(vs: seq<string>): string { Header('*', |vs|) + Elems(vs) }

  function Commands(cs: seq<seq<string>>): string {
    if cs == [] then "" else Command(cs[0]) + Commands(cs[1..])
  }

  // ---------------------------------------------------------------------------------------
  // Reading: functions of the unread input
  // ---------------------------------------------------------------------------------------

  /** The position of the first line feed, or the length of the input. */
  function FindNewline(s: string): (k: nat)
    ensures k <= |s|
    ensures k < |s| ==> s[k] == '\n'
  {
    if s == "" || s[0] == '\n' then 0 else 1 + FindNewline(s[1..])
  }

  /** `ReadHeader`: a line ending in CRLF, with its ending. */
  function ReadHeader(s: string): (r: Read<string>)
    ensures r.Ok? ==> 2 <= |r.value| && r.value[|r.value| - 2] == '\r' && s == r.value + r.rest
  {
    var k := FindNewline(s);
    if k == |s| then Fail(if s == "" then Eof else UnexpectedEof)
    else if k == 0 || s[k - 1] != '\r' then Fail(Malformed)
    else assert s == s[..k + 1] + s[k + 1..]; Ok(s[..k + 1], s[k + 1..])
  }

  /** `BulkString.Unmarshal`. */
  function ReadBulk(s: string): (r: Read<string>)
    ensures r.Ok? ==> |r.rest| < |s|
  {
    match ReadHeader(s)
    case Fail(e) => Fail(e)
    case Ok(data, rest) =>
      if data[0] != '$' then Fail(Malformed)
      else match ParseInt(data[1..|data| - 2], INT32_BOUND)
        case None => Fail(Malformed)
        case Some(n) =>
          if n < 0 then Fail(if n == -1 && rest == "" then UnexpectedEof else Panic)
          else if |rest| < n + 2 then Fail(UnexpectedEof)
          else if rest[n..n + 2] != CRLF then Fail(Malformed)
          else Ok(rest[..n], rest[n + 2..])
  }

  /** `SimpleString.Unmarshal`. */
  function ReadSimple(s: string): (r: Read<string>)
    ensures r.Ok? ==> |r.rest| < |s|
  {
    var k := FindNewline(s);
    if k == |s| then Fail(Eof)
    else if k < 3 || s[0] != '+' || s[k - 1] != '\r' then Fail(Malformed)
    else Ok(s[1..k - 1], s[k + 1..])
  }

  function ReadElem(s: string): (r: Read<string>)
    ensures r.Ok? ==> |r.rest| < |s|
  {
    if s == "" then Fail(Eof)
    else if s[0] == '+' then ReadSimple(s)
    else if s[0] == '$' then ReadBulk(s)
    else Fail(Malformed)
  }

  /** `n` elements in a row, each read by `elem`. */
  function ReadMany(elem: string -> Read<string>, s: string, n: int): Read<seq<string>>
    decreases if n < 0 then 0 else n
  {
    if n <= 0 then Ok([], s)
    else match elem(s)
      case Fail(e) => Fail(e)
      case Ok(v, rest) =>
        match ReadMany(elem, rest, n - 1)
        case Fail(e) => Fail(e)
        case Ok(vs, rest') => Ok([v] + vs, rest')
  }

  function ReadElems(s: string, n: int): Read<seq<string>> { ReadMany(ReadElem, s, n) }

  lemma ReadElemsShrinks(s: string, n: int)
    ensures var r := ReadElems(s, n); r.Ok? ==> |r.rest| <= |s|
    decreases if n < 0 then 0 else n
  {
    if n > 0 && ReadElem(s).Ok? {
      ReadElemsShrinks(ReadElem(s).rest, n - 1);
    }
  }

  /** `Array.Unmarshal`. */
  function ReadArray(s: string): (r: Read<seq<string>>)
    ensures r.Ok? ==> |r.rest| < |s|
  {
    match ReadHeader(s)
    case Fail(e) => Fail(e)
    case Ok(data, rest) =>
      if data[0] != '*' then Fail(Malformed)
      else match Atoi(data[1..|data| - 2])
        case None => Fail(Malformed)
        case Some(n) => ReadElemsShrinks(rest, n); ReadElems(rest, n)
  }

  // ---------------------------------------------------------------------------------------
  // Round trip
  // ---------------------------------------------------------------------------------------

  /** The lengths the reader accepts: 32 bits for a bulk string, 64 for an array. */
  ghost predicate Fits(vs: seq<string>) {
    |vs| < INT64_BOUND && BulksFit(vs)
  }

  ghost predicate BulksFit(vs: seq<string>) {
    forall i :: 0 <= i < |vs| ==> |vs[i]| < INT32_BOUND
  }

  lemma {:induction false} FindNewlineAfter(p: string, tail: string)
    requires '\n' !in p
    ensures FindNewline(p + "\n" + tail) == |p|
  {
    if p != "" {
      FindNewlineAfter(p[1..], tail);
      assert (p + "\n" + tail)[1..] == p[1..] + "\n" + tail;
    }
  }

  lemma {:induction false} NoNewline(p: string)
    requires '\n' !in p
    ensures FindNewline(p) == |p|
  {
    if p != "" {
      NoNewline(p[1..]);
    }
  }

  lemma ReadHeaderOf(symbol: char, n: nat, tail: string)
    requires symbol != '\n'
    ensures ReadHeader(Header(symbol, n) + tail) == Ok(Header(symbol, n), tail)
    ensures Header(symbol, n)[1..|Header(symbol, n)| - 2] == NatToString(n)
  {
    var p := [symbol] + NatToString(n) + "\r";
    assert '\n' !in p;
    FindNewlineAfter(p, tail);
    assert Header(symbol, n) + tail == p + "\n" + tail;
  }

  lemma ReadBulkOf(v: string, tail: string)
    ensures ReadBulk(Bulk(v) + tail) == if |v| < INT32_BOUND then Ok(v, tail) else Fail(Malformed)
  {
    var rest := v + CRLF + tail;
    assert Bulk(v) + tail == Header('$', |v|) + rest;
    ReadHeaderOf('$', |v|, rest);
    ParseIntOfItoa(|v|, INT32_BOUND);
    assert rest[..|v|] == v && rest[|v|..|v| + 2] == CRLF && rest[|v| + 2..] == tail;
  }

  lemma BulksFitCons(vs: seq<string>)
    requires vs != []
    ensures BulksFit(vs) <==> |vs[0]| < INT32_BOUND && BulksFit(vs[1..])
  {
    if |vs[0]| < INT32_BOUND && BulksFit(vs[1..]) {
      forall i | 0 <= i < |vs|
        ensures |vs[i]| < INT32_BOUND
      {
        assert i > 0 ==> vs[i] == vs[1..][i - 1];
      }
    }
  }

  lemma ReadElemOf(v: string, tail: string)
    ensures ReadElem(Bulk(v) + tail) == if |v| < INT32_BOUND then Ok(v, tail) else Fail(Malformed)
  {
    ReadBulkOf(v, tail);
    assert (Bulk(v) + tail)[0] == '$';
  }

  lemma ElemsCons(vs: seq<string>, tail: string)
    requires vs != []
    ensures Elems(vs) + tail == Bulk(vs[0]) + (Elems(vs[1..]) + tail)
  {
    var a, b := Bulk(vs[0]), Elems(vs[1..]);
    assert (a + b) + tail == a + (b + tail);
  }

  lemma ReadElemsStep(s: string, n: int)
    requires n > 0
    ensures var e := ReadElem(s);
            ReadElems(s, n) ==
            if e.Fail? then Fail(e.error)
            else if ReadElems(e.rest, n - 1).Fail? then Fail(ReadElems(e.rest, n - 1).error)
            else Ok([e.value] + ReadElems(e.rest, n - 1).value, ReadElems(e.rest, n - 1).rest)
  {
  }

  lemma {:induction false} ReadElemsOf(vs: seq<string>, tail: string)
    ensures ReadElems(Elems(vs) + tail, |vs|) == if BulksFit(vs) then Ok(vs, tail) else Fail(Malformed)
  {
    if vs == [] {
      assert Elems(vs) + tail == tail;
    } else {
      var s := Elems(vs[1..]) + tail;
      var t := Bulk(vs[0]) + s;
      BulksFitCons(vs);
      ReadElemOf(vs[0], s);
      ReadElemsOf(vs[1..], tail);
      assert ReadElems(t, |vs|) == if BulksFit(vs) then Ok(vs, tail) else Fail(Malformed) by {
        ReadElemsStep(t, |vs|);
        assert [vs[0]] + vs[1..] == vs;
      }
      ElemsCons(vs, tail);
    }
  }

  /** Reading a written command gives back its arguments, whatever bytes they hold, and leaves
      exactly what follows it; and it does so exactly when the lengths fit. */
  lemma RoundTrip(vs: seq<string>, tail: string)
    ensures ReadArray(Command(vs) + tail) == if Fits(vs) then Ok(vs, tail) else Fail(Malformed)
  {
    var rest := Elems(vs) + tail;
    assert Command(vs) + tail == Header('*', |vs|) + rest;
    ReadHeaderOf('*', |vs|, rest);
    ParseIntOfItoa(|vs|, INT64_BOUND);
    ReadElemsOf(vs, tail);
  }

  /** The length of a written command does not depend on what follows it. */
  lemma CommandsCons(cs: seq<seq<string>>)
    requires cs != [] && Fits(cs[0])
    ensures ReadArray(Commands(cs)) == Ok(cs[0], Commands(cs[1..]))
  {
    RoundTrip(cs[0], Commands(cs[1..]));
  }

  ghost predicate AllFit(cs: seq<seq<string>>) {
    forall c :: c in cs ==> Fits(c)
  }

  /** A concatenation of commands has one reading. */
  lemma {:induction false} UniqueReading(cs: seq<seq<string>>, ds: seq<seq<string>>)
    requires AllFit(cs) && AllFit(ds)
    requires Commands(cs) == Commands(ds)
    ensures cs == ds
  {
    if cs != [] {
      CommandsCons(cs);
      if ds != [] {
        CommandsCons(ds);
        UniqueReading(cs[1..], ds[1..]);
        assert [cs[0]] + cs[1..] == cs && [ds[0]] + ds[1..] == ds;
      }
    } else if ds != [] {
      CommandsCons(ds);
    }
  }

  // ---------------------------------------------------------------------------------------
  // The reader and the writer
  // ---------------------------------------------------------------------------------------

  type Result<+T> = Parsing.Result<T, Failure>

  function Prepend(vs: seq<string>, r: Read<seq<string>>): Read<seq<string>> {
    if r.Fail? then r else Ok(vs + r.value, r.rest)
  }

  lemma PrependNone(r: Read<seq<string>>)
    ensures Prepend([], r) == r
  {
    assert r.Ok? ==> [] + r.value == r.value;
  }

  /** The element loop with the values read so far. */
  function Accumulate(elem: string -> Read<string>, values: seq<string>, s: string, n: int): Read<seq<string>>
    decreases if n < 0 then 0 else n
  {
    if n <= 0 then Ok(values, s)
    else match elem(s)
      case Fail(e) => Fail(e)
      case Ok(v, rest) => Accumulate(elem, values + [v], rest, n - 1)
  }

  lemma AccumulateStep(elem: string -> Read<string>, values: seq<string>, s: string, n: int)
    requires n > 0
    ensures Accumulate(elem, values, s, n) ==
            if elem(s).Fail? then Fail(elem(s).error) else Accumulate(elem, values + [elem(s).value], elem(s).rest, n - 1)
  {
  }

  lemma {:induction false} Accumulates(elem: string -> Read<string>, values: seq<string>, s: string, n: int)
    ensures Accumulate(elem, values, s, n) == Prepend(values, ReadMany(elem, s, n))
    decreases if n < 0 then 0 else n
  {
    if n <= 0 {
      assert values + [] == values;
    } else if elem(s).Ok? {
      var v, rest := elem(s).value, elem(s).rest;
      Accumulates(elem, values + [v], rest, n - 1);
      if ReadMany(elem, rest, n - 1).Ok? {
        var vs := ReadMany(elem, rest, n - 1).value;
        assert values + ([v] + vs) == (values + [v]) + vs;
      }
    }
  }

  /** What the element loop will answer with `values` read and `n` elements to go. */
  function Finish(values: seq<string>, s: string, n: int): Read<seq<string>> {
    Accumulate(ReadElem, values, s, n)
  }

  lemma FinishStep(values: seq<string>, s: string, n: int)
    requires n > 0
    ensures var e := ReadElem(s);
            Finish(values, s, n) == if e.Fail? then Fail(e.error) else Finish(values + [e.value], e.rest, n - 1)
  {
    AccumulateStep(ReadElem, values, s, n);
  }

  lemma FinishAll(s: string, n: int)
    ensures Finish([], s, n) == ReadElems(s, n)
  {
    Accumulates(ReadElem, [], s, n);
    PrependNone(ReadElems(s, n));
  }

  /** A buffered reader; `input` is what it has not consumed yet. */
  class Reader {
    var input: string

    constructor (input: string)
      ensures this.input == input
    {
      this.input := input;
    }

    method Header() returns (r: Result<string>)
      modifies this
      ensures Did(ReadHeader(old(input)), r, input)
    {
      var k := FindNewline(input);
      if k == |input| {
        return Error(if input == "" then Eof else UnexpectedEof);
      }
      var data := input[..k + 1];
      input := input[k + 1..];
      if |data| <= 1 || data[|data| - 2] != '\r' {
        return Error(Malformed);
      }
      return Value(data);
    }

    method BulkString() returns (r: Result<string>)
      modifies this
      ensures Did(ReadBulk(old(input)), r, input)
    {
      var header := Header();
      if header.Error? {
        return Error(header.error);
      }
      var data := header.value;
      if data[0] != '$' {
        return Error(Malformed);
      }
      var size := ParseInt(data[1..|data| - 2], INT32_BOUND);
      if size == None {
        return Error(Malformed);
      }
      if size.value < 0 {
        return Error(if size.value == -1 && input == "" then UnexpectedEof else Panic);
      }
      if |input| < size.value + 2 {
        return Error(UnexpectedEof);
      }
      var buffer := input[..size.value + 2];
      input := input[size.value + 2..];
      if buffer[size.value..] != CRLF {
        return Error(Malformed);
      }
      assert buffer[..size.value] == old(input)[|data|..][..size.value];
      return Value(buffer[..size.value]);
    }

    method SimpleString() returns (r: Result<string>)
      modifies this
      ensures Did(ReadSimple(old(input)), r, input)
    {
      var k := FindNewline(input);
      if k == |input| {
        return Error(Eof);
      }
      var data := input[..k + 1];
      input := input[k + 1..];
      if |data| <= 3 || data[0] != '+' || data[|data| - 2] != '\r' {
        return Error(Malformed);
      }
      assert data[1..|data| - 2] == old(input)[1..k - 1];
      return Value(data[1..|data| - 2]);
    }

    method Element() returns (r: Result<string>)
      modifies this
      ensures Did(ReadElem(old(input)), r, input)
    {
      if input == "" {
        return Error(Eof);
      }
      if input[0] == '+' {
        r := SimpleString();
      } else if input[0] == '$' {
        r := BulkString();
      } else {
        r := Error(Malformed);
      }
    }

    method Array() returns (r: Result<seq<string>>)
      modifies this
      ensures Did(ReadArray(old(input)), r, input)
    {
      var header := Header();
      if header.Error? {
        return Error(header.error);
      }
      var data := header.value;
      if data[0] != '*' {
        return Error(Malformed);
      }
      var size := Atoi(data[1..|data| - 2]);
      if size == None {
        return Error(Malformed);
      }
      r := Elements(size.value);
    }

    /** The loop of `Array.Unmarshal`. */
    method Elements(size: int) returns (r: Result<seq<string>>)
      modifies this
      ensures Did(ReadElems(old(input), size), r, input)
    {
      FinishAll(input, size);
      ghost var spec := Finish([], input, size);
      var values, left := [], size;
      while left > 0
        invariant Finish(values, input, left) == spec
      {
        var next := AppendElement(values, left, spec);
        if next.Error? {
          return next;
        }
        values := next.value;
        left := left - 1;
      }
      return Value(values);
    }

    /** One round of the loop. */
    method AppendElement(values: seq<string>, ghost left: int, ghost spec: Read<seq<string>>)
      returns (r: Result<seq<string>>)
      requires left > 0 && Finish(values, input, left) == spec
      modifies this
      ensures r.Value? ==> Finish(r.value, input, left - 1) == spec
      ensures r.Error? ==> spec == Fail(r.error)
    {
      FinishStep(values, input, left);
      var value := Element();
      r := if value.Error? then Error(value.error) else Value(values + [value.value]);
    }
  }

  /** `Array.Marshal` of the bulk strings of a command. */
  method MarshalCommand(args: seq<string>) returns (data: string)
    ensures data == Command(args)
  {
    data := Header('*', |args|);
    for i := 0 to |args|
      invariant data + Elems(args[i..]) == Command(args)
    {
      assert args[i..][0] == args[i] && args[i..][1..] == args[i + 1..];
      ghost var rest := Elems(args[i + 1..]);
      assert data + (Bulk(args[i]) + rest) == (data + Bulk(args[i])) + rest;
      data := data + Bulk(args[i]);
    }
  }
}
