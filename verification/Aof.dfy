/** The append-only file: writing commands to its end, and replaying it from its start. */
module Aof {
  import opened Text
  import opened Parsing
  import opened Resp

  datatype LoadError = NoError | ParseError(failure: Failure) | EmptyCommand | ReplayError

  datatype Loaded<S> = Loaded(state: S, error: LoadError)

  /** `Load`: replay commands until the reader reports an end of file. A replay that answers
      None is one that returned an error. */
  function LoadFrom<S>(file: string, s: S, replay: (S, seq<string>) -> Option<S>): Loaded<S>
    decreases |file|
  {
    match ReadArray(file)
    case Fail(e) => Loaded(s, if e == Eof then NoError else ParseError(e))
    case Ok(args, rest) =>
      if args == [] then Loaded(s, EmptyCommand)
      else match replay(s, args)
        case None => Loaded(s, ReplayError)
        case Some(s') => LoadFrom(rest, s', replay)
  }

  /** A list of commands replayed in order, up to the first that fails. */
  function Replaying<S>(cs: seq<seq<string>>, s: S, replay: (S, seq<string>) -> Option<S>): Loaded<S> {
    if cs == [] then Loaded(s, NoError)
    else match replay(s, cs[0])
      case None => Loaded(s, ReplayError)
      case Some(s') => Replaying(cs[1..], s', replay)
  }

  /** The in-order effect of a list of commands. */
  function Fold<S>(cs: seq<seq<string>>, s: S, f: (S, seq<string>) -> S): S {
    if cs == [] then s else Fold(cs[1..], f(s, cs[0]), f)
  }

  // ---------------------------------------------------------------------------------------
  // Files cut at an arbitrary byte
  // ---------------------------------------------------------------------------------------

  /** The whole commands among the first `n` bytes of the log of `cs`. */
  function Whole(cs: seq<seq<string>>, n: nat): (k: nat)
    ensures k <= |cs|
  {
    if cs == [] || n < |Command(cs[0])| then 0 else 1 + Whole(cs[1..], n - |Command(cs[0])|)
  }

  /** `m` bytes into the elements of a command is the end of one of them, or their start. */
  predicate ElemBoundary(vs: seq<string>, m: int) {
    m == 0 || (vs != [] && ElemBoundary(vs[1..], m - |Bulk(vs[0])|))
  }

  /** `n` bytes into the log of `cs` is the end of a command, or of an element or of the header
      inside one. */
  predicate Boundary(cs: seq<seq<string>>, n: nat) {
    n == 0 ||
    (cs != [] &&
      if n < |Command(cs[0])| then ElemBoundary(cs[0], n - |Header('*', |cs[0]|)|)
      else Boundary(cs[1..], n - |Command(cs[0])|))
  }

  lemma {:induction false} CutHeader(symbol: char, n: nat, m: nat)
    requires symbol != '\n' && 0 < m < |Header(symbol, n)|
    ensures ReadHeader(Header(symbol, n)[..m]) == Fail(UnexpectedEof)
  {
    NoNewline(Header(symbol, n)[..m]);
  }

  lemma CutElem(v: string, m: nat)
    requires |v| < INT32_BOUND && 0 < m < |Bulk(v)|
    ensures ReadElem(Bulk(v)[..m]) == Fail(UnexpectedEof)
  {
    var h := Header('$', |v|);
    if m < |h| {
      CutHeader('$', |v|, m);
      assert Bulk(v)[..m] == h[..m];
    } else {
      var rest := (v + CRLF)[..m - |h|];
      assert Bulk(v)[..m] == h + rest;
      ReadHeaderOf('$', |v|, rest);
      ParseIntOfItoa(|v|, INT32_BOUND);
    }
  }

  lemma {:induction false} CutElems(vs: seq<string>, m: nat)
    requires BulksFit(vs) && m < |Elems(vs)|
    ensures ReadElems(Elems(vs)[..m], |vs|) == Fail(if ElemBoundary(vs, m) then Eof else UnexpectedEof)
  {
    var b := |Bulk(vs[0])|;
    BulksFitCons(vs);
    if m < b {
      assert Elems(vs)[..m] == Bulk(vs[0])[..m];
      if m > 0 {
        CutElem(vs[0], m);
        NegativeIsNoBoundary(vs[1..], m - b);
      }
    } else {
      var s := Elems(vs[1..])[..m - b];
      CutElems(vs[1..], m - b);
      ReadElemOf(vs[0], s);
      ReadElemsStep(Bulk(vs[0]) + s, |vs|);
      assert Elems(vs)[..m] == Bulk(vs[0]) + s;
    }
  }

  lemma {:induction false} NegativeIsNoBoundary(vs: seq<string>, m: int)
    requires m < 0
    ensures !ElemBoundary(vs, m)
  {
    if vs != [] {
      NegativeIsNoBoundary(vs[1..], m - |Bulk(vs[0])|);
    }
  }

  lemma CutCommand(vs: seq<string>, m: nat)
    requires Fits(vs) && 0 < m < |Command(vs)|
    ensures ReadArray(Command(vs)[..m]) ==
            Fail(if ElemBoundary(vs, m - |Header('*', |vs|)|) then Eof else UnexpectedEof)
  {
    var h := Header('*', |vs|);
    if m < |h| {
      CutHeader('*', |vs|, m);
      assert Command(vs)[..m] == h[..m];
      NegativeIsNoBoundary(vs, m - |h|);
    } else {
      assert Command(vs)[..m] == h + Elems(vs)[..m - |h|];
      CutAfterHeader(vs, m - |h|, Command(vs)[..m]);
    }
  }

  lemma CutAfterHeader(vs: seq<string>, k: nat, bytes: string)
    requires Fits(vs) && k < |Elems(vs)| && bytes == Header('*', |vs|) + Elems(vs)[..k]
    ensures ReadArray(bytes) == Fail(if ElemBoundary(vs, k) then Eof else UnexpectedEof)
  {
    ReadHeaderOf('*', |vs|, Elems(vs)[..k]);
    ParseIntOfItoa(|vs|, INT64_BOUND);
    CutElems(vs, k);
  }

  function NeverFails<S>(f: (S, seq<string>) -> S): (S, seq<string>) -> Option<S> {
    (s, args) => Some(f(s, args))
  }

  /** Loading reads one whole command at a time. */
  lemma LoadStep<S>(c: seq<string>, rest: string, s: S, replay: (S, seq<string>) -> Option<S>)
    requires Fits(c) && c != []
    ensures LoadFrom(Command(c) + rest, s, replay) ==
            if replay(s, c).None? then Loaded(s, ReplayError) else LoadFrom(rest, replay(s, c).value, replay)
  {
    RoundTrip(c, rest);
  }

  lemma LoadCutCommand<S>(c: seq<string>, n: nat, bytes: string, s: S, replay: (S, seq<string>) -> Option<S>)
    requires Fits(c) && 0 < n < |Command(c)| && bytes == Command(c)[..n]
    ensures LoadFrom(bytes, s, replay) ==
            Loaded(s, if ElemBoundary(c, n - |Header('*', |c|)|) then NoError else ParseError(UnexpectedEof))
  {
    CutCommand(c, n);
  }

  lemma CutInFirst(cs: seq<seq<string>>, n: nat)
    requires cs != [] && n < |Command(cs[0])|
    ensures n <= |Commands(cs)| && Commands(cs)[..n] == Command(cs[0])[..n]
  {
  }

  lemma CutAfterFirst(cs: seq<seq<string>>, n: nat)
    requires cs != [] && |Command(cs[0])| <= n <= |Commands(cs)|
    ensures Commands(cs)[..n] == Command(cs[0]) + Commands(cs[1..])[..n - |Command(cs[0])|]
  {
  }

  /** What loading the first `n` bytes of the log of `cs` should give: the effect of the whole
      commands, and no error exactly at a boundary; or that of the ones before one that fails. */
  function Expected<S>(cs: seq<seq<string>>, n: nat, s: S, replay: (S, seq<string>) -> Option<S>): Loaded<S> {
    var r := Replaying(cs[..Whole(cs, n)], s, replay);
    if r.error == NoError then Loaded(r.state, if Boundary(cs, n) then NoError else ParseError(UnexpectedEof)) else r
  }

  lemma ExpectedFirst<S>(cs: seq<seq<string>>, n: nat, s: S, replay: (S, seq<string>) -> Option<S>)
    requires cs != [] && 0 < n < |Command(cs[0])|
    ensures Expected(cs, n, s, replay) ==
            Loaded(s, if ElemBoundary(cs[0], n - |Header('*', |cs[0]|)|) then NoError else ParseError(UnexpectedEof))
  {
  }

  lemma ExpectedLater<S>(cs: seq<seq<string>>, n: nat, s: S, replay: (S, seq<string>) -> Option<S>)
    requires cs != [] && |Command(cs[0])| <= n
    ensures Expected(cs, n, s, replay) ==
            match replay(s, cs[0])
            case None => Loaded(s, ReplayError)
            case Some(s') => Expected(cs[1..], n - |Command(cs[0])|, s', replay)
  {
    var k := Whole(cs[1..], n - |Command(cs[0])|);
    assert cs[..k + 1][1..] == cs[1..][..k];
  }

  lemma LoadCutLater<S>(cs: seq<seq<string>>, n: nat, bytes: string, rest: string, s: S,
                        replay: (S, seq<string>) -> Option<S>)
    requires cs != [] && Fits(cs[0]) && cs[0] != [] && |Command(cs[0])| <= n && bytes == Command(cs[0]) + rest
    requires replay(s, cs[0]).Some? ==>
      var s' := replay(s, cs[0]).value;
      LoadFrom(rest, s', replay) == Expected(cs[1..], n - |Command(cs[0])|, s', replay)
    ensures LoadFrom(bytes, s, replay) == Expected(cs, n, s, replay)
  {
    LoadStep(cs[0], rest, s, replay);
    ExpectedLater(cs, n, s, replay);
  }

  lemma LoadOfNothing<S>(cs: seq<seq<string>>, s: S, replay: (S, seq<string>) -> Option<S>)
    ensures LoadFrom(Commands(cs)[..0], s, replay) == Expected(cs, 0, s, replay)
  {
    assert Commands(cs)[..0] == "";
  }

  lemma LoadCutFirst<S>(cs: seq<seq<string>>, n: nat, bytes: string, s: S, replay: (S, seq<string>) -> Option<S>)
    requires cs != [] && Fits(cs[0]) && 0 < n < |Command(cs[0])| && bytes == Command(cs[0])[..n]
    ensures LoadFrom(bytes, s, replay) == Expected(cs, n, s, replay)
  {
    LoadCutCommand(cs[0], n, bytes, s, replay);
    ExpectedFirst(cs, n, s, replay);
  }

  /** The log of `cs` cut at any byte, for any callback: loading replays its whole commands, up to one
      that fails if one does; otherwise it returns no error exactly when the cut is at a command
      boundary or an element boundary inside a command. */
  lemma {:induction false} LoadOfCutLog<S>(cs: seq<seq<string>>, n: nat, s: S, replay: (S, seq<string>) -> Option<S>)
    requires AllFit(cs) && [] !in cs && n <= |Commands(cs)|
    ensures LoadFrom(Commands(cs)[..n], s, replay) == Expected(cs, n, s, replay)
  {
    if n == 0 {
      LoadOfNothing(cs, s, replay);
    } else if n < |Command(cs[0])| {
      CutInFirst(cs, n);
      LoadCutFirst(cs, n, Commands(cs)[..n], s, replay);
    } else {
      var m := n - |Command(cs[0])|;
      if replay(s, cs[0]).Some? {
        LoadOfCutLog(cs[1..], m, replay(s, cs[0]).value, replay);
      }
      CutAfterFirst(cs, n);
      LoadCutLater(cs, n, Commands(cs)[..n], Commands(cs[1..])[..m], s, replay);
    }
  }

  lemma {:induction false} NeverFailing<S>(cs: seq<seq<string>>, s: S, f: (S, seq<string>) -> S)
    ensures Replaying(cs, s, NeverFails(f)) == Loaded(Fold(cs, s, f), NoError)
  {
    if cs != [] {
      NeverFailing(cs[1..], f(s, cs[0]), f);
    }
  }

  /** With a callback that never fails: exactly the whole commands, and no error exactly at a
      boundary. */
  lemma LoadOfCutLogNeverFailing<S>(cs: seq<seq<string>>, n: nat, s: S, f: (S, seq<string>) -> S)
    requires AllFit(cs) && [] !in cs && n <= |Commands(cs)|
    ensures LoadFrom(Commands(cs)[..n], s, NeverFails(f)) ==
            Loaded(Fold(cs[..Whole(cs, n)], s, f), if Boundary(cs, n) then NoError else ParseError(UnexpectedEof))
  {
    LoadOfCutLog(cs, n, s, NeverFails(f));
    NeverFailing(cs[..Whole(cs, n)], s, f);
  }

  // ---------------------------------------------------------------------------------------
  // What the boundaries are
  // ---------------------------------------------------------------------------------------

  /** The bytes of the first `k` commands, and of the first `j` elements of one. */
  function CommandBytes(cs: seq<seq<string>>, k: nat): nat
    requires k <= |cs|
  {
    if k == 0 then 0 else |Command(cs[0])| + CommandBytes(cs[1..], k - 1)
  }

  function ElemBytes(vs: seq<string>, j: nat): nat
    requires j <= |vs|
  {
    if j == 0 then 0 else |Bulk(vs[0])| + ElemBytes(vs[1..], j - 1)
  }

  lemma {:induction false} CommandBytesIs(cs: seq<seq<string>>, k: nat)
    requires k <= |cs|
    ensures CommandBytes(cs, k) == |Commands(cs[..k])|
  {
    if k > 0 {
      CommandBytesIs(cs[1..], k - 1);
      assert cs[..k][1..] == cs[1..][..k - 1];
    }
  }

  lemma {:induction false} ElemBytesIs(vs: seq<string>, j: nat)
    requires j <= |vs|
    ensures ElemBytes(vs, j) == |Elems(vs[..j])|
  {
    if j > 0 {
      ElemBytesIs(vs[1..], j - 1);
      assert vs[..j][1..] == vs[1..][..j - 1];
    }
  }

  lemma {:induction false} WholeBytes(cs: seq<seq<string>>, n: nat)
    ensures var k := Whole(cs, n);
            CommandBytes(cs, k) <= n && (k < |cs| ==> n < CommandBytes(cs, k + 1))
  {
    if Whole(cs, n) > 0 {
      WholeBytes(cs[1..], n - |Command(cs[0])|);
    }
  }

  /** `Whole` is maximal: its commands fit in the first `n` bytes, and one more does not. */
  lemma WholeIsMaximal(cs: seq<seq<string>>, n: nat)
    ensures var k := Whole(cs, n);
            |Commands(cs[..k])| <= n && (k < |cs| ==> n < |Commands(cs[..k + 1])|)
  {
    var k := Whole(cs, n);
    WholeBytes(cs, n);
    CommandBytesIs(cs, k);
    if k < |cs| {
      CommandBytesIs(cs, k + 1);
    }
  }

  /** The boundaries inside a command are the ends of its first `j` elements. */
  lemma {:induction false} ElemBoundaryAt(vs: seq<string>, j: nat)
    requires j <= |vs|
    ensures ElemBoundary(vs, ElemBytes(vs, j))
  {
    if j > 0 {
      ElemBoundaryAt(vs[1..], j - 1);
    }
  }

  lemma {:induction false} ElemBoundaryMeans(vs: seq<string>, m: int) returns (j: nat)
    requires ElemBoundary(vs, m)
    ensures j <= |vs| && m == ElemBytes(vs, j)
  {
    if m == 0 {
      j := 0;
    } else {
      j := ElemBoundaryMeans(vs[1..], m - |Bulk(vs[0])|);
      j := j + 1;
    }
  }

  /** `n` is the end of the first `k` commands, or `j` whole elements into the next one. */
  ghost predicate EndOfElement(cs: seq<seq<string>>, n: nat, k: nat, j: nat)
    requires k <= |cs|
  {
    n == |Commands(cs[..k])| ||
    (k < |cs| && j <= |cs[k]| && n == |Commands(cs[..k])| + |Header('*', |cs[k]|)| + |Elems(cs[k][..j])|)
  }

  /** The same by the lengths of the parts. */
  ghost predicate EndsAt(cs: seq<seq<string>>, n: nat, k: nat, j: nat)
    requires k <= |cs|
  {
    n == CommandBytes(cs, k) ||
    (k < |cs| && j <= |cs[k]| && n == CommandBytes(cs, k) + |Header('*', |cs[k]|)| + ElemBytes(cs[k], j))
  }

  lemma EndsAtIsEnd(cs: seq<seq<string>>, n: nat, k: nat, j: nat)
    requires k <= |cs|
    ensures EndOfElement(cs, n, k, j) <==> EndsAt(cs, n, k, j)
  {
    CommandBytesIs(cs, k);
    if k < |cs| && j <= |cs[k]| {
      ElemBytesIs(cs[k], j);
    }
  }

  lemma {:induction false} BoundaryEnds(cs: seq<seq<string>>, n: nat) returns (j: nat)
    requires Boundary(cs, n)
    ensures EndsAt(cs, n, Whole(cs, n), j)
  {
    if Whole(cs, n) > 0 {
      j := BoundaryEnds(cs[1..], n - |Command(cs[0])|);
    } else if n > 0 {
      j := ElemBoundaryMeans(cs[0], n - |Header('*', |cs[0]|)|);
    } else {
      j := 0;
    }
  }

  lemma {:induction false} EndIsBoundary(cs: seq<seq<string>>, n: nat, k: nat, j: nat)
    requires k <= |cs| && EndsAt(cs, n, k, j)
    ensures Boundary(cs, n)
  {
    if k > 0 {
      EndIsBoundary(cs[1..], n - |Command(cs[0])|, k - 1, j);
    } else if n > 0 {
      ElemBoundaryAt(cs[0], j);
      ElemBytesAtMost(cs[0], j);
    }
  }

  lemma {:induction false} ElemBytesAtMost(vs: seq<string>, j: nat)
    requires j <= |vs|
    ensures ElemBytes(vs, j) <= |Elems(vs)|
  {
    if j > 0 {
      ElemBytesAtMost(vs[1..], j - 1);
    }
  }

  /** Every boundary is such an end, after the whole commands. */
  lemma BoundaryMeans(cs: seq<seq<string>>, n: nat) returns (j: nat)
    requires Boundary(cs, n)
    ensures EndOfElement(cs, n, Whole(cs, n), j)
  {
    j := BoundaryEnds(cs, n);
    EndsAtIsEnd(cs, n, Whole(cs, n), j);
  }

  /** Every such end, after any number of commands, is a boundary. */
  lemma BoundaryAt(cs: seq<seq<string>>, n: nat, k: nat, j: nat)
    requires k <= |cs| && EndOfElement(cs, n, k, j)
    ensures Boundary(cs, n)
  {
    EndsAtIsEnd(cs, n, k, j);
    EndIsBoundary(cs, n, k, j);
  }

  // ---------------------------------------------------------------------------------------
  // The file
  // ---------------------------------------------------------------------------------------

  class AofFile {
    var contents: string

    constructor ()
      ensures contents == ""
    {
      contents := "";
    }

    method AppendCmd(cmd: string, args: seq<string>)
      modifies this
      ensures contents == old(contents) + Command([cmd] + args)
    {
      var data := MarshalCommand([cmd] + args);
      contents := contents + data;
    }

    method Load<S>(init: S, replay: (S, seq<string>) -> Option<S>) returns (r: Loaded<S>)
      ensures r == LoadFrom(contents, init, replay)
    {
      var reader := new Reader(contents);
      var s := init;
      while true
        invariant fresh(reader) && LoadFrom(contents, init, replay) == LoadFrom(reader.input, s, replay)
        decreases |reader.input|
      {
        var arr := reader.Array();
        if arr.Error? {
          if arr.error == Eof {
            return Loaded(s, NoError);
          }
          return Loaded(s, ParseError(arr.error));
        }
        if arr.value == [] {
          return Loaded(s, EmptyCommand);
        }
        var replayed := replay(s, arr.value);
        if replayed == None {
          return Loaded(s, ReplayError);
        }
        s := replayed.value;
      }
    }
  }
}
