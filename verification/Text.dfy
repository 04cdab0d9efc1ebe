/** The text conversions of Go's strconv and strings packages that the server relies on.
    A Go string is a sequence of bytes; here a byte is a char. */
module Text {

  datatype Option<+T> = None | Some(value: T)

  predicate IsDigit(c: char) { '0' <= c <= '9' }

  function Digit(d: nat): (c: char)
    requires d < 10
    ensures IsDigit(c) && c as int - '0' as int == d
  {
    ('0' as int + d) as char
  }

  function NatToString(n: nat): (s: string)
    ensures s != "" && forall i :: 0 <= i < |s| ==> IsDigit(s[i])
  {
    if n < 10 then [Digit(n)] else NatToString(n / 10) + [Digit(n % 10)]
  }

  /** `strconv.Itoa`. */
  function Itoa(n: int): string {
    if n < 0 then "-" + NatToString(-n) else NatToString(n)
  }

  /** The value of a string of decimal digits. */
  function Digits(s: string): Option<nat> {
    if s == "" then Some(0) else
      var c := s[|s| - 1];
      match Digits(s[..|s| - 1])
      case Some(v) => if IsDigit(c) then Some(10 * v + (c as int - '0' as int)) else None
      case None => None
  }

  const INT32_BOUND := 0x8000_0000
  const INT64_BOUND := 0x8000_0000_0000_0000

  /** `strconv.ParseInt` in base 10 with the given bound on the range, and `strconv.Atoi` for 64 bits. */
  function ParseInt(s: string, bound: int): Option<int> {
    if s == "" then None else
      var negative := s[0] == '-';
      var body := if s[0] == '-' || s[0] == '+' then s[1..] else s;
      if body == "" then None else
        match Digits(body)
        case None => None
        case Some(v) =>
          var magnitude: int := v;
          var n := if negative then -magnitude else magnitude;
          if -bound <= n < bound then Some(n) else None
  }

  function Atoi(s: string): Option<int> { ParseInt(s, INT64_BOUND) }

  lemma {:induction false} DigitsOfNat(n: nat)
    ensures Digits(NatToString(n)) == Some(n)
  {
    var s := NatToString(n);
    if n < 10 {
      assert s[..0] == "";
    } else {
      DigitsOfNat(n / 10);
      assert s[..|s| - 1] == NatToString(n / 10);
    }
  }

  /** Printing and parsing agree exactly on the numbers that fit. */
  lemma ParseIntOfItoa(n: int, bound: int)
    ensures ParseInt(Itoa(n), bound) == if -bound <= n < bound then Some(n) else None
  {
    if n < 0 {
      DigitsOfNat(-n);
      assert Itoa(n)[1..] == NatToString(-n);
    } else {
      DigitsOfNat(n);
    }
  }

  function LowerChar(c: char): char {
    if 'A' <= c <= 'Z' then (c as int + 32) as char else c
  }

  function UpperChar(c: char): char {
    if 'a' <= c <= 'z' then (c as int - 32) as char else c
  }

  /** `strings.ToLower` and `strings.ToUpper` on ASCII text. */
  function ToLower(s: string): (t: string)
    ensures |t| == |s|
  {
    seq(|s|, i requires 0 <= i < |s| => LowerChar(s[i]))
  }

  function ToUpper(s: string): (t: string)
    ensures |t| == |s|
  {
    seq(|s|, i requires 0 <= i < |s| => UpperChar(s[i]))
  }

  /** A name that reached the server lower-cased comes back from its upper-case form. */
  lemma LowerOfUpper(s: string)
    ensures ToLower(ToUpper(ToLower(s))) == ToLower(s)
  {
  }

  /** `s` is the name in some letter case: at every place the small letter or its capital, whose code is
      lower by 32. */
  predicate InAnyCase(s: string, name: string) {
    && |s| == |name|
    && forall i :: 0 <= i < |s| ==> s[i] == name[i] || s[i] as int == name[i] as int - 32
  }

  predicate SmallLetters(name: string) {
    forall i :: 0 <= i < |name| ==> 'a' <= name[i] <= 'z'
  }

  lemma LowerInAnyCase(s: string, name: string)
    requires SmallLetters(name)
    ensures ToLower(s) == name <==> InAnyCase(s, name)
  {
    if ToLower(s) == name {
      assert forall i :: 0 <= i < |s| ==> name[i] == ToLower(s)[i];
    }
  }

  lemma UpperInAnyCase(s: string, name: string, capitals: string)
    requires SmallLetters(name) && |capitals| == |name|
    requires forall i :: 0 <= i < |name| ==> capitals[i] as int == name[i] as int - 32
    ensures ToUpper(s) == capitals <==> InAnyCase(s, name)
  {
    if ToUpper(s) == capitals {
      assert forall i :: 0 <= i < |s| ==> capitals[i] == ToUpper(s)[i];
    }
  }
}
