/** Decimal text of 64-bit integers, as strconv formats and parses them. */
module Decimal {
  import opened Prelude

  predicate IsDigit(c: char) {
    '0' <= c <= '9'
  }

  function Digit(d: nat): char
    requires d < 10
  {
    ('0' as int + d) as char
  }

  function Digits(n: nat): string {
    if n < 10 then [Digit(n)] else Digits(n / 10) + [Digit(n % 10)]
  }

  function Format(v: int): string {
    if v < 0 then "-" + Digits(-v) else Digits(v)
  }

  predicate AllDigits(s: string) {
    forall i :: 0 <= i < |s| ==> IsDigit(s[i])
  }

  function Value(s: string): nat
    requires AllDigits(s)
  {
    if s == "" then 0 else Value(s[..|s| - 1]) * 10 + (s[|s| - 1] as int - '0' as int)
  }

  function Unsigned(s: string): Option<nat> {
    if s != "" && AllDigits(s) then Some(Value(s)) else None
  }

  /** An optional sign, then digits only; out of the 64-bit range is an error. */
  function Parse(s: string): Option<int> {
    var signed := s != "" && (s[0] == '-' || s[0] == '+');
    match Unsigned(if signed then s[1..] else s)
    case None => None
    case Some(u) =>
      var v: int := if signed && s[0] == '-' then -(u as int) else u as int;
      if -MAX_INT64 - 1 <= v <= MAX_INT64 then Some(v) else None
  }

  lemma {:induction false} DigitsParse(n: nat)
    ensures Digits(n) != "" && AllDigits(Digits(n)) && Value(Digits(n)) == n
  {
    if n < 10 {
      assert Digits(n)[..0] == "";
    } else {
      DigitsParse(n / 10);
      assert Digits(n)[..|Digits(n)| - 1] == Digits(n / 10);
    }
  }

  lemma FormatParses(v: int)
    requires -MAX_INT64 - 1 <= v <= MAX_INT64
    ensures Parse(Format(v)) == Some(v)
    ensures Format(v) != "" && ':' !in Format(v)
  {
    DigitsParse(if v < 0 then -v else v);
    if v < 0 {
      assert Format(v)[1..] == Digits(-v);
    }
  }

  function Zeros(k: nat): string {
    if k == 0 then "" else Zeros(k - 1) + "0"
  }

  lemma {:induction false} ZerosFirst(k: nat)
    ensures |Zeros(k)| == k && AllDigits(Zeros(k)) && Value(Zeros(k)) == 0
  {
    if k > 0 {
      ZerosFirst(k - 1);
      assert Zeros(k)[..k - 1] == Zeros(k - 1);
    }
  }

  /** Digits are the decimal text of their value, perhaps after zeros. */
  lemma {:induction false} ValueReads(s: string) returns (k: nat)
    requires s != "" && AllDigits(s)
    ensures s == Zeros(k) + Digits(Value(s))
  {
    var front, last := s[..|s| - 1], s[|s| - 1];
    assert s == front + [last];
    if front == "" {
      k := 0;
    } else {
      var j := ValueReads(front);
      if Value(front) == 0 {
        k := j + 1;
        assert Digits(0) == "0";
      } else {
        k := j;
        assert Value(s) / 10 == Value(front) && Value(s) % 10 == last as int - '0' as int;
      }
    }
  }

  lemma {:induction false} ReadsValue(k: nat, n: nat)
    ensures var s := Zeros(k) + Digits(n); s != "" && AllDigits(s) && Value(s) == n
  {
    var s := Zeros(k) + Digits(n);
    ZerosFirst(k);
    if n < 10 {
      assert s[..|s| - 1] == Zeros(k);
    } else {
      ReadsValue(k, n / 10);
      assert s[..|s| - 1] == Zeros(k) + Digits(n / 10);
    }
  }

  datatype Sign = NoSign | Plus | Minus

  function SignText(sign: Sign): string {
    match sign case NoSign => "" case Plus => "+" case Minus => "-"
  }

  predicate HasForm(s: string, sign: Sign, k: nat, v: int) {
    && s == SignText(sign) + (Zeros(k) + Digits(if v < 0 then -v else v))
    && (if sign.Minus? then v <= 0 else 0 <= v)
  }

  /** The text of `v`: an optional sign, zeros, and the decimal text of its size. */
  ghost predicate IsTextOf(s: string, v: int) {
    exists sign, k :: HasForm(s, sign, k, v)
  }

  lemma ParsedIsText(s: string, v: int)
    requires Parse(s) == Some(v)
    ensures IsTextOf(s, v)
  {
    var sign := if s[0] == '-' then Minus else if s[0] == '+' then Plus else NoSign;
    var digits := if sign.NoSign? then s else s[1..];
    var k := ValueReads(digits);
    assert s == SignText(sign) + digits;
    assert HasForm(s, sign, k, v);
  }

  lemma SignedParses(sign: Sign, digits: string, v: int)
    requires digits != "" && AllDigits(digits) && v == (if sign.Minus? then 0 - Value(digits) else Value(digits))
    requires -MAX_INT64 - 1 <= v <= MAX_INT64
    ensures Parse(SignText(sign) + digits) == Some(v)
  {
    var s := SignText(sign) + digits;
    if sign.NoSign? {
      assert s == digits && IsDigit(s[0]);
    } else {
      assert s[1..] == digits && s[0] == SignText(sign)[0];
    }
  }

  lemma FormParses(s: string, sign: Sign, k: nat, v: int)
    requires -MAX_INT64 - 1 <= v <= MAX_INT64 && HasForm(s, sign, k, v)
    ensures Parse(s) == Some(v)
  {
    var n := if v < 0 then -v else v;
    ReadsValue(k, n);
    SignedParses(sign, Zeros(k) + Digits(n), v);
  }

  /** Parsing accepts exactly such texts of 64-bit integers. */
  lemma ParseIff(s: string, v: int)
    ensures Parse(s) == Some(v) <==> -MAX_INT64 - 1 <= v <= MAX_INT64 && IsTextOf(s, v)
  {
    if Parse(s) == Some(v) { ParsedIsText(s, v); }
    if -MAX_INT64 - 1 <= v <= MAX_INT64 && IsTextOf(s, v) {
      var sign, k :| HasForm(s, sign, k, v);
      FormParses(s, sign, k, v);
    }
  }
}
