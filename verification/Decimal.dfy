/** Go's 64-bit `int` with `strconv.Atoi` and `strconv.Itoa`. */
module Decimal {
  import opened GoStrings

  const TWO64: int := 0x1_0000_0000_0000_0000
  const MAX_INT64: int := 0x7FFF_FFFF_FFFF_FFFF
  const MIN_INT64: int := -0x8000_0000_0000_0000

  predicate IsInt64(x: int) {
    MIN_INT64 <= x <= MAX_INT64
  }

  /** The int64 that a computation with exact result `x` leaves behind. */
  function Wrap(x: int): (r: int)
    ensures IsInt64(r)
    ensures (r - x) % TWO64 == 0
    ensures IsInt64(x) ==> r == x
  {
    (x - MIN_INT64) % TWO64 + MIN_INT64
  }

  /** Adding one to an int64: the largest wraps around to the smallest. */
  function Succ64(x: int): (r: int)
    requires IsInt64(x)
    ensures IsInt64(r) && (r - x - 1) % TWO64 == 0
  {
    if x == MAX_INT64 then MIN_INT64 else x + 1
  }

  predicate IsDigit(c: char) {
    '0' <= c <= '9'
  }

  predicate AllDigits(s: string) {
    forall i | 0 <= i < |s| :: IsDigit(s[i])
  }

  function DigitChar(d: nat): (c: char)
    requires d < 10
    ensures IsDigit(c) && c as int - '0' as int == d
  {
    ('0' as int + d) as char
  }

  function Value(s: string): nat
    requires AllDigits(s)
  {
    if s == "" then 0
    else Value(s[..|s| - 1]) * 10 + (s[|s| - 1] as int - '0' as int)
  }

  function Digits(n: nat): (s: string)
    ensures |s| >= 1 && AllDigits(s)
  {
    if n < 10 then [DigitChar(n)] else Digits(n / 10) + [DigitChar(n % 10)]
  }

  function Itoa(n: int): string {
    if n < 0 then "-" + Digits(-n) else Digits(n)
  }

  /** `strconv.Atoi`: an optional sign, at least one digit, and a value that fits; `None` is its error. */
  function Atoi(s: string): (r: Option<int>)
    ensures r.Some? ==> IsInt64(r.value)
  {
    var signed := s != "" && (s[0] == '-' || s[0] == '+');
    var body := if signed then s[1..] else s;
    if body == "" || !AllDigits(body) then None
    else
      var n: int := if signed && s[0] == '-' then 0 - Value(body) else Value(body);
      if IsInt64(n) then Some(n) else None
  }

  lemma {:induction false} ValueDigits(n: nat)
    ensures Value(Digits(n)) == n
  {
    if n < 10 {
      assert Digits(n)[..0] == "";
    } else {
      ValueDigits(n / 10);
      assert Digits(n)[..|Digits(n)| - 1] == Digits(n / 10);
    }
  }

  /** Printing an int64 and parsing it back gives the same number. */
  lemma {:induction false} AtoiItoa(n: int)
    requires IsInt64(n)
    ensures Atoi(Itoa(n)) == Some(n)
  {
    hide Value, Digits;
    if n < 0 {
      ValueDigits(-n);
      assert Itoa(n)[1..] == Digits(-n);
    } else {
      ValueDigits(n);
      assert IsDigit(Itoa(n)[0]);
    }
  }

  ghost predicate CanonicalDigits(s: string) {
    AllDigits(s) && s != "" && (|s| > 1 ==> s[0] != '0')
  }

  lemma {:induction false} CanonicalPositive(s: string)
    requires CanonicalDigits(s) && s != "0"
    ensures Value(s) >= 1
  {
    if |s| == 1 {
      assert s[..0] == "";
      assert s == [s[0]];
    } else {
      var front := s[..|s| - 1];
      assert front[0] == s[0];
      CanonicalPositive(front);
    }
  }

  /** Parsing canonical digits and printing them again gives the same digits. */
  lemma {:induction false} DigitsValue(s: string)
    requires CanonicalDigits(s)
    ensures Digits(Value(s)) == s
  {
    if |s| == 1 {
      assert s[..0] == "";
      assert s == [s[0]];
    } else {
      var front := s[..|s| - 1];
      assert front[0] == s[0];
      CanonicalPositive(front);
      DigitsValue(front);
      assert s == front + [s[|s| - 1]];
    }
  }

  // ---- What is a number.

  function Zeros(n: nat): (s: string)
    ensures |s| == n && forall i | 0 <= i < n :: s[i] == '0'
  {
    seq(n, i => '0')
  }

  lemma {:induction false} LeadingZeros(zeros: nat, s: string)
    requires AllDigits(s)
    ensures AllDigits(Zeros(zeros) + s) && Value(Zeros(zeros) + s) == Value(s)
    decreases |s|, zeros
  {
    var all := Zeros(zeros) + s;
    if s == "" {
      if zeros > 0 {
        assert all[..|all| - 1] == Zeros(zeros - 1) + s;
        LeadingZeros(zeros - 1, s);
      }
    } else {
      assert all[..|all| - 1] == Zeros(zeros) + s[..|s| - 1];
      LeadingZeros(zeros, s[..|s| - 1]);
    }
  }

  /** Every nonempty string of digits is a number written with zeros before it. */
  lemma {:induction false} DigitsAreNumber(s: string) returns (zeros: nat)
    requires AllDigits(s) && s != ""
    ensures s == Zeros(zeros) + Digits(Value(s))
    decreases |s|
  {
    if |s| > 1 && s[0] == '0' {
      var rest := DigitsAreNumber(s[1..]);
      zeros := rest + 1;
      assert s == Zeros(1) + s[1..];
      LeadingZeros(1, s[1..]);
      assert Zeros(1) + (Zeros(rest) + Digits(Value(s[1..]))) == Zeros(zeros) + Digits(Value(s[1..]));
    } else {
      zeros := 0;
      DigitsValue(s);
      assert Zeros(0) + Digits(Value(s)) == Digits(Value(s));
    }
  }

  /** How a number may be written: a sign, any number of zeros and its digits. */
  ghost predicate Writes(s: string, negative: bool, n: nat) {
    exists zeros: nat ::
      var body := Zeros(zeros) + Digits(n);
      if negative then s == "-" + body else s == body || s == "+" + body
  }

  /** A string is accepted exactly if it writes a number that fits in an int64, and then it is read as that number. */
  lemma {:induction false} AtoiExactly(s: string, n: nat)
    ensures Writes(s, false, n) ==> Atoi(s) == if n <= MAX_INT64 then Some(n) else None
    ensures Writes(s, true, n) ==> Atoi(s) == if 0 - n >= MIN_INT64 then Some(0 - n) else None
    ensures Atoi(s).Some? ==>
      exists negative, m: nat :: Writes(s, negative, m) && Atoi(s).value == if negative then 0 - m else m
  {
    hide Value, Digits, Zeros;
    forall zeros: nat | var body := Zeros(zeros) + Digits(n); s == "-" + body || s == body || s == "+" + body
      ensures AllDigits(Zeros(zeros) + Digits(n)) && Value(Zeros(zeros) + Digits(n)) == n
    {
      ValueDigits(n);
      LeadingZeros(zeros, Digits(n));
    }
    if zeros: nat :| s == "-" + (Zeros(zeros) + Digits(n)) {
      assert s[1..] == Zeros(zeros) + Digits(n);
    }
    if zeros: nat :| s == "+" + (Zeros(zeros) + Digits(n)) {
      assert s[1..] == Zeros(zeros) + Digits(n);
    }
    if zeros: nat :| s == Zeros(zeros) + Digits(n) {
      assert IsDigit(s[0]);
    }
    if Atoi(s).Some? {
      var signed := s[0] == '-' || s[0] == '+';
      var body := if signed then s[1..] else s;
      var zeros := DigitsAreNumber(body);
      assert signed ==> s == [s[0]] + body;
      assert Writes(s, s[0] == '-', Value(body));
    }
  }
}
