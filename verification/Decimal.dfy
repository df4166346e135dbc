/** strconv.Itoa and strconv.Atoi on 64-bit integers. */
module Decimal {
  import opened Base

  const PLUS: byte := 43
  const MINUS: byte := 45

  predicate IsDigit(c: byte) {
    48 <= c <= 57
  }

  predicate AllDigits(s: Bytes) {
    forall i :: 0 <= i < |s| ==> IsDigit(s[i])
  }

  function Digit(d: nat): byte
    requires d < 10
  {
    (48 + d) as byte
  }

  function Digits(n: nat): (s: Bytes)
    ensures |s| > 0 && AllDigits(s)
    ensures n > 0 ==> s[0] != 48
  {
    if n < 10 then [Digit(n)] else Digits(n / 10) + [Digit(n % 10)]
  }

  function Itoa(n: int): (s: Bytes) {
    if n < 0 then [MINUS] + Digits(-n) else Digits(n)
  }

  /** The number a string of decimal digits denotes, leading zeros included. */
  function Magnitude(s: Bytes): (n: nat)
    requires AllDigits(s)
  {
    if s == [] then 0 else 10 * Magnitude(s[..|s| - 1]) + (s[|s| - 1] as int - 48)
  }

  function SignLength(s: Bytes): (k: nat)
    ensures k <= |s|
  {
    if s != [] && (s[0] == PLUS || s[0] == MINUS) then 1 else 0
  }

  /** The integer a numeral denotes: an optional sign, at least one digit, nothing else. */
  function Numeral(s: Bytes): Option<int> {
    var digits := s[SignLength(s)..];
    if digits == [] || !AllDigits(digits) then None
    else
      var m: int := Magnitude(digits);
      Some(if s[0] == MINUS then -m else m)
  }

  /** strconv.Atoi when its error is checked: the numeral must fit 64 bits. */
  function Atoi(s: Bytes): (r: Option<int>)
    ensures r.Some? ==> InInt64(r.value)
  {
    match Numeral(s)
    case Some(n) => if InInt64(n) then Some(n) else None
    case None => None
  }

  /** strconv.Atoi when its error is dropped: 0 for a malformed numeral, the nearest bound for one out of range. */
  function AtoiUnchecked(s: Bytes): (n: int)
    ensures InInt64(n)
    ensures Atoi(s).Some? ==> n == Atoi(s).value
  {
    match Numeral(s)
    case None => 0
    case Some(n) => if n > MAX_INT64 then MAX_INT64 else if n < MIN_INT64 then MIN_INT64 else n
  }

  lemma {:induction false} MagnitudeOfDigits(n: nat)
    ensures Magnitude(Digits(n)) == n
  {
    if n >= 10 {
      MagnitudeOfDigits(n / 10);
      assert Digits(n)[..|Digits(n)| - 1] == Digits(n / 10);
    }
  }

  /** Every 64-bit integer survives printing and reading back. */
  lemma AtoiItoa(n: int)
    requires InInt64(n)
    ensures Atoi(Itoa(n)) == Some(n)
  {
    if n < 0 {
      MagnitudeOfDigits(-n);
      assert Itoa(n)[1..] == Digits(-n);
    } else {
      MagnitudeOfDigits(n);
      assert Itoa(n)[0..] == Digits(n);
    }
  }

  /** A digit string that starts with a non-zero digit denotes a positive number. */
  lemma {:induction false} LeadingDigitPositive(s: Bytes)
    requires AllDigits(s) && s != [] && s[0] != 48
    ensures Magnitude(s) >= 1
  {
    if |s| > 1 {
      LeadingDigitPositive(s[..|s| - 1]);
    }
  }

  /** Cutting digits off the right never makes the number larger. */
  lemma {:induction false} PrefixMagnitude(s: Bytes, k: nat)
    requires AllDigits(s) && k <= |s|
    ensures Magnitude(s[..k]) <= Magnitude(s)
  {
    if k == |s| {
      assert s[..k] == s;
    } else {
      PrefixMagnitude(s[..|s| - 1], k);
      assert s[..|s| - 1][..k] == s[..k];
    }
  }
}
