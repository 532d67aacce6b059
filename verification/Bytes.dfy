/** Byte strings, decimal text and the additive byte checksum of the FIX wire format. */
module Bytes {
  import opened Optional

  type Byte = b: int | 0 <= b < 256
  type Text = seq<Byte>

  const SOH: Byte := 1
  const EQUALS: Byte := 61
  const MINUS: Byte := 45
  const YES: Byte := 89
  const NO: Byte := 78

  lemma Assoc<T>(a: seq<T>, b: seq<T>, c: seq<T>)
    ensures (a + b) + c == a + (b + c)
  {
  }

  predicate IsDigit(b: Byte) {
    48 <= b <= 57
  }

  predicate AllDigits(s: Text) {
    forall i :: 0 <= i < |s| ==> IsDigit(s[i])
  }

  // ---------------------------------------------------------------- decimal text

  /** Decimal text without leading zeros. */
  function Digits(n: nat): (r: Text)
    ensures 1 <= |r| && AllDigits(r)
    ensures |r| > 1 ==> r[0] != 48
  {
    if n < 10 then [48 + n] else Digits(n / 10) + [48 + n % 10]
  }

  /** The number a run of digits denotes; leading zeros are allowed. */
  function Value(s: Text): nat
    requires AllDigits(s)
  {
    if s == [] then 0 else Value(s[..|s| - 1]) * 10 + (s[|s| - 1] - 48)
  }

  lemma {:induction false} ValueOfDigits(n: nat)
    ensures Value(Digits(n)) == n
  {
    if n >= 10 {
      ValueOfDigits(n / 10);
      var r := Digits(n);
      assert r[..|r| - 1] == Digits(n / 10);
    }
  }

  function Pow10(k: nat): (p: nat)
    ensures p >= 1
  {
    if k == 0 then 1 else 10 * Pow10(k - 1)
  }

  /** A number has at most `k` digits exactly when it is below ten to the `k`. */
  lemma {:induction false} DigitsWidth(n: nat, k: nat)
    requires k >= 1
    ensures |Digits(n)| <= k <==> n < Pow10(k)
  {
    if k == 1 {
      assert Pow10(1) == 10 * Pow10(0);
    } else if n < 10 {
      assert Pow10(k) == 10 * Pow10(k - 1);
    } else {
      DigitsWidth(n / 10, k - 1);
      assert Pow10(k) == 10 * Pow10(k - 1);
    }
  }

  /** `std::from_chars` on a uint32: only digits, at least one, value in range. */
  function ParseUnsigned(s: Text): Option<nat> {
    if s != [] && AllDigits(s) && Value(s) < 0x1_0000_0000 then Some(Value(s)) else None
  }

  /** `std::from_chars` on an int64: digits with an optional leading minus sign. */
  function ParseSigned(s: Text): Option<int> {
    if s != [] && s[0] == MINUS then
      var t := s[1..];
      if t != [] && AllDigits(t) && Value(t) <= 0x8000_0000_0000_0000 then Some(0 - Value(t)) else None
    else if s != [] && AllDigits(s) && Value(s) < 0x8000_0000_0000_0000 then Some(Value(s))
    else None
  }

  /** Decimal text of a signed number. */
  function SignedDigits(n: int): (r: Text)
    ensures 1 <= |r|
  {
    if n < 0 then [MINUS] + Digits(-n) else Digits(n)
  }

  lemma ParseUnsignedOfDigits(n: nat)
    requires n < 0x1_0000_0000
    ensures ParseUnsigned(Digits(n)) == Some(n)
  {
    ValueOfDigits(n);
  }

  /** Every int64 survives printing and parsing. */
  lemma ParseSignedOfDigits(n: int)
    requires -0x8000_0000_0000_0000 <= n < 0x8000_0000_0000_0000
    ensures ParseSigned(SignedDigits(n)) == Some(n)
  {
    if n < 0 {
      ValueOfDigits(-n);
      assert SignedDigits(n)[1..] == Digits(-n);
    } else {
      ValueOfDigits(n);
      assert IsDigit(Digits(n)[0]);
    }
  }

  // ---------------------------------------------------------------- digit-pair formatter

  /** One row of the digit-pair table: tens digit, units digit. */
  function Pair(v: nat): Text
    requires v < 100
  {
    [48 + v / 10, 48 + v % 10]
  }

  /** Peeling two digits at a time is peeling one digit twice. */
  lemma DigitsPair(n: nat)
    requires n >= 100
    ensures Digits(n) == Digits(n / 100) + Pair(n % 100)
  {
    assert Digits(n) == Digits(n / 10) + [48 + n % 10];
    assert Digits(n / 10) == Digits(n / 10 / 10) + [48 + n / 10 % 10];
    assert n / 10 / 10 == n / 100;
    assert n / 10 % 10 == n % 100 / 10;
    assert n % 10 == n % 100 % 10;
  }

  /** The width-dispatched formatter used for tags, counts and lengths. */
  method FormatUint32(value: nat) returns (buf: Text)
    requires value < 0x1_0000_0000
    ensures buf == Digits(value)
  {
    if value < 10 {
      return [48 + value];
    }
    if value < 100 {
      return Pair(value);
    }
    DigitsPair(value);
    if value < 1000 {
      return [48 + value / 100] + Pair(value % 100);
    }
    if value < 10000 {
      return Pair(value / 100) + Pair(value % 100);
    }
    var q := value / 100;
    DigitsPair(q);
    if value < 100000 {
      return [48 + q / 100] + Pair(q % 100) + Pair(value % 100);
    }
    if value < 1000000 {
      return Pair(q / 100) + Pair(q % 100) + Pair(value % 100);
    }
    if value < 10000000 {
      var h, r := value / 10000, value % 10000;
      assert q / 100 == h && q % 100 == r / 100 && value % 100 == r % 100;
      DigitsPair(h);
      return [48 + h / 100] + Pair(h % 100) + Pair(r / 100) + Pair(r % 100);
    }
    buf := FormatSequential(value);
  }

  /** Digits written backwards into a scratch buffer and then reversed. */
  method FormatSequential(value: nat) returns (buf: Text)
    requires value > 0
    ensures buf == Digits(value)
  {
    var v := value;
    buf := [];
    while v > 0
      invariant (if v == 0 then [] else Digits(v)) + buf == Digits(value)
    {
      if v >= 10 {
        assert Digits(v / 10) + ([48 + v % 10] + buf) == Digits(v) + buf;
      }
      buf := [48 + v % 10] + buf;
      v := v / 10;
    }
  }

  // ---------------------------------------------------------------- byte sums

  /** Sum of all bytes; the wire checksum is this modulo 256. */
  function Sum(s: Text): nat {
    if s == [] then 0 else Sum(s[..|s| - 1]) + s[|s| - 1]
  }

  lemma {:induction false} SumConcat(a: Text, b: Text)
    ensures Sum(a + b) == Sum(a) + Sum(b)
  {
    if b == [] {
      assert a + b == a;
    } else {
      var l := |b| - 1;
      assert (a + b)[..|a + b| - 1] == a + b[..l];
      SumConcat(a, b[..l]);
    }
  }

  /** Three zero-padded digits, as in the CheckSum field. */
  function ThreeDigits(n: nat): (r: Text)
    ensures |r| == 3 && AllDigits(r)
  {
    [48 + n / 100 % 10, 48 + n / 10 % 10, 48 + n % 10]
  }

  lemma ValueOfThree(a: nat, b: nat, c: nat)
    requires a < 10 && b < 10 && c < 10
    ensures Value([48 + a, 48 + b, 48 + c]) == 100 * a + 10 * b + c
  {
    var r: Text := [48 + a, 48 + b, 48 + c];
    assert r[..2] == [48 + a, 48 + b] && r[..2][..1] == [48 + a];
    assert Value([48 + a]) == a;
  }

  lemma ThreeParts(n: nat)
    requires n < 1000
    ensures 100 * (n / 100 % 10) + 10 * (n / 10 % 10) + n % 10 == n
  {
    assert n / 100 < 10 && n / 10 == 10 * (n / 100) + n / 10 % 10;
  }

  lemma ThreeDigitsParse(n: nat)
    requires n < 256
    ensures ParseUnsigned(ThreeDigits(n)) == Some(n)
  {
    hide Value;
    var a, b, c := n / 100 % 10, n / 10 % 10, n % 10;
    ValueOfThree(a, b, c);
    ThreeParts(n);
    assert ThreeDigits(n) == [48 + a, 48 + b, 48 + c] && AllDigits([48 + a, 48 + b, 48 + c]);
  }
}
