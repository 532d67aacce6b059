/** Numbers of the contract sidecar text: decimal and hexadecimal print, base-detecting parse, content hash. */
module TextNumbers {
  import opened Optional
  import opened TextLines

  const TWO_TO_32: nat := 0x1_0000_0000
  const TWO_TO_64: nat := 0x1_0000_0000_0000_0000

  const DIGITS: string := "0123456789abcdef"

  function Print(n: nat, base: nat): (s: string)
    requires base == 10 || base == 16
    ensures s != []
  {
    if n < base then [DIGITS[n]] else Print(n / base, base) + [DIGITS[n % base]]
  }

  function DigitValue(c: char): nat {
    if '0' <= c <= '9' then (c as int) - ('0' as int)
    else if 'a' <= c <= 'f' then (c as int) - ('a' as int) + 10
    else if 'A' <= c <= 'F' then (c as int) - ('A' as int) + 10
    else 16
  }

  predicate IsDigit(c: char, base: nat) {
    DigitValue(c) < base
  }

  /** Value of the leading digits of s behind acc; the rest of s is ignored. */
  function Scan(acc: nat, s: string, base: nat): nat
    decreases |s|
  {
    if s == [] || !IsDigit(s[0], base) then acc else Scan(acc * base + DigitValue(s[0]), s[1..], base)
  }

  predicate HexAhead(s: string) {
    |s| >= 3 && s[0] == '0' && (s[1] == 'x' || s[1] == 'X') && IsDigit(s[2], 16)
  }

  function InRange(value: nat, negative: bool): Option<nat> {
    if value >= TWO_TO_64 then None else Some(if negative then (TWO_TO_64 - value) % TWO_TO_64 else value)
  }

  /** Digits in the base their prefix names; a minus sign wraps around. */
  function ParseMagnitude(s: string, negative: bool): Option<nat> {
    if HexAhead(s) then InRange(Scan(0, s[2..], 16), negative)
    else
      var base := if s != [] && s[0] == '0' then 8 else 10;
      if s == [] || !IsDigit(s[0], base) then None else InRange(Scan(0, s, base), negative)
  }

  function ParseInteger(token: string): (r: Option<nat>)
    ensures r.Some? ==> r.value < TWO_TO_64
  {
    var s := TrimLeft(token);
    if s != [] && (s[0] == '-' || s[0] == '+') then ParseMagnitude(s[1..], s[0] == '-') else ParseMagnitude(s, false)
  }

  lemma DigitReads(d: nat, base: nat)
    requires d < base <= 16
    ensures IsDigit(DIGITS[d], base) && DigitValue(DIGITS[d]) == d
  { }

  lemma ScanDigit(acc: nat, d: nat, base: nat, rest: string)
    requires d < base <= 16
    ensures Scan(acc, [DIGITS[d]] + rest, base) == Scan(acc * base + d, rest, base)
  {
    DigitReads(d, base);
    assert ([DIGITS[d]] + rest)[1..] == rest;
  }

  lemma PrintStep(n: nat, base: nat) returns (q: nat, d: nat, last: string)
    requires (base == 10 || base == 16) && n >= base
    ensures q < n && d < base && q * base + d == n && last == [DIGITS[d]]
    ensures Print(n, base) == Print(q, base) + last
  {
    q, d := n / base, n % base;
    last := [DIGITS[d]];
    if base == 10 { assert n / 10 * 10 + n % 10 == n; } else { assert n / 16 * 16 + n % 16 == n; }
  }

  lemma {:induction false} ScanOfPrint(n: nat, base: nat, rest: string)
    requires base == 10 || base == 16
    ensures Scan(0, Print(n, base) + rest, base) == Scan(n, rest, base)
    decreases n
  {
    hide Scan;
    if n < base {
      ScanDigit(0, n, base, rest);
    } else {
      var q, d, last := PrintStep(n, base);
      hide *;
      ScanOfPrint(q, base, last + rest);
      assert (Print(q, base) + last) + rest == Print(q, base) + (last + rest);
      ScanDigit(q, d, base, rest);
    }
  }

  lemma {:induction false} PrintHead(n: nat, base: nat)
    requires base == 10 || base == 16
    ensures IsDigit(Print(n, base)[0], base) && (Print(n, base)[0] == '0' ==> n == 0)
  {
    if n < base { DigitReads(n, base); } else { PrintHead(n / base, base); }
  }

  lemma {:induction false} PrintDigits(n: nat, base: nat)
    requires base == 10 || base == 16
    ensures forall c :: c in Print(n, base) ==> IsDigit(c, base)
  {
    if n < base {
      DigitReads(n, base);
    } else {
      DigitReads(n % base, base);
      hide IsDigit;
      PrintDigits(n / base, base);
    }
  }

  /** A printed decimal reads back. */
  lemma DecimalReads(n: nat)
    requires n < TWO_TO_64
    ensures ParseInteger(Print(n, 10)) == Some(n)
  {
    var s := Print(n, 10);
    PrintHead(n, 10);
    assert TrimLeft(s) == s;
    PrintDigits(n, 10);
    assert !HexAhead(s);
    if n == 0 {
      assert s == "0";
      assert Scan(0, s, 8) == 0;
    } else {
      ScanOfPrint(n, 10, []);
      assert s + [] == s;
    }
  }

  function Hex(n: nat): string {
    "0x" + Print(n, 16)
  }

  /** A printed hexadecimal number reads back. */
  lemma HexReads(n: nat)
    requires n < TWO_TO_64
    ensures ParseInteger(Hex(n)) == Some(n)
  {
    var s := Hex(n);
    PrintHead(n, 16);
    assert TrimLeft(s) == s;
    assert s[2..] == Print(n, 16) && s[2] == Print(n, 16)[0];
    ScanOfPrint(n, 16, []);
    assert Print(n, 16) + [] == Print(n, 16);
  }

  // ---- content hash

  const FNV_OFFSET: nat := 14695981039346656037
  const FNV_PRIME: nat := 1099511628211

  /** Exclusive or of the low `n` bits. */
  function XorBits(n: nat, a: nat, b: nat): nat {
    if n == 0 then 0 else 2 * XorBits(n - 1, a / 2, b / 2) + (a + b) % 2
  }

  lemma {:induction false} XorFits(n: nat, m: nat, a: nat, b: nat)
    requires n <= 8 && m == [1, 2, 4, 8, 16, 32, 64, 128, 256][n]
    ensures XorBits(n, a, b) < m
  {
    if n > 0 {
      XorFits(n - 1, m / 2, a / 2, b / 2);
    }
  }

  function XorByte(a: nat, b: nat): (r: nat)
    requires a < 256 && b < 256
    ensures r < 256
  {
    XorFits(8, 256, a, b);
    XorBits(8, a, b)
  }

  /** One byte into the low byte of the hash, then the multiplication in 64 bits. */
  function Mixed(hash: nat, b: nat): (h: nat)
    requires b < 256
    ensures h < TWO_TO_64
  {
    ((hash - hash % 256 + XorByte(hash % 256, b)) * FNV_PRIME) % TWO_TO_64
  }

  function ByteOf(c: char): nat {
    (c as nat) % 256
  }

  function Fnv1aFrom(hash: nat, data: string): (h: nat)
    requires hash < TWO_TO_64
    ensures h < TWO_TO_64
    decreases |data|
  {
    if data == [] then hash else Fnv1aFrom(Mixed(hash, ByteOf(data[0])), data[1..])
  }

  function Fnv1a64(data: string): (h: nat)
    ensures h < TWO_TO_64
  {
    Fnv1aFrom(FNV_OFFSET, data)
  }

  method HashText(data: string) returns (hash: nat)
    ensures hash == Fnv1a64(data)
  {
    hash := FNV_OFFSET;
    assert data[0..] == data;
    for i := 0 to |data|
      invariant hash < TWO_TO_64 && Fnv1aFrom(hash, data[i..]) == Fnv1a64(data)
    {
      assert data[i..][1..] == data[i + 1..];
      hash := Mixed(hash, ByteOf(data[i]));
    }
    assert data[|data|..] == [];
  }
}
