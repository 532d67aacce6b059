/** The field scanner: one `tag=value<delimiter>` at a given byte position. */
module Scanner {
  import opened Bytes

  datatype ScanError = MissingDelimiter | EmptyField | BadSyntax | BadTag

  datatype Scan =
    | Field(tag: nat, start: nat, offset: nat, length: nat, next: nat)
    | Fail(error: ScanError)

  /** Wire text of one field. */
  function FieldText(tag: nat, value: Text, delim: Byte): (r: Text) {
    Digits(tag) + [EQUALS] + value + [delim]
  }

  predicate SafeDelimiter(delim: Byte) {
    !IsDigit(delim) && delim != EQUALS
  }

  /** A delimiter of zero stands for SOH. */
  function NormalizeDelimiter(delim: Byte): Byte {
    if delim == 0 then SOH else delim
  }

  /** First position at or after `from` that holds `b`, or the length. */
  function FindByte(s: Text, from: nat, b: Byte): (r: nat)
    requires from <= |s|
    ensures from <= r <= |s| && (r < |s| ==> s[r] == b)
    decreases |s| - from
  {
    if from == |s| || s[from] == b then from else FindByte(s, from + 1, b)
  }

  /** Where the tag loop stops: at `=`, at the delimiter, after six bytes or at the end. */
  function TagStop(s: Text, start: nat, p: nat, delim: Byte): (r: nat)
    requires start <= p <= start + 6 && p <= |s|
    ensures p <= r <= start + 6 && r <= |s|
    decreases start + 6 - p
  {
    if p < |s| && p <= start + 5 && s[p] != EQUALS && s[p] != delim
    then TagStop(s, start, p + 1, delim)
    else p
  }

  /** One to five digits, else zero; zero is not a tag. */
  function TagValue(s: Text): (r: nat) {
    if 1 <= |s| <= 5 && AllDigits(s) then Value(s) else 0
  }

  function ScanField(s: Text, start: nat, delim: Byte): (r: Scan)
    ensures r.Field? ==>
      && r.start == start && start + 2 <= r.offset <= start + 6
      && r.next == r.offset + r.length + 1 && r.next <= |s|
  {
    if start >= |s| then Fail(MissingDelimiter)
    else
      var q := TagStop(s, start, start, delim);
      if q < |s| && q <= start + 5 && s[q] != EQUALS then
        Fail(if q == start then EmptyField else BadSyntax)
      else if q >= |s| then Fail(MissingDelimiter)
      else if q == start then Fail(BadSyntax)
      else if q > start + 5 then Fail(BadTag)
      else
        var end := FindByte(s, q + 1, delim);
        if end >= |s| then Fail(MissingDelimiter)
        else
          var tag := TagValue(s[start..q]);
          if tag == 0 then Fail(BadTag)
          else Field(tag, start, q + 1, end - (q + 1), end + 1)
  }

  // ---------------------------------------------------------------- methods

  /** Tag text to number, dispatched on the digit count as the scanner does it. */
  method ParseTagInline(t: Text) returns (tag: nat)
    ensures tag == TagValue(t)
  {
    if |t| == 0 || |t| > 5 {
      return 0;
    }
    var i := 0;
    tag := 0;
    while i < |t|
      invariant i <= |t| && AllDigits(t[..i])
      invariant tag == Value(t[..i])
    {
      if !IsDigit(t[i]) {
        return 0;
      }
      assert t[..i + 1][..i] == t[..i];
      tag := tag * 10 + (t[i] - 48);
      i := i + 1;
    }
    assert t[..i] == t;
  }

  /** Byte search split into a bounded first stretch and the rest. */
  method FindDelimiter(s: Text, from: nat, delim: Byte) returns (r: nat)
    requires from <= |s|
    ensures r == FindByte(s, from, delim)
  {
    var shortEnd := if |s| - from < 16 then |s| else from + 16;
    r := from;
    while r < shortEnd && s[r] != delim
      invariant from <= r <= shortEnd
      invariant FindByte(s, r, delim) == FindByte(s, from, delim)
    {
      r := r + 1;
    }
    if r == shortEnd {
      while r < |s| && s[r] != delim
        invariant from <= r <= |s|
        invariant FindByte(s, r, delim) == FindByte(s, from, delim)
      {
        r := r + 1;
      }
    }
  }

  method ScanNextField(s: Text, start: nat, delim: Byte) returns (r: Scan)
    ensures r == ScanField(s, start, delim)
  {
    if start >= |s| {
      return Fail(MissingDelimiter);
    }
    var equals := 0;
    while start + equals < |s| && equals <= 5
      invariant equals <= 6 && start + equals <= |s|
      invariant TagStop(s, start, start + equals, delim) == TagStop(s, start, start, delim)
    {
      if s[start + equals] == EQUALS {
        break;
      }
      if s[start + equals] == delim {
        return Fail(if equals == 0 then EmptyField else BadSyntax);
      }
      equals := equals + 1;
    }
    if start + equals >= |s| {
      return Fail(MissingDelimiter);
    }
    if equals == 0 {
      return Fail(BadSyntax);
    }
    if equals > 5 || s[start + equals] != EQUALS {
      return Fail(BadTag);
    }
    var end := FindDelimiter(s, start + equals + 1, delim);
    if end >= |s| {
      return Fail(MissingDelimiter);
    }
    var tag := ParseTagInline(s[start..start + equals]);
    if tag == 0 {
      return Fail(BadTag);
    }
    return Field(tag, start, start + equals + 1, end - (start + equals + 1), end + 1);
  }

  // ---------------------------------------------------------------- scanning inverts printing

  /** A printed field is scanned back, wherever it stands in the buffer. */
  lemma ScanOfFieldText(s: Text, start: nat, tag: nat, value: Text, delim: Byte)
    requires SafeDelimiter(delim)
    requires 1 <= tag < 100000 && delim !in value
    requires start + |FieldText(tag, value, delim)| <= |s|
    requires s[start..start + |FieldText(tag, value, delim)|] == FieldText(tag, value, delim)
    ensures
      var q := start + |Digits(tag)|;
      ScanField(s, start, delim) == Field(tag, start, q + 1, |value|, q + |value| + 2)
    ensures
      var q := start + |Digits(tag)|;
      s[q + 1..q + 1 + |value|] == value
  {
    FieldTextLayout(s, start, tag, value, delim);
    ScanLayout(s, start, tag, start + |Digits(tag)|, start + |Digits(tag)| + 1 + |value|, delim);
  }

  lemma ScanLayout(s: Text, start: nat, tag: nat, q: nat, end: nat, delim: Byte)
    requires SafeDelimiter(delim) && 1 <= tag < 100000 && start <= q < end < |s|
    requires s[start..q] == Digits(tag) && s[q] == EQUALS
    requires delim !in s[q + 1..end] && s[end] == delim
    ensures ScanField(s, start, delim) == Field(tag, start, q + 1, end - q - 1, end + 1)
  {
    DigitsWidth(tag, 5);
    assert Pow10(5) == 100000;
    assert |s[start..q]| == q - start;
    TagStopAt(s, start, q, delim);
    ValueOfDigits(tag);
    FindByteAt(s, q + 1, end, delim);
  }

  lemma FieldTextLayout(s: Text, start: nat, tag: nat, value: Text, delim: Byte)
    requires start + |FieldText(tag, value, delim)| <= |s|
    requires s[start..start + |FieldText(tag, value, delim)|] == FieldText(tag, value, delim)
    ensures
      var q := start + |Digits(tag)|;
      && s[start..q] == Digits(tag)
      && s[q] == EQUALS
      && s[q + 1..q + 1 + |value|] == value
      && s[q + 1 + |value|] == delim
  {
    hide Digits;
    var f, k := FieldText(tag, value, delim), |Digits(tag)|;
    FieldTextParts(Digits(tag), value, delim);
    PartOf(s, start, f, 0, k);
    PartAt(s, start, f, k);
    PartOf(s, start, f, k + 1, k + 1 + |value|);
    PartAt(s, start, f, k + 1 + |value|);
  }

  lemma FieldTextParts(d: Text, value: Text, delim: Byte)
    ensures
      var f, k := d + [EQUALS] + value + [delim], |d|;
      && f[0..k] == d && f[k] == EQUALS && f[k + 1..k + 1 + |value|] == value && f[k + 1 + |value|] == delim
  {
  }

  lemma PartAt(s: Text, start: nat, f: Text, i: nat)
    requires start + |f| <= |s| && s[start..start + |f|] == f && i < |f|
    ensures s[start + i] == f[i]
  {
    assert s[start..start + |f|][i] == s[start + i];
  }

  /** A part of a text that stands in another. */
  lemma PartOf(s: Text, start: nat, f: Text, a: nat, b: nat)
    requires start + |f| <= |s| && s[start..start + |f|] == f && a <= b <= |f|
    ensures s[start + a..start + b] == f[a..b]
  {
    forall j | 0 <= j < b - a ensures s[start + a..start + b][j] == f[a..b][j] {
      PartAt(s, start, f, a + j);
    }
  }

  lemma TagStopAt(s: Text, start: nat, q: nat, delim: Byte)
    requires start <= q <= start + 5 && q < |s| && s[q] == EQUALS
    requires SafeDelimiter(delim) && AllDigits(s[start..q])
    ensures TagStop(s, start, start, delim) == q
  {
    var p := start;
    while p < q
      invariant start <= p <= q && TagStop(s, start, start, delim) == TagStop(s, start, p, delim)
    {
      assert s[p] == s[start..q][p - start];
      p := p + 1;
    }
  }

  lemma {:induction false} FindByteSkips(s: Text, from: nat, b: Byte, i: nat)
    requires from <= |s| && from <= i < FindByte(s, from, b)
    ensures s[i] != b
    decreases |s| - from
  {
    if from < i {
      FindByteSkips(s, from + 1, b, i);
    }
  }

  lemma FindByteAt(s: Text, from: nat, end: nat, b: Byte)
    requires from <= end < |s| && s[end] == b && b !in s[from..end]
    ensures FindByte(s, from, b) == end
  {
    var r := FindByte(s, from, b);
    assert r >= end;
    if r > end {
      FindByteSkips(s, from, b, end);
    }
  }

  /** Conversely, a scanned field is a run of digits, `=`, a delimiter-free value, a delimiter. */
  lemma ScanSound(s: Text, start: nat, delim: Byte)
    requires ScanField(s, start, delim).Field?
    ensures
      var f := ScanField(s, start, delim);
      && 1 <= f.tag < 100000
      && AllDigits(s[start..f.offset - 1]) && Value(s[start..f.offset - 1]) == f.tag
      && s[f.offset - 1] == EQUALS
      && delim !in s[f.offset..f.offset + f.length]
      && s[f.next - 1] == delim
  {
    var t := s[start..TagStop(s, start, start, delim)];
    ValueBelow(t);
    assert Pow10(5) == 100000;
    PowMonotone(|t|, 5);
    var f := ScanField(s, start, delim);
    forall i | f.offset <= i < f.offset + f.length ensures s[i] != delim {
      FindByteSkips(s, f.offset, delim, i);
    }
  }

  lemma {:induction false} ValueBelow(t: Text)
    requires AllDigits(t)
    ensures Value(t) < Pow10(|t|)
  {
    if t != [] {
      ValueBelow(t[..|t| - 1]);
    }
  }

  lemma {:induction false} PowMonotone(a: nat, b: nat)
    requires a <= b
    ensures Pow10(a) <= Pow10(b)
  {
    if a < b {
      PowMonotone(a, b - 1);
    }
  }

  // ---------------------------------------------------------------- refusals

  /** No equals sign and no delimiter. */
  predicate Bare(s: Text, from: nat, to: nat, delim: Byte) {
    from <= to <= |s| && forall i :: from <= i < to ==> s[i] != EQUALS && s[i] != delim
  }

  /** The tag ends in an equals sign, behind one to five bytes. */
  predicate TagAt(s: Text, start: nat, q: nat, delim: Byte) {
    start < q <= start + 5 && q < |s| && s[q] == EQUALS && Bare(s, start, q, delim)
  }

  /** A number from 1 on in one to five digits. */
  predicate IsTagText(t: Text) {
    1 <= |t| <= 5 && AllDigits(t) && Value(t) > 0
  }

  /** Why there is no field at the position. */
  ghost predicate Refused(s: Text, start: nat, delim: Byte, e: ScanError) {
    match e
    case EmptyField => start < |s| && s[start] == delim && delim != EQUALS
    case BadSyntax =>
      start < |s| && (s[start] == EQUALS || exists i: nat :: start < i <= start + 5 && DelimiterAt(s, start, i, delim))
    case BadTag =>
      || (start + 6 < |s| && Bare(s, start, start + 6, delim))
      || exists q: nat :: TagAt(s, start, q, delim) && delim in s[q + 1..] && !IsTagText(s[start..q])
    case MissingDelimiter =>
      || start >= |s| || (|s| <= start + 6 && Bare(s, start, |s|, delim))
      || exists q: nat :: TagAt(s, start, q, delim) && delim !in s[q + 1..]
  }

  /** The delimiter comes before any equals sign. */
  predicate DelimiterAt(s: Text, start: nat, i: nat, delim: Byte) {
    i < |s| && delim != EQUALS && s[i] == delim && Bare(s, start, i, delim)
  }

  lemma {:induction false} TagStopBare(s: Text, start: nat, p: nat, delim: Byte)
    requires start <= p <= start + 6 && Bare(s, start, p, delim)
    ensures
      var q := TagStop(s, start, p, delim);
      Bare(s, start, q, delim) && (q == |s| || q == start + 6 || s[q] == EQUALS || s[q] == delim)
    decreases start + 6 - p
  {
    if p < |s| && p <= start + 5 && s[p] != EQUALS && s[p] != delim {
      TagStopBare(s, start, p + 1, delim);
    }
  }

  /** Only one place ends a bare stretch. */
  lemma OneStop(s: Text, start: nat, q: nat, i: nat, delim: Byte)
    requires Bare(s, start, q, delim) && Bare(s, start, i, delim) && i < |s| && (s[i] == EQUALS || s[i] == delim)
    ensures q <= i
    ensures q < |s| && (s[q] == EQUALS || s[q] == delim) ==> q == i
  {
  }

  lemma DelimiterBehind(s: Text, from: nat, delim: Byte)
    requires from <= |s|
    ensures FindByte(s, from, delim) < |s| <==> delim in s[from..]
  {
    var r := FindByte(s, from, delim);
    if r < |s| {
      assert s[from..][r - from] == delim;
    }
    if delim in s[from..] {
      var k :| 0 <= k < |s| - from && s[from..][k] == delim;
      if r == |s| {
        FindByteSkips(s, from, delim, from + k);
      }
    }
  }

  lemma TagTextIs(t: Text)
    ensures TagValue(t) == 0 <==> !IsTagText(t)
  {
  }

  /** A field is refused for a reason exactly when the reason is true. */
  lemma ScanRefusesExactly(s: Text, start: nat, delim: Byte, e: ScanError)
    ensures ScanField(s, start, delim) == Fail(e) <==> Refused(s, start, delim, e)
  {
    if start < |s| {
      var q := TagStop(s, start, start, delim);
      TagStopBare(s, start, start, delim);
      hide TagStop, TagValue, FindByte, AllDigits, Value;
      StopDecides(s, start, q, delim, e);
    }
  }

  lemma StopDecides(s: Text, start: nat, q: nat, delim: Byte, e: ScanError)
    requires start < |s| && q == TagStop(s, start, start, delim) && Bare(s, start, q, delim)
    requires q == |s| || q == start + 6 || s[q] == EQUALS || s[q] == delim
    ensures ScanField(s, start, delim) == Fail(e) <==> Refused(s, start, delim, e)
  {
    hide TagStop, TagValue, FindByte, AllDigits, Value;
    StopIsTheOne(s, start, q, delim);
    var tagged, broken := TagAt(s, start, q, delim), DelimiterAt(s, start, q, delim);
    assert start < q <= start + 5 && q < |s| && s[q] == EQUALS ==> tagged;
    assert q < |s| && s[q] != EQUALS && q <= start + 5 ==> broken;
    if tagged {
      DelimiterBehind(s, q + 1, delim);
      TagTextIs(s[start..q]);
    }
  }

  lemma StopIsTheOne(s: Text, start: nat, q: nat, delim: Byte)
    requires start < |s| && start <= q && Bare(s, start, q, delim)
    requires q == |s| || q == start + 6 || s[q] == EQUALS || s[q] == delim
    ensures forall i: nat :: TagAt(s, start, i, delim) ==> i == q
    ensures forall i: nat :: start <= i <= start + 5 && DelimiterAt(s, start, i, delim) ==> i == q
    ensures start + 6 < |s| && Bare(s, start, start + 6, delim) ==> q >= start + 6
    ensures |s| <= start + 6 && Bare(s, start, |s|, delim) ==> q == |s|
  {
    forall i: nat | TagAt(s, start, i, delim) ensures i == q {
      OneStop(s, start, q, i, delim);
    }
    forall i: nat | start <= i <= start + 5 && DelimiterAt(s, start, i, delim) ensures i == q {
      OneStop(s, start, q, i, delim);
    }
  }
}
