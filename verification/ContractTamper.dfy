/** A contract text is accepted only under the id of its content, and one changed byte changes that id. */
module ContractTamper {
  import opened EscapedText
  import opened TextLines
  import opened TextNumbers
  import opened Contract
  import opened ContractForm
  import opened ContractLoads
  import opened ContractRoundTrip

  // ---- the id is checked

  /** Any text that loads: the contract is canonical and the id is that of its content. */
  lemma LoadedUnderOwnId(text: string)
    requires Load(text).Ok?
    ensures var s := Load(text).value; s.id == ContractId(s.contract) && Canonical(s.contract) == s.contract
  {
    hide Lines, LoadLines, Canonical, ContractId;
    var l := LoadLines(NOTHING, Lines(text)).value;
    CanonicalTwice(l.contract);
  }

  /** A contract's text under some id loads exactly when the id is its own. */
  lemma LoadsUnderOwnIdOnly(c: Contract, id: Word64)
    requires Proper(c) && Survives(c)
    ensures Load(Labelled(c, id)) == if id == ContractId(c) then Ok(Sidecar(Canonical(c), id)) else Err(FormatError)
  {
    var k := Canonical(c);
    CanonicalTwice(c);
    CanonicalIds(c);
    CanonicalClean(c);
    WordsReadBack(k.semantics);
    CleanLoads(c, id);
    assert k.(semantics := k.semantics) == k;
    hide Lines, LoadLines, Canonical, ContractId, Labelled, WordsBack;
  }

  // ---- required headers

  /** A line that gives the header its value. */
  predicate GivesEntry(raw: string, key: string) {
    var line := Trimmed(raw);
    && line != [] && line[0] != '#' && BAR !in line && IndexOf(line, '=', 0) < |line|
    && Trimmed(line[..IndexOf(line, '=', 0)]) == key
  }

  ghost predicate HasEntry(lines: seq<string>, key: string) {
    exists i :: 0 <= i < |lines| && GivesEntry(lines[i], key)
  }

  lemma LineMarks(l: Loading, raw: string)
    requires LoadLine(l, raw).Ok?
    ensures
      var r := LoadLine(l, raw).value;
      && (r.sawFormat == (l.sawFormat || GivesEntry(raw, "contract_format")))
      && (r.sawId == (l.sawId || GivesEntry(raw, "contract_id")))
      && (r.sawProfile == (l.sawProfile || GivesEntry(raw, "profile_id")))
  {
    hide Trimmed, IndexOf, Split, ParseRecord, ParseWord64, ParseSemantics, Unescape, AddRecord;
    KeysDiffer();
  }

  lemma KeysDiffer()
    ensures |"contract_format"| == 15 && |"contract_id"| == 11 && |"profile_id"| == 10
  {
  }

  lemma {:induction false} LinesMark(l: Loading, lines: seq<string>)
    requires LoadLines(l, lines).Ok?
    ensures
      var r := LoadLines(l, lines).value;
      && (r.sawFormat <==> l.sawFormat || HasEntry(lines, "contract_format"))
      && (r.sawId <==> l.sawId || HasEntry(lines, "contract_id"))
      && (r.sawProfile <==> l.sawProfile || HasEntry(lines, "profile_id"))
    decreases |lines|
  {
    hide LoadLine, GivesEntry;
    if lines != [] {
      LineMarks(l, lines[0]);
      LinesMark(LoadLine(l, lines[0]).value, lines[1..]);
      EntryFirst(lines, "contract_format");
      EntryFirst(lines, "contract_id");
      EntryFirst(lines, "profile_id");
    }
  }

  lemma EntryFirst(lines: seq<string>, key: string)
    requires lines != []
    ensures HasEntry(lines, key) <==> GivesEntry(lines[0], key) || HasEntry(lines[1..], key)
  {
    hide GivesEntry;
    if HasEntry(lines, key) {
      var i :| 0 <= i < |lines| && GivesEntry(lines[i], key);
      assert i > 0 ==> lines[1..][i - 1] == lines[i];
    }
    if HasEntry(lines[1..], key) {
      var i :| 0 <= i < |lines| - 1 && GivesEntry(lines[1..][i], key);
      assert lines[i + 1] == lines[1..][i];
    }
  }

  /** A text loads exactly when its lines do, it has the three required headers, and its id is that of its content. */
  lemma LoadsExactly(text: string)
    ensures Load(text).Ok? <==>
      && LoadLines(NOTHING, Lines(text)).Ok?
      && HasEntry(Lines(text), "contract_format") && HasEntry(Lines(text), "contract_id")
      && HasEntry(Lines(text), "profile_id")
      && var l := LoadLines(NOTHING, Lines(text)).value; l.id == ContractId(l.contract)
  {
    hide Lines, LoadLines, Canonical, ContractId, HasEntry;
    var l := LoadLines(NOTHING, Lines(text));
    if l.Ok? {
      LinesMark(NOTHING, Lines(text));
      CanonicalIds(l.value.contract);
    }
  }

  // ---- one changed byte

  lemma ModDrop(k: int, r: int)
    ensures (k * TWO_TO_64 + r) % TWO_TO_64 == r % TWO_TO_64
  {
    var q, x := r / TWO_TO_64, r % TWO_TO_64;
    assert k * TWO_TO_64 + r == (k + q) * TWO_TO_64 + x;
    UniqueRemainder(k * TWO_TO_64 + r, k + q, x);
  }

  lemma UniqueRemainder(a: int, q: int, x: int)
    requires 0 <= x < TWO_TO_64 && a == q * TWO_TO_64 + x
    ensures a % TWO_TO_64 == x
  {
  }

  const INVERSE: nat := 14886173955864302971

  lemma InverseOfPrime()
    ensures FNV_PRIME * INVERSE == 887285111055 * TWO_TO_64 + 1
  {
  }

  /** Multiplying by the prime can be undone in 64 bits. */
  lemma PrimeUndone(x: nat)
    requires x < TWO_TO_64
    ensures (((x * FNV_PRIME) % TWO_TO_64) * INVERSE) % TWO_TO_64 == x
  {
    var y := x * FNV_PRIME;
    var q := y / TWO_TO_64;
    assert y == q * TWO_TO_64 + y % TWO_TO_64;
    InverseOfPrime();
    Undone(x, y, q, FNV_PRIME, INVERSE, 887285111055);
    ModDrop(q * INVERSE, (y % TWO_TO_64) * INVERSE);
    ModDrop(x * 887285111055, x);
  }

  lemma Undone(x: int, y: int, q: int, p: int, inv: int, k: int)
    requires y == x * p && y == q * TWO_TO_64 + y % TWO_TO_64 && p * inv == k * TWO_TO_64 + 1
    ensures (q * inv) * TWO_TO_64 + (y % TWO_TO_64) * inv == (x * k) * TWO_TO_64 + x
  {
    var r := y % TWO_TO_64;
    calc {
      (q * inv) * TWO_TO_64 + r * inv;
      (q * TWO_TO_64 + r) * inv;
      x * p * inv;
      { assert x * p * inv == x * (p * inv); }
      x * (k * TWO_TO_64 + 1);
      (x * k) * TWO_TO_64 + x;
    }
  }

  lemma {:induction false} XorTwice(n: nat, m: nat, a: nat, b: nat)
    requires n <= 8 && m == [1, 2, 4, 8, 16, 32, 64, 128, 256][n] && a < m
    ensures XorBits(n, XorBits(n, a, b), b) == a && XorBits(n, a, b) == XorBits(n, b, a)
  {
    if n > 0 {
      XorTwice(n - 1, m / 2, a / 2, b / 2);
      XorLow(n, a, b);
    }
  }

  lemma XorLow(n: nat, a: nat, b: nat)
    requires n > 0
    ensures XorBits(n, a, b) / 2 == XorBits(n - 1, a / 2, b / 2) && XorBits(n, a, b) % 2 == (a + b) % 2
  {
  }

  lemma XorUndone(a: nat, b: nat)
    requires a < 256 && b < 256
    ensures XorByte(XorByte(a, b), b) == a && XorByte(a, b) == XorByte(b, a)
  {
    hide XorBits;
    XorTwice(8, 256, a, b);
  }

  /** One step of the hash loses nothing: with the same byte the hashes stay apart, from the same hash the bytes do. */
  lemma MixedApart(h: nat, a: nat, g: nat, b: nat)
    requires h < TWO_TO_64 && g < TWO_TO_64 && a < 256 && b < 256 && Mixed(h, a) == Mixed(g, b)
    ensures h == g <==> a == b
  {
    hide XorByte, Mixed;
    var x, y := Stirred(h, a), Stirred(g, b);
    PrimeUndone(x);
    PrimeUndone(y);
    assert x == y by { assert Mixed(h, a) == (x * FNV_PRIME) % TWO_TO_64 by { MixedIs(h, a); } MixedIs(g, b); }
    StirredParts(h, a);
    StirredParts(g, b);
    XorUndone(h % 256, a);
    XorUndone(g % 256, b);
    XorUndone(a, h % 256);
    XorUndone(b, g % 256);
  }

  /** The hash with a byte in its low byte. */
  function Stirred(h: nat, b: nat): (r: nat)
    requires h < TWO_TO_64 && b < 256
    ensures r < TWO_TO_64
  {
    h - h % 256 + XorByte(h % 256, b)
  }

  lemma MixedIs(h: nat, b: nat)
    requires h < TWO_TO_64 && b < 256
    ensures Mixed(h, b) == (Stirred(h, b) * FNV_PRIME) % TWO_TO_64
  {
    hide XorByte;
  }

  lemma StirredParts(h: nat, b: nat)
    requires h < TWO_TO_64 && b < 256
    ensures Stirred(h, b) / 256 == h / 256 && Stirred(h, b) % 256 == XorByte(h % 256, b)
    ensures h == h / 256 * 256 + h % 256
  {
    hide XorByte;
  }

  lemma {:induction false} HashKeepsApart(h: nat, g: nat, data: string)
    requires h < TWO_TO_64 && g < TWO_TO_64 && h != g
    ensures Fnv1aFrom(h, data) != Fnv1aFrom(g, data)
    decreases |data|
  {
    hide Mixed;
    if data != [] {
      var b := ByteOf(data[0]);
      if Mixed(h, b) == Mixed(g, b) {
        MixedApart(h, b, g, b);
      }
      HashKeepsApart(Mixed(h, b), Mixed(g, b), data[1..]);
    }
  }

  /** The texts differ in the byte at one place and nowhere else. */
  predicate OneByteApart(s: string, t: string, i: nat) {
    i < |s| == |t| && s[..i] == t[..i] && s[i + 1..] == t[i + 1..] && ByteOf(s[i]) != ByteOf(t[i])
  }

  lemma {:induction false} HashSeesByte(h: nat, s: string, t: string, i: nat)
    requires h < TWO_TO_64 && OneByteApart(s, t, i)
    ensures Fnv1aFrom(h, s) != Fnv1aFrom(h, t)
    decreases |s|
  {
    hide Mixed;
    if i == 0 {
      if Mixed(h, ByteOf(s[0])) == Mixed(h, ByteOf(t[0])) {
        MixedApart(h, ByteOf(s[0]), h, ByteOf(t[0]));
      }
      HashKeepsApart(Mixed(h, ByteOf(s[0])), Mixed(h, ByteOf(t[0])), s[1..]);
    } else {
      assert s[0] == s[..i][0] == t[..i][0] == t[0];
      assert s[1..][..i - 1] == s[..i][1..] && t[1..][..i - 1] == t[..i][1..];
      assert s[1..][i..] == s[i + 1..] && t[1..][i..] == t[i + 1..];
      HashSeesByte(Mixed(h, ByteOf(s[0])), s[1..], t[1..], i - 1);
    }
  }

  lemma XorLiteral()
    ensures XorBits(8, 0x25, 97) == 0x44
  {
    assert XorBits(5, 4, 12) == 8;
    assert XorBits(6, 9, 24) == 17;
    assert XorBits(7, 18, 48) == 34;
  }

  /** Published values of the hash. */
  lemma HashVectors()
    ensures Fnv1a64("") == 0xcbf2_9ce4_8422_2325 && Fnv1a64("a") == 0xaf63_dc4c_8601_ec8c
  {
    hide XorBits;
    XorLiteral();
    assert "a"[1..] == "" && ByteOf('a') == 97;
    assert FNV_OFFSET % 256 == 0x25 && XorByte(0x25, 97) == 0x44;
  }

  /** Contracts whose canonical texts differ in one byte have different ids, and neither loads under the other's. */
  lemma EditedByteIsRefused(c: Contract, edited: Contract, i: nat)
    requires Proper(edited) && Survives(edited)
    requires OneByteApart(BodyText(Canonical(c)), BodyText(Canonical(edited)), i)
    ensures ContractId(c) != ContractId(edited) && Load(Labelled(edited, ContractId(c))) == Err(FormatError)
  {
    hide Canonical, BodyText, Survives, Load, Labelled, OneByteApart, Fnv1aFrom;
    HashSeesByte(FNV_OFFSET, BodyText(Canonical(c)), BodyText(Canonical(edited)), i);
    LoadsUnderOwnIdOnly(edited, ContractId(c));
  }
}
