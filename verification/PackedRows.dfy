/** Packed little-endian records: rows of numbers of given byte widths. */
module PackedRows {
  import opened Bytes

  function Power(width: nat): nat {
    if width == 0 then 1 else 256 * Power(width - 1)
  }

  function Little(width: nat, n: nat): (b: Text)
    ensures |b| == width
  {
    if width == 0 then [] else [n % 256] + Little(width - 1, n / 256)
  }

  function NumberAt(data: Text, at: nat, width: nat): nat
    requires at + width <= |data|
    decreases width
  {
    if width == 0 then 0 else data[at] + 256 * NumberAt(data, at + 1, width - 1)
  }

  lemma Powers()
    ensures Power(1) == 0x100 && Power(2) == 0x1_0000 && Power(4) == 0x1_0000_0000
    ensures Power(8) == 0x1_0000_0000_0000_0000
  {
    assert Power(3) == 256 * Power(2) && Power(4) == 256 * Power(3);
    assert Power(5) == 256 * Power(4) && Power(6) == 256 * Power(5) && Power(7) == 256 * Power(6);
  }

  predicate Fits(widths: seq<nat>, row: seq<nat>) {
    |row| == |widths| && forall i :: 0 <= i < |row| ==> row[i] < Power(widths[i])
  }

  function RowSize(widths: seq<nat>): nat {
    if widths == [] then 0 else widths[0] + RowSize(widths[1..])
  }

  lemma {:induction false} RowSizeConcat(a: seq<nat>, b: seq<nat>)
    ensures RowSize(a + b) == RowSize(a) + RowSize(b)
  {
    if a == [] {
      assert a + b == b;
    } else {
      assert (a + b)[1..] == a[1..] + b;
      RowSizeConcat(a[1..], b);
    }
  }

  lemma RowSizeNext(w: nat, ws: seq<nat>)
    ensures RowSize([w] + ws) == w + RowSize(ws)
  {
    assert ([w] + ws)[1..] == ws;
  }

  lemma RowSizeFour(a: nat, b: nat, c: nat, d: nat)
    ensures RowSize([a, b, c, d]) == a + b + c + d
    ensures RowSize([c, d]) == c + d && RowSize([d]) == d
  {
    RowSizeNext(d, []);
    RowSizeNext(c, [d]);
    RowSizeNext(b, [c, d]);
    RowSizeNext(a, [b, c, d]);
    assert RowSize([]) == 0;
    hide RowSize;
    assert [d] + [] == [d] && [c] + [d] == [c, d] && [b] + [c, d] == [b, c, d] && [a] + [b, c, d] == [a, b, c, d];
  }

  /** Numbers in their widths; a short row is filled with zeros. */
  function RowBytes(widths: seq<nat>, row: seq<nat>): (b: Text)
    ensures |b| == RowSize(widths)
    decreases |widths|
  {
    if widths == [] then []
    else if row == [] then Little(widths[0], 0) + RowBytes(widths[1..], row)
    else Little(widths[0], row[0]) + RowBytes(widths[1..], row[1..])
  }

  function RowAt(data: Text, at: nat, widths: seq<nat>): (row: seq<nat>)
    requires at + RowSize(widths) <= |data|
    ensures |row| == |widths|
    decreases |widths|
  {
    if widths == [] then [] else [NumberAt(data, at, widths[0])] + RowAt(data, at + widths[0], widths[1..])
  }

  predicate AllFit(widths: seq<nat>, rows: seq<seq<nat>>) {
    forall r :: r in rows ==> Fits(widths, r)
  }

  function RowsBytes(widths: seq<nat>, rows: seq<seq<nat>>): Text
  {
    if rows == [] then []
    else
      assert rows[0] in rows;
      RowBytes(widths, rows[0]) + RowsBytes(widths, rows[1..])
  }

  lemma Times(n: nat, k: nat)
    requires n > 0
    ensures n * k == k + (n - 1) * k
  { }

  lemma {:induction false} RowsBytesSize(widths: seq<nat>, rows: seq<seq<nat>>)
    ensures |RowsBytes(widths, rows)| == |rows| * RowSize(widths)
  {
    if rows != [] {
      RowsBytesSize(widths, rows[1..]);
      Times(|rows|, RowSize(widths));
    }
  }

  /** Up to count rows, as far as the data goes. */
  function RowsAt(data: Text, at: nat, widths: seq<nat>, count: nat): (rows: seq<seq<nat>>)
    ensures |rows| <= count
    decreases count
  {
    if count == 0 || at + RowSize(widths) > |data| then []
    else [RowAt(data, at, widths)] + RowsAt(data, at + RowSize(widths), widths, count - 1)
  }

  // ---- bytes in place

  predicate Holds(data: Text, at: nat, b: Text) {
    at + |b| <= |data| && forall i :: 0 <= i < |b| ==> data[at + i] == b[i]
  }

  lemma HoldsParts(data: Text, at: nat, a: Text, b: Text)
    requires Holds(data, at, a + b)
    ensures Holds(data, at, a) && Holds(data, at + |a|, b)
  {
    var ab := a + b;
    forall i | 0 <= i < |b| ensures data[at + |a| + i] == b[i] {
      assert data[at + (|a| + i)] == ab[|a| + i];
    }
    forall i | 0 <= i < |a| ensures data[at + i] == a[i] {
      assert data[at + i] == ab[i];
    }
  }

  // ---- reading undoes writing

  lemma {:induction false} NumberBack(data: Text, at: nat, width: nat, n: nat)
    requires n < Power(width) && Holds(data, at, Little(width, n))
    ensures NumberAt(data, at, width) == n
    decreases width
  {
    if width > 0 {
      HoldsParts(data, at, [n % 256], Little(width - 1, n / 256));
      assert data[at + 0] == [n % 256][0];
      assert n / 256 < Power(width - 1);
      NumberBack(data, at + 1, width - 1, n / 256);
    }
  }

  lemma {:induction false} RowBack(data: Text, at: nat, widths: seq<nat>, row: seq<nat>)
    requires Fits(widths, row) && Holds(data, at, RowBytes(widths, row))
    ensures RowAt(data, at, widths) == row
    decreases |widths|
  {
    if row != [] {
      HoldsParts(data, at, Little(widths[0], row[0]), RowBytes(widths[1..], row[1..]));
      NumberBack(data, at, widths[0], row[0]);
      hide Holds, Power, Little, NumberAt;
      RowBack(data, at + widths[0], widths[1..], row[1..]);
      assert row == [row[0]] + row[1..];
    }
  }

  lemma FirstFits(widths: seq<nat>, first: seq<nat>, rest: seq<seq<nat>>)
    requires AllFit(widths, [first] + rest)
    ensures |first| == |widths| && Fits(widths, first)
    ensures AllFit(widths, rest)
    ensures RowsBytes(widths, [first] + rest) == RowBytes(widths, first) + RowsBytes(widths, rest)
  {
    var rows := [first] + rest;
    assert rows[0] in rows && rows[1..] == rest;
    assert forall r :: r in rest ==> r in rows;
    assert forall r :: r in rows ==> Fits(widths, r);
  }

  lemma FirstRowBack(data: Text, at: nat, widths: seq<nat>, first: seq<nat>, rest: Text)
    requires Fits(widths, first) && Holds(data, at, RowBytes(widths, first) + rest)
    ensures at + RowSize(widths) <= |data| && RowAt(data, at, widths) == first
    ensures Holds(data, at + RowSize(widths), rest)
  {
    HoldsParts(data, at, RowBytes(widths, first), rest);
    RowBack(data, at, widths, first);
  }

  lemma RowsAtStep(data: Text, at: nat, widths: seq<nat>, count: nat)
    requires count > 0 && at + RowSize(widths) <= |data|
    ensures RowsAt(data, at, widths, count)
         == [RowAt(data, at, widths)] + RowsAt(data, at + RowSize(widths), widths, count - 1)
  { }

  /** Rows read back from where they were written. */
  lemma {:induction false} RowsBack(data: Text, at: nat, widths: seq<nat>, rows: seq<seq<nat>>)
    requires AllFit(widths, rows) && Holds(data, at, RowsBytes(widths, rows))
    ensures RowsAt(data, at, widths, |rows|) == rows
    decreases |rows|, 1
  {
    if rows != [] {
      var first, rest := rows[0], rows[1..];
      assert rows == [first] + rest;
      hide *;
      RowsBackStep(data, at, widths, first, rest);
    }
  }

  lemma RowsBackStep(data: Text, at: nat, widths: seq<nat>, first: seq<nat>, rest: seq<seq<nat>>)
    requires AllFit(widths, [first] + rest) && Holds(data, at, RowsBytes(widths, [first] + rest))
    ensures RowsAt(data, at, widths, |rest| + 1) == [first] + rest
    decreases |rest| + 1, 0
  {
    hide *;
    FirstFits(widths, first, rest);
    FirstRowBack(data, at, widths, first, RowsBytes(widths, rest));
    RowsAtStep(data, at, widths, |rest| + 1);
    RowsBack(data, at + RowSize(widths), widths, rest);
  }
}
