/** Records of fixed-width fields, as Borsh lays them out: the fields in order, numbers little-endian. */
module ByteFields {
  import opened MachineIntegers
  import opened Wrappers

  type Bytes = seq<byte>

  function Join(fields: seq<Bytes>): Bytes {
    if fields == [] then [] else fields[0] + Join(fields[1..])
  }

  /** Cut the widths off the front; what follows them is left over. */
  function Cut(data: Bytes, widths: seq<nat>): Option<(seq<Bytes>, Bytes)> {
    if widths == [] then Some(([], data))
    else if |data| < widths[0] then None
    else match Cut(data[widths[0]..], widths[1..])
      case None => None
      case Some((fields, rest)) => Some(([data[..widths[0]]] + fields, rest))
  }

  predicate HaveWidths(fields: seq<Bytes>, widths: seq<nat>) {
    |fields| == |widths| && forall i :: 0 <= i < |fields| ==> |fields[i]| == widths[i]
  }

  lemma {:induction false} CutJoined(fields: seq<Bytes>, widths: seq<nat>, rest: Bytes)
    requires HaveWidths(fields, widths)
    ensures Cut(Join(fields) + rest, widths) == Some((fields, rest))
  {
    if fields == [] {
      assert Join(fields) + rest == rest;
    } else {
      var data := Join(fields) + rest;
      assert data == fields[0] + (Join(fields[1..]) + rest);
      assert data[..widths[0]] == fields[0] && data[widths[0]..] == Join(fields[1..]) + rest;
      CutJoined(fields[1..], widths[1..], rest);
      assert [fields[0]] + fields[1..] == fields;
    }
  }

  lemma Associate(a: Bytes, b: Bytes, c: Bytes)
    ensures (a + b) + c == a + (b + c)
  {
  }

  lemma {:induction false} JoinCut(data: Bytes, widths: seq<nat>)
    requires Cut(data, widths).Some?
    ensures
      var (fields, rest) := Cut(data, widths).value;
      HaveWidths(fields, widths) && Join(fields) + rest == data
  {
    if widths != [] {
      JoinCut(data[widths[0]..], widths[1..]);
      var (tail, rest) := Cut(data[widths[0]..], widths[1..]).value;
      var fields := [data[..widths[0]]] + tail;
      assert fields[1..] == tail;
      assert Join(fields) == data[..widths[0]] + Join(tail);
      Associate(data[..widths[0]], Join(tail), rest);
      assert data[..widths[0]] + data[widths[0]..] == data;
    }
  }

  function Pow256(n: nat): (p: nat)
    ensures p >= 1
  {
    if n == 0 then 1 else 256 * Pow256(n - 1)
  }

  function LeBytes(n: nat, width: nat): (s: Bytes)
    ensures |s| == width
  {
    if width == 0 then [] else [n % 256] + LeBytes(n / 256, width - 1)
  }

  function LeNat(s: Bytes): (n: nat)
    ensures n < Pow256(|s|)
  {
    if s == [] then 0 else s[0] + 256 * LeNat(s[1..])
  }

  /** The i-th byte is the i-th digit to the base 256. */
  lemma {:induction false} LeDigits(n: nat, width: nat, i: nat)
    requires i < width
    ensures LeBytes(n, width)[i] == n / Pow256(i) % 256
    decreases i
  {
    if i > 0 {
      LeDigits(n / 256, width - 1, i - 1);
      Shift(n, Pow256(i - 1));
    }
  }

  lemma Shift(n: nat, p: nat)
    requires p > 0
    ensures n / 256 / p == n / (256 * p)
  {
    var q := n / (256 * p);
    var r := n % (256 * p);
    assert n == 256 * (p * q) + r;
    Quotient(n, 256, p * q + r / 256, r % 256);
    assert r / 256 < p;
    Quotient(p * q + r / 256, p, q, r / 256);
  }

  /** A field of a record stands at the sum of the widths before it. */
  function Offset(widths: seq<nat>, i: nat): nat
    requires i <= |widths|
  {
    if i == 0 then 0 else widths[0] + Offset(widths[1..], i - 1)
  }

  lemma {:induction false} JoinedLength(fields: seq<Bytes>, widths: seq<nat>)
    requires HaveWidths(fields, widths)
    ensures |Join(fields)| == Offset(widths, |widths|)
  {
    if fields != [] {
      JoinedLength(fields[1..], widths[1..]);
    }
  }

  lemma {:induction false} FieldAt(fields: seq<Bytes>, widths: seq<nat>, i: nat)
    requires HaveWidths(fields, widths) && i < |fields|
    ensures Offset(widths, i) + widths[i] <= |Join(fields)|
    ensures Join(fields)[Offset(widths, i)..Offset(widths, i) + widths[i]] == fields[i]
    decreases i
  {
    if i > 0 {
      FieldAt(fields[1..], widths[1..], i - 1);
      var n, at := |fields[0]|, Offset(widths[1..], i - 1);
      assert Join(fields)[n..] == Join(fields[1..]);
      assert Join(fields)[n + at..n + at + widths[i]] == Join(fields)[n..][at..at + widths[i]];
    }
  }

  lemma {:induction false} LeRoundTrip(n: nat, width: nat)
    requires n < Pow256(width)
    ensures LeNat(LeBytes(n, width)) == n
  {
    if width > 0 {
      assert n / 256 < Pow256(width - 1);
      LeRoundTrip(n / 256, width - 1);
      assert LeBytes(n, width)[1..] == LeBytes(n / 256, width - 1);
    }
  }

  lemma {:induction false} LeCanonical(s: Bytes)
    ensures LeBytes(LeNat(s), |s|) == s
  {
    if s != [] {
      LeCanonical(s[1..]);
      assert LeNat(s) % 256 == s[0] && LeNat(s) / 256 == LeNat(s[1..]);
      assert [s[0]] + s[1..] == s;
    }
  }

  lemma Pow256Is64()
    ensures Pow256(8) == TWO_64 && Pow256(4) == TWO_32
  {
  }

  function U64Bytes(x: uint64): Bytes { LeBytes(x, 8) }

  function U64(s: Bytes): uint64
    requires |s| == 8
  {
    Pow256Is64();
    LeNat(s)
  }

  function U32Bytes(x: uint32): Bytes { LeBytes(x, 4) }

  function U32(s: Bytes): uint32
    requires |s| == 4
  {
    Pow256Is64();
    LeNat(s)
  }

  /** Two's complement. */
  function I64Bytes(x: int64): Bytes { LeBytes(if x < 0 then x + TWO_64 else x, 8) }

  function I64(s: Bytes): int64
    requires |s| == 8
  {
    var n: int := U64(s);
    if n >= TWO_63 then n - TWO_64 else n
  }

  lemma NumbersRoundTrip(x: uint64, y: int64, z: uint32)
    ensures U64(U64Bytes(x)) == x && I64(I64Bytes(y)) == y && U32(U32Bytes(z)) == z
  {
    Pow256Is64();
    LeRoundTrip(x, 8);
    LeRoundTrip(if y < 0 then y + TWO_64 else y, 8);
    LeRoundTrip(z, 4);
  }

  lemma NumbersCanonical(s: Bytes)
    ensures |s| == 8 ==> U64Bytes(U64(s)) == s && I64Bytes(I64(s)) == s
    ensures |s| == 4 ==> U32Bytes(U32(s)) == s
  {
    LeCanonical(s);
  }
}
