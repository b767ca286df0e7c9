/** Base64 as in section 4 of RFC 4648, with canonical padding required, as the standard engine decodes it. */
module Base64 {
  import opened MachineIntegers
  import opened Wrappers

  type Sextet = x: int | 0 <= x < 64

  function CharOf(v: Sextet): char {
    if v < 26 then (v + 'A' as int) as char
    else if v < 52 then (v - 26 + 'a' as int) as char
    else if v < 62 then (v - 52 + '0' as int) as char
    else if v == 62 then '+' else '/'
  }

  function ValueOf(c: char): (v: Option<int>)
    ensures v.Some? ==> 0 <= v.value < 64
  {
    if 'A' <= c <= 'Z' then Some(c as int - 'A' as int)
    else if 'a' <= c <= 'z' then Some(c as int - 'a' as int + 26)
    else if '0' <= c <= '9' then Some(c as int - '0' as int + 52)
    else if c == '+' then Some(62)
    else if c == '/' then Some(63)
    else None
  }

  lemma AlphabetRoundTrips(v: Sextet, c: char)
    ensures ValueOf(CharOf(v)) == Some(v)
    ensures CharOf(v) != ' '
    ensures ValueOf('=') == None
    ensures ValueOf(c).Some? ==> CharOf(ValueOf(c).value) == c
  {
  }

  /** A sextet that holds the last two bits of one byte and the first four of the next, and one that holds
      the last four and the first two. */
  lemma Crossing(x: byte, y: byte)
    ensures var v := x % 4 * 16 + y / 16; 0 <= v < 64 && v / 16 == x % 4 && v % 16 == y / 16
    ensures var v := x % 16 * 4 + y / 64; 0 <= v < 64 && v / 4 == x % 16 && v % 4 == y / 64
    ensures x / 4 * 4 + x % 4 == x && x / 16 * 16 + x % 16 == x && x / 64 * 64 + x % 64 == x
  {
  }

  /** The four sextets of three bytes. */
  datatype Quad = Quad(a: Sextet, b: Sextet, c: Sextet, d: Sextet) {
    function Chars(): string {
      [CharOf(a), CharOf(b), CharOf(c), CharOf(d)]
    }

    function Bytes(): seq<byte> {
      [a * 4 + b / 16, b % 16 * 16 + c / 4, c % 4 * 64 + d]
    }
  }

  function Split(x: byte, y: byte, z: byte): (q: Quad)
    ensures q.Bytes() == [x, y, z]
  {
    Crossing(x, y);
    Crossing(y, z);
    Crossing(z, 0);
    Quad(x / 4, x % 4 * 16 + y / 16, y % 16 * 4 + z / 64, z % 64)
  }

  function Encode(b: seq<byte>): string {
    if b == [] then ""
    else if |b| == 1 then [CharOf(b[0] / 4), CharOf(b[0] % 4 * 16), '=', '=']
    else if |b| == 2 then [CharOf(b[0] / 4), CharOf(b[0] % 4 * 16 + b[1] / 16), CharOf(b[1] % 16 * 4), '=']
    else Split(b[0], b[1], b[2]).Chars() + Encode(b[3..])
  }

  /** The bytes of a group of four characters; padding is allowed in the last group only. */
  function DecodeGroup(s: string, last: bool): Option<seq<byte>>
    requires |s| == 4
  {
    match (ValueOf(s[0]), ValueOf(s[1]), ValueOf(s[2]), ValueOf(s[3]))
    case (Some(a), Some(b), Some(c), Some(d)) => Some([a * 4 + b / 16, b % 16 * 16 + c / 4, c % 4 * 64 + d])
    case (Some(a), Some(b), Some(c), None) =>
      if last && s[3] == '=' && c % 4 == 0 then Some([a * 4 + b / 16, b % 16 * 16 + c / 4]) else None
    case (Some(a), Some(b), None, None) =>
      if last && s[2] == '=' && s[3] == '=' && b % 16 == 0 then Some([a * 4 + b / 16]) else None
    case _ => None
  }

  function Decode(s: string): Option<seq<byte>> {
    if s == "" then Some([])
    else if |s| < 4 then None
    else match (DecodeGroup(s[..4], |s| == 4), Decode(s[4..]))
      case (Some(group), Some(rest)) => Some(group + rest)
      case _ => None
  }

  /** The alphabet of table 1. */
  lemma Alphabet(v: Sextet)
    ensures v < 26 ==> CharOf(v) as int == 'A' as int + v
    ensures 26 <= v < 52 ==> CharOf(v) as int == 'a' as int + (v - 26)
    ensures 52 <= v < 62 ==> CharOf(v) as int == '0' as int + (v - 52)
    ensures v == 62 ==> CharOf(v) == '+'
    ensures v == 63 ==> CharOf(v) == '/'
  {
  }

  /** The four sextets are the 24 bits of the three bytes, most significant first. */
  lemma SplitIsPositional(x: byte, y: byte, z: byte)
    ensures
      var q := Split(x, y, z);
      ((q.a * 64 + q.b) * 64 + q.c) * 64 + q.d == (x * 256 + y) * 256 + z
  {
    Crossing(x, y);
    Crossing(y, z);
    Crossing(z, 0);
  }

  /** The test vectors of section 10. */
  lemma TestVectors()
    ensures Encode([]) == ""
    ensures Encode(['f' as byte]) == "Zg=="
    ensures Encode(['f' as byte, 'o' as byte]) == "Zm8="
    ensures Encode(['f' as byte, 'o' as byte, 'o' as byte]) == "Zm9v"
    ensures Encode(['f' as byte, 'o' as byte, 'o' as byte, 'b' as byte]) == "Zm9vYg=="
  {
    assert ['f' as byte, 'o' as byte, 'o' as byte][3..] == [];
    assert ['f' as byte, 'o' as byte, 'o' as byte, 'b' as byte][3..] == ['b' as byte];
  }

  lemma GroupOfOne(x: byte)
    ensures |Encode([x])| == 4
    ensures DecodeGroup(Encode([x]), true) == Some([x])
  {
    AlphabetRoundTrips(x / 4, 'A');
    AlphabetRoundTrips(x % 4 * 16, 'A');
    Crossing(x, 0);
  }

  lemma GroupOfTwo(x: byte, y: byte)
    ensures |Encode([x, y])| == 4
    ensures DecodeGroup(Encode([x, y]), true) == Some([x, y])
  {
    Crossing(x, y);
    Crossing(y, 0);
    AlphabetRoundTrips(x / 4, 'A');
    AlphabetRoundTrips(x % 4 * 16 + y / 16, 'A');
    AlphabetRoundTrips(y % 16 * 4, 'A');
  }

  lemma QuadDecodes(q: Quad, last: bool)
    ensures DecodeGroup(q.Chars(), last) == Some(q.Bytes())
  {
    AlphabetRoundTrips(q.a, 'A');
    AlphabetRoundTrips(q.b, 'A');
    AlphabetRoundTrips(q.c, 'A');
    AlphabetRoundTrips(q.d, 'A');
  }

  lemma GroupOfThree(x: byte, y: byte, z: byte, last: bool)
    ensures |Encode([x, y, z])| == 4
    ensures DecodeGroup(Encode([x, y, z]), last) == Some([x, y, z])
  {
    assert [x, y, z][3..] == [];
    assert Encode([x, y, z]) == Split(x, y, z).Chars();
    QuadDecodes(Split(x, y, z), last);
  }

  lemma GroupOf(b: seq<byte>)
    requires 1 <= |b| <= 3
    ensures |Encode(b)| == 4 && DecodeGroup(Encode(b), true) == Some(b)
    ensures |b| == 3 ==> DecodeGroup(Encode(b), false) == Some(b)
  {
    if |b| == 1 {
      GroupOfOne(b[0]);
      assert b == [b[0]];
    } else if |b| == 2 {
      GroupOfTwo(b[0], b[1]);
      assert b == [b[0], b[1]];
    } else {
      GroupOfThree(b[0], b[1], b[2], true);
      GroupOfThree(b[0], b[1], b[2], false);
      assert b == [b[0], b[1], b[2]] && b[3..] == [];
    }
  }

  lemma OneGroup(s: string, b: seq<byte>)
    requires |s| == 4 && DecodeGroup(s, true) == Some(b)
    ensures Decode(s) == Some(b)
  {
    assert s[..4] == s && s[4..] == "" && b + [] == b;
  }

  lemma MoreGroups(s: string, group: seq<byte>, t: string, rest: seq<byte>)
    requires |s| == 4 && t != "" && DecodeGroup(s, false) == Some(group) && Decode(t) == Some(rest)
    ensures Decode(s + t) == Some(group + rest)
  {
    assert (s + t)[..4] == s && (s + t)[4..] == t;
  }

  lemma EncodeAppend(group: seq<byte>, rest: seq<byte>)
    requires |group| == 3
    ensures Encode(group + rest) == Encode(group) + Encode(rest)
    ensures rest != [] ==> Encode(rest) != ""
  {
    var chars, all := Split(group[0], group[1], group[2]).Chars(), group + rest;
    assert Encode(group) == chars by {
      assert group[3..] == [] && chars + "" == chars;
    }
    assert Encode(all) == chars + Encode(rest) by {
      assert all[3..] == rest;
    }
  }

  /** Every byte string is decoded from its encoding. */
  lemma {:induction false} DecodeEncode(b: seq<byte>)
    ensures Decode(Encode(b)) == Some(b)
  {
    if 1 <= |b| <= 3 {
      GroupOf(b);
      OneGroup(Encode(b), b);
    } else if |b| > 3 {
      DecodeEncode(b[3..]);
      GroupOf(b[..3]);
      EncodeAppend(b[..3], b[3..]);
      MoreGroups(Encode(b[..3]), b[..3], Encode(b[3..]), b[3..]);
      assert b[..3] + b[3..] == b;
    }
  }

  lemma GroupIsCanonical(s: string, last: bool)
    requires |s| == 4 && DecodeGroup(s, last).Some?
    ensures Encode(DecodeGroup(s, last).value) == s
    ensures 1 <= |DecodeGroup(s, last).value| <= 3 && (!last ==> |DecodeGroup(s, last).value| == 3)
  {
    AlphabetRoundTrips(0, s[0]);
    AlphabetRoundTrips(0, s[1]);
    AlphabetRoundTrips(0, s[2]);
    AlphabetRoundTrips(0, s[3]);
    var b := DecodeGroup(s, last).value;
    var v, w := ValueOf(s[0]).value, ValueOf(s[1]).value;
    assert b[0] / 4 == v && b[0] % 4 * 16 == w / 16 * 16;
    if |b| == 1 {
      assert Encode(b) == [s[0], s[1], '=', '='] == s;
    } else {
      var x := ValueOf(s[2]).value;
      assert b[0] % 4 * 16 + b[1] / 16 == w && b[1] % 16 * 4 == x / 4 * 4;
      if |b| == 2 {
        assert Encode(b) == [s[0], s[1], s[2], '='] == s;
      } else {
        var y := ValueOf(s[3]).value;
        assert b[1] % 16 * 4 + b[2] / 64 == x && b[2] % 64 == y;
        assert b[3..] == [] && Encode(b) == [s[0], s[1], s[2], s[3]] == s;
      }
    }
  }

  /** And nothing else decodes to it: a word stands for at most one event. */
  lemma {:induction false} EncodeDecode(s: string)
    requires Decode(s).Some?
    ensures Encode(Decode(s).value) == s
  {
    if s != "" {
      var last := |s| == 4;
      var group, rest := DecodeGroup(s[..4], last).value, Decode(s[4..]).value;
      GroupIsCanonical(s[..4], last);
      EncodeDecode(s[4..]);
      assert s == s[..4] + s[4..];
      if last {
        assert s[4..] == "" && group + rest == group;
      } else {
        EncodeAppend(group, rest);
      }
    }
  }

  lemma {:induction false} NoSpaces(b: seq<byte>)
    ensures ' ' !in Encode(b)
  {
    if |b| >= 3 {
      AlphabetRoundTrips(b[0] / 4, 'A');
      AlphabetRoundTrips(b[0] % 4 * 16 + b[1] / 16, 'A');
      AlphabetRoundTrips(b[1] % 16 * 4 + b[2] / 64, 'A');
      AlphabetRoundTrips(b[2] % 64, 'A');
      NoSpaces(b[3..]);
    }
  }
}
