/** The bounded integers of the source. Arithmetic is done on `int`; every place where the source
    wraps, truncates or panics is written out where it happens. */
module MachineIntegers {
  import opened Wrappers

  const TWO_32: int := 0x1_0000_0000
  const TWO_63: int := 0x8000_0000_0000_0000
  const TWO_64: int := 0x1_0000_0000_0000_0000

  type byte = x: int | 0 <= x < 256
  type uint32 = x: int | 0 <= x < TWO_32
  type int32 = x: int | -0x8000_0000 <= x < 0x8000_0000
  type uint64 = x: int | 0 <= x < TWO_64
  type int64 = x: int | -TWO_63 <= x < TWO_63

  const U64_MAX: uint64 := TWO_64 - 1

  lemma MulMonotone(m: nat, a: int, b: int)
    ensures a <= b ==> m * a <= m * b
  {
  }

  lemma Quotient(x: int, m: nat, q: int, r: int)
    requires m > 0 && x == m * q + r && 0 <= r < m
    ensures x / m == q
  {
    var d := x / m - q;
    assert m * d == r - x % m;
    MulMonotone(m, 1, d);
    MulMonotone(m, d, -1);
  }

  /** The source program stops here with a panic. */
  datatype Panic = Panic

  /** Overflow panics in a debug build and wraps in a release build. */
  datatype Build = Debug | Release

  /** The value of an unsigned 64-bit operation whose exact result is x. */
  function Fit(build: Build, x: nat): Result<uint64, Panic> {
    if x < TWO_64 then Success(x)
    else if build.Debug? then Failure(Panic)
    else Success(x % TWO_64)
  }

  /** The same in 32 bits. */
  function Fit32(build: Build, x: nat): Result<uint32, Panic> {
    if x < TWO_32 then Success(x)
    else if build.Debug? then Failure(Panic)
    else Success(x % TWO_32)
  }

  type Bytes8 = s: seq<byte> | |s| == 8 witness [0, 0, 0, 0, 0, 0, 0, 0]
  type Bytes31 = s: seq<byte> | |s| == 31 witness [0, 0, 0, 0, 0, 0, 0, 0, 0, 0, 0, 0, 0, 0, 0, 0, 0, 0, 0, 0, 0, 0, 0, 0, 0, 0, 0, 0, 0, 0, 0]
  type Bytes32 = s: seq<byte> | |s| == 32 witness [0, 0, 0, 0, 0, 0, 0, 0, 0, 0, 0, 0, 0, 0, 0, 0, 0, 0, 0, 0, 0, 0, 0, 0, 0, 0, 0, 0, 0, 0, 0, 0]
}
