/** Go's fixed-width integer arithmetic, written out over Dafny's unbounded integers. */
module MachineInts {
  type int32 = x: int | -0x8000_0000 <= x < 0x8000_0000
  type int64 = x: int | -0x8000_0000_0000_0000 <= x < 0x8000_0000_0000_0000
  type uint64 = x: int | 0 <= x < 0x1_0000_0000_0000_0000

  /** Go's uint64 addition. */
  function Add64(a: uint64, b: uint64): uint64 {
    var x: int := (a as int) + (b as int);
    if x < 0x1_0000_0000_0000_0000 then x else x - 0x1_0000_0000_0000_0000
  }

  /** Go's int32 subtraction. */
  function SubInt32(a: int32, b: int32): int32 {
    var x: int := (a as int) - (b as int);
    if x < -0x8000_0000 then x + 0x1_0000_0000
    else if x >= 0x8000_0000 then x - 0x1_0000_0000
    else x
  }

  /** Go's int64 addition. */
  function AddInt64(a: int64, b: int64): int64 {
    var x: int := (a as int) + (b as int);
    if x < -0x8000_0000_0000_0000 then x + 0x1_0000_0000_0000_0000
    else if x >= 0x8000_0000_0000_0000 then x - 0x1_0000_0000_0000_0000
    else x
  }

  /** Go's integer division, which truncates toward zero. */
  function TruncDiv(a: int, b: int): int
    requires b > 0
  {
    if a >= 0 then a / b else -((-a) / b)
  }

  function Laps(q: int): int {
    q * 0x1_0000_0000_0000_0000
  }

  /** a and b differ by whole laps of 2^64, so they leave the same uint64 (and the same int64) behind. */
  ghost predicate Congruent64(a: int, b: int) {
    exists q: int :: a == b + Laps(q)
  }

  lemma CongruentBy(a: int, b: int, q: int)
    requires a == b + q * 0x1_0000_0000_0000_0000
    ensures Congruent64(a, b)
  {
    assert a == b + Laps(q);
  }

  lemma CongruentSelf(a: int)
    ensures Congruent64(a, a)
  {
    CongruentBy(a, a, 0);
  }

  lemma CongruentSum(a: int, b: int, c: int, d: int)
    requires Congruent64(a, b) && Congruent64(c, d)
    ensures Congruent64(a + c, b + d)
  {
    var q: int :| a == b + Laps(q);
    var p: int :| c == d + Laps(p);
    CongruentBy(a + c, b + d, q + p);
  }

  lemma CongruentFlip(a: int, b: int)
    requires Congruent64(a, b)
    ensures Congruent64(b, a)
  {
    var q: int :| a == b + Laps(q);
    CongruentBy(b, a, -q);
  }

  lemma CongruentChain(a: int, b: int, c: int)
    requires Congruent64(a, b) && Congruent64(b, c)
    ensures Congruent64(a, c)
  {
    var q: int :| a == b + Laps(q);
    var p: int :| b == c + Laps(p);
    CongruentBy(a, c, q + p);
  }

  lemma CongruentAdd64(a: uint64, b: uint64)
    ensures Congruent64(Add64(a, b), a + b)
  {
    var x: int := (a as int) + (b as int);
    CongruentBy(Add64(a, b), x, if x < 0x1_0000_0000_0000_0000 then 0 else -1);
  }

  lemma CongruentAddInt64(a: int64, b: int64)
    ensures Congruent64(AddInt64(a, b), a + b)
  {
    var x: int := (a as int) + (b as int);
    CongruentBy(AddInt64(a, b), x,
      if x < -0x8000_0000_0000_0000 then 1 else if x >= 0x8000_0000_0000_0000 then -1 else 0);
  }

  lemma CongruentInt64s(a: int64, b: int64)
    requires Congruent64(a, b)
    ensures a == b
  {
    var q: int :| a == b + Laps(q);
  }

  /** The int64 that any computation congruent to x leaves behind. */
  function WrapInt64(x: int): int64 {
    (x + 0x8000_0000_0000_0000) % 0x1_0000_0000_0000_0000 - 0x8000_0000_0000_0000
  }

  lemma WrapInt64IsCongruent(x: int)
    ensures Congruent64(WrapInt64(x), x)
  {
    CongruentBy(WrapInt64(x), x, -((x + 0x8000_0000_0000_0000) / 0x1_0000_0000_0000_0000));
  }

  lemma WrapInt64Absorbs(x: int, y: int64)
    ensures AddInt64(WrapInt64(x), y) == WrapInt64(x + y)
  {
    WrapInt64IsCongruent(x);
    WrapInt64IsCongruent(x + y);
    CongruentAddInt64(WrapInt64(x), y);
    CongruentSelf(y);
    CongruentSum(WrapInt64(x), x, y, y);
    CongruentChain(AddInt64(WrapInt64(x), y), WrapInt64(x) + y, x + y);
    CongruentFlip(WrapInt64(x + y), x + y);
    CongruentChain(AddInt64(WrapInt64(x), y), x + y, WrapInt64(x + y));
    CongruentInt64s(AddInt64(WrapInt64(x), y), WrapInt64(x + y));
  }

  /** A number below 2^64 is congruent to another only if they are equal or the other is not below 2^64. */
  lemma CongruentBelow(a: nat, b: nat)
    requires a < 0x1_0000_0000_0000_0000 && Congruent64(a, b)
    ensures a == b <==> b < 0x1_0000_0000_0000_0000
  {
  }
}
