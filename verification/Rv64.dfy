/** The RV64IM subset that the MiniC compiler emits: 64-bit words, little-endian
    byte memory, instruction encoding and decoding, and a small-step machine. */
module Rv64 {

  // ----- 64-bit words in their signed reading -----

  const TWO63: int := 0x8000_0000_0000_0000
  const TWO64: int := 0x1_0000_0000_0000_0000

  type Word = x: int | -0x8000_0000_0000_0000 <= x < 0x8000_0000_0000_0000

  function Wrap(x: int): Word {
    (x + 0x8000_0000_0000_0000) % 0x1_0000_0000_0000_0000 - 0x8000_0000_0000_0000
  }

  /** How many times 2^64 was added. */
  function Wraps(x: int): (k: int)
    ensures Wrap(x) == x + k * TWO64
  {
    -((x + 0x8000_0000_0000_0000) / 0x1_0000_0000_0000_0000)
  }

  /** A word is determined by its residue modulo 2^64. */
  lemma WrapUnique(x: int, w: Word, k: int)
    requires w == x + k * TWO64
    ensures Wrap(x) == w
  {
  }

  function Pow2(n: nat): (r: int)
    ensures r >= 1
  {
    if n == 0 then 1 else 2 * Pow2(n - 1)
  }

  lemma {:induction false} Pow2Add(m: nat, n: nat)
    ensures Pow2(m + n) == Pow2(m) * Pow2(n)
  {
    if m > 0 { Pow2Add(m - 1, n); }
  }

  lemma Pow2Of64()
    ensures Pow2(WIDTH) == TWO64
  {
    assert Pow2(1) == 2;
    Pow2Add(1, 1);
    Pow2Add(2, 2);
    Pow2Add(4, 4);
    Pow2Add(8, 8);
    Pow2Add(16, 16);
    Pow2Add(32, 32);
  }

  // ----- bitwise operations -----

  datatype BitOp = And | Or | Xor

  function BitOf(op: BitOp, a: int, b: int): int {
    match op
    case And => if a == 1 && b == 1 then 1 else 0
    case Or => if a == 1 || b == 1 then 1 else 0
    case Xor => if a != b then 1 else 0
  }

  /** The low n bits of the operation, as an unsigned number. */
  function Bits(op: BitOp, a: int, b: int, n: nat): int
    decreases n
  {
    if n == 0 then 0 else BitOf(op, a % 2, b % 2) + 2 * Bits(op, a / 2, b / 2, n - 1)
  }

  const WIDTH: nat := 64

  function Bitwise(op: BitOp, a: Word, b: Word): Word {
    Wrap(Bits(op, a, b, WIDTH))
  }

  lemma {:induction false} BitsBounds(op: BitOp, a: int, b: int, n: nat)
    ensures 0 <= Bits(op, a, b, n) < Pow2(n)
    decreases n
  {
    if n > 0 { BitsBounds(op, a / 2, b / 2, n - 1); }
  }

  lemma {:induction false} XorBitsZero(a: int, b: int, n: nat)
    ensures Bits(Xor, a, b, n) == 0 ==> exists k :: a - b == k * Pow2(n)
    ensures a == b ==> Bits(Xor, a, b, n) == 0
    decreases n
  {
    if n == 0 {
      assert a - b == (a - b) * Pow2(0);
    } else {
      BitsBounds(Xor, a / 2, b / 2, n - 1);
      XorBitsZero(a / 2, b / 2, n - 1);
      if Bits(Xor, a, b, n) == 0 {
        var k :| a / 2 - b / 2 == k * Pow2(n - 1);
        assert a - b == 2 * (k * Pow2(n - 1));
        assert a - b == k * Pow2(n);
      }
    }
  }

  lemma XorZeroBits(a: Word, b: Word, n: nat)
    requires Pow2(n) == TWO64
    ensures Wrap(Bits(Xor, a, b, n)) == 0 <==> a == b
  {
    XorBitsZero(a, b, n);
    BitsBounds(Xor, a, b, n);
    var x := Bits(Xor, a, b, n);
    assert Wrap(x) == 0 <==> x == 0;
    if x == 0 {
      var k :| a - b == k * Pow2(n);
      assert a - b == k * TWO64;
    }
  }

  /** `xor` then a zero test decides equality. */
  lemma XorZero(a: Word, b: Word)
    ensures Bitwise(Xor, a, b) == 0 <==> a == b
  {
    Pow2Of64();
    XorZeroBits(a, b, WIDTH);
  }

  lemma {:induction false} XorZeroes(n: nat)
    ensures Bits(Xor, 0, 0, n) == 0
  {
    if n > 0 { XorZeroes(n - 1); }
  }

  lemma XorOneBits(b: int, c: int, n: nat)
    requires 0 <= b <= 1 && c == 1 && n > 0
    ensures Bits(Xor, b, c, n) == 1 - b
  {
    XorZeroes(n - 1);
    assert b / 2 == 0 && c / 2 == 0;
  }

  /** `xori rd, rs, 1` negates a truth value. */
  lemma XorOne(b: Word)
    requires b == 0 || b == 1
    ensures Bitwise(Xor, b, 1) == 1 - b
  {
    XorOneBits(b, 1, WIDTH);
  }

  lemma {:induction false} XorOnesBits(a: int, n: nat)
    ensures exists k :: Bits(Xor, a, -1, n) == -a - 1 + k * Pow2(n)
    decreases n
  {
    if n == 0 {
      assert Bits(Xor, a, -1, 0) == -a - 1 + (a + 1) * Pow2(0);
    } else {
      XorOnesBits(a / 2, n - 1);
      var k :| Bits(Xor, a / 2, -1, n - 1) == -(a / 2) - 1 + k * Pow2(n - 1);
      assert Bits(Xor, a, -1, n) == BitOf(Xor, a % 2, 1) + 2 * Bits(Xor, a / 2, -1, n - 1);
      assert 2 * (k * Pow2(n - 1)) == k * Pow2(n);
      assert Bits(Xor, a, -1, n) == -a - 1 + k * Pow2(n);
    }
  }

  /** `xori rd, rs, -1` is the arithmetic complement. */
  lemma XorOnes(a: Word)
    ensures Bitwise(Xor, a, -1) == -1 - a
  {
    XorOnesBits(a, WIDTH);
    Pow2Of64();
    var v: int := a;
    var k :| Bits(Xor, a, -1, WIDTH) == -v - 1 + k * Pow2(WIDTH);
    WrapUnique(Bits(Xor, a, -1, WIDTH), -1 - a, -k);
  }

  // ----- arithmetic -----

  function Unsigned(w: Word): int { w % TWO64 }

  /** C division: the quotient truncated toward zero. */
  function TruncDiv(a: int, b: int): int
    requires b != 0
  {
    var q := (if a < 0 then -a else a) / (if b < 0 then -b else b);
    if (a < 0) != (b < 0) then -q else q
  }

  datatype ROp = ADD | SUB | MUL | DIV | REM | AND | OR | XOR | SLL | SRL | SLT | SLTU

  function Truth(b: bool): Word { if b then 1 else 0 }

  function Alu(op: ROp, a: Word, b: Word): Word {
    match op
    case ADD => Wrap(a + b)
    case SUB => Wrap(a - b)
    case MUL => Wrap(a * b)
    case DIV => if b == 0 then -1 else Wrap(TruncDiv(a, b))
    case REM => if b == 0 then a else Wrap(a - TruncDiv(a, b) * b)
    case AND => Bitwise(And, a, b)
    case OR => Bitwise(Or, a, b)
    case XOR => Bitwise(Xor, a, b)
    case SLL => Wrap(a * Pow2(b % 64))
    case SRL => Wrap(Unsigned(a) / Pow2(b % 64))
    case SLT => Truth(a < b)
    case SLTU => Truth(Unsigned(a) < Unsigned(b))
  }

  // ----- byte memory -----

  type Mem = map<int, int>

  /** Widths of `sb`/`lb`, `sw`/`lw` and `sd`/`ld`. */
  type Size = n: nat | n == 1 || n == 4 || n == 8 witness 8

  function ByteAt(mem: Mem, a: int): int {
    if a in mem then mem[a] % 256 else 0
  }

  function Pow256(n: nat): (r: int)
    ensures r >= 1
  {
    if n == 0 then 1 else 256 * Pow256(n - 1)
  }

  function Fetch(mem: Mem, a: int, n: nat): int
    decreases n
  {
    if n == 0 then 0 else ByteAt(mem, a) + 256 * Fetch(mem, a + 1, n - 1)
  }

  function Put(mem: Mem, a: int, n: nat, v: int): Mem
    decreases n
  {
    if n == 0 then mem else Put(mem[a := v % 256], a + 1, n - 1, v / 256)
  }

  /** The signed reading of the low n bytes of v: what `sX` followed by `lX` gives back. */
  function Convert(n: Size, v: int): Word {
    match n
    case 1 => (v + 0x80) % 0x100 - 0x80
    case 4 => (v + 0x8000_0000) % 0x1_0000_0000 - 0x8000_0000
    case _ => Wrap(v)
  }

  function LoadSigned(mem: Mem, a: int, n: Size): Word {
    Convert(n, Fetch(mem, a, n))
  }

  lemma {:induction false} PutOther(mem: Mem, a: int, n: nat, v: int, x: int)
    requires x < a || a + n <= x
    ensures ByteAt(Put(mem, a, n, v), x) == ByteAt(mem, x)
    decreases n
  {
    if n > 0 { PutOther(mem[a := v % 256], a + 1, n - 1, v / 256, x); }
  }

  lemma {:induction false} FetchSame(m1: Mem, m2: Mem, a: int, n: nat)
    requires forall x :: a <= x < a + n ==> ByteAt(m1, x) == ByteAt(m2, x)
    ensures Fetch(m1, a, n) == Fetch(m2, a, n)
    decreases n
  {
    if n > 0 { FetchSame(m1, m2, a + 1, n - 1); }
  }

  lemma {:induction false} FetchPut(mem: Mem, a: int, n: nat, v: int)
    ensures exists k :: Fetch(Put(mem, a, n, v), a, n) == v + k * Pow256(n)
    decreases n
  {
    if n == 0 {
      assert Fetch(Put(mem, a, 0, v), a, 0) == v + (-v) * Pow256(0);
    } else {
      var mem1 := mem[a := v % 256];
      FetchPut(mem1, a + 1, n - 1, v / 256);
      PutOther(mem1, a + 1, n - 1, v / 256, a);
      var k :| Fetch(Put(mem1, a + 1, n - 1, v / 256), a + 1, n - 1) == v / 256 + k * Pow256(n - 1);
      assert ByteAt(mem1, a) == v % 256;
      assert 256 * (k * Pow256(n - 1)) == k * Pow256(n);
      assert Fetch(Put(mem, a, n, v), a, n) == v + k * Pow256(n);
    }
  }

  lemma Pow256Values()
    ensures Pow256(1) == 0x100 && Pow256(4) == 0x1_0000_0000 && Pow256(8) == TWO64
  {
    assert Pow256(2) == 0x1_0000;
    assert Pow256(3) == 0x100_0000;
    assert Pow256(5) == 256 * Pow256(4);
    assert Pow256(6) == 256 * Pow256(5);
    assert Pow256(7) == 256 * Pow256(6);
  }

  lemma Convert1Period(v: int, k: int)
    ensures Convert(1, v + k * 0x100) == Convert(1, v)
  {
  }

  lemma Convert4Period(v: int, k: int)
    ensures Convert(4, v + k * 0x1_0000_0000) == Convert(4, v)
  {
  }

  lemma Convert8Period(v: int, k: int)
    ensures Convert(8, v + k * TWO64) == Convert(8, v)
  {
    WrapUnique(v + k * TWO64, Wrap(v), Wraps(v) - k);
  }

  lemma ConvertPeriod(n: Size, v: int, k: int)
    ensures Convert(n, v + k * Pow256(n)) == Convert(n, v)
  {
    Pow256Values();
    Convert1Period(v, k);
    Convert4Period(v, k);
    Convert8Period(v, k);
  }

  /** A sized store followed by the same sized load gives the converted value. */
  lemma LoadAfterStore(mem: Mem, a: int, n: Size, v: int)
    ensures LoadSigned(Put(mem, a, n, v), a, n) == Convert(n, v)
  {
    FetchPut(mem, a, n, v);
    var k :| Fetch(Put(mem, a, n, v), a, n) == v + k * Pow256(n);
    ConvertPeriod(n, v, k);
  }
}
