/** Constant materialisation: what the `addi`/`slli` chain leaves in the register. */
module LccConst {
  import opened Rv64
  import opened RvMachine
  import opened MiniC
  import opened LccCode

  /** The register after the chain for x. */
  function LiValue(x: int): Word
    decreases Magnitude(x)
  {
    if FitsI(x) then x else
    var shifted := Wrap(LiValue(x / 4096) * Pow2(12));
    if x % 4096 != 0 then Wrap(shifted + LowDigit(x)) else shifted
  }

  /** What the chain loses, in units of 4096: one for every digit of 2048 or more. */
  function Lost(x: int): (r: nat)
    decreases Magnitude(x)
  {
    if FitsI(x) then 0 else Lost(x / 4096) * 4096 + (if x % 4096 >= 2048 then 1 else 0)
  }

  lemma {:induction false} LostZero(x: int)
    ensures Lost(x) == 0 <==> LiExact(x)
    decreases Magnitude(x)
  {
    if !FitsI(x) { LostZero(x / 4096); }
  }

  /** A number of at most 12 + 12k bits has k digits below the leading one. */
  lemma {:induction false} LostBound(x: int, k: nat, bound: int)
    requires bound >= 0 && -2048 * bound <= x < 2048 * bound
    requires k == 0 ==> bound == 1
    requires k == 1 ==> bound == 0x1000
    requires k == 2 ==> bound == 0x100_0000
    requires k == 3 ==> bound == 0x10_0000_0000
    requires k == 4 ==> bound == 0x1_0000_0000_0000
    requires k == 5 ==> bound == 0x1000_0000_0000_0000
    requires k <= 5
    ensures 4096 * Lost(x) < 2 * bound || Lost(x) == 0
    decreases k
  {
    if !FitsI(x) {
      LostBound(x / 4096, k - 1, bound / 4096);
    }
  }

  lemma Pow2Of12()
    ensures Pow2(12) == 4096
  {
    assert Pow2(6) == 64;
    Pow2Add(6, 6);
  }

  lemma WrapTwice(x: int)
    ensures Wrap(Wrap(x) + 0) == Wrap(x)
  {
  }

  lemma WrapLinear(w: Word, x: int, k: int, low: int)
    requires w == x + k * TWO64
    ensures exists j :: Wrap(Wrap(w * 4096) + low) == x * 4096 + low + j * TWO64
  {
    var a := Wraps(w * 4096);
    var b := Wraps(Wrap(w * 4096) + low);
    assert Wrap(Wrap(w * 4096) + low) == x * 4096 + low + (4096 * k + a + b) * TWO64;
  }

  lemma DigitStep(x: int, h: int, low: int, lost: int, lost': int)
    requires h == x / 4096 && low == LowDigit(x)
    requires lost' == lost * 4096 + (if x % 4096 >= 2048 then 1 else 0)
    ensures (h - 4096 * lost) * 4096 + low == x - 4096 * lost'
    ensures x % 4096 == 0 ==> low == 0
  {
  }

  lemma {:induction false} LiValueLoses(x: int)
    ensures exists k :: LiValue(x) == x - 4096 * Lost(x) + k * TWO64
    decreases Magnitude(x)
  {
    if FitsI(x) {
      assert LiValue(x) == x - 4096 * Lost(x) + 0 * TWO64;
    } else {
      hide Wrap, Pow2, LowDigit;
      var h := x / 4096;
      LiValueLoses(h);
      Pow2Of12();
      var k :| LiValue(h) == h - 4096 * Lost(h) + k * TWO64;
      var low := LowDigit(x);
      DigitStep(x, h, low, Lost(h), Lost(x));
      WrapLinear(LiValue(h), h - 4096 * Lost(h), k, low);
      var j :| Wrap(Wrap(LiValue(h) * 4096) + low) == (h - 4096 * Lost(h)) * 4096 + low + j * TWO64;
      WrapTwice(LiValue(h) * 4096);
      assert LiValue(x) == x - 4096 * Lost(x) + j * TWO64;
    }
  }

  /** The chain builds its constant if and only if every digit below the leading one is
      under 2048; otherwise each larger digit makes the result too small. */
  lemma LiExactIff(x: Word)
    ensures LiValue(x) == x <==> LiExact(x)
    ensures LiValue(x) == Wrap(x - 4096 * Lost(x))
  {
    LiValueLoses(x);
    LostZero(x);
    LostBound(x, 5, 0x1000_0000_0000_0000);
    var y: int := x;
    var k :| LiValue(x) == y - 4096 * Lost(x) + k * TWO64;
    WrapUnique(y - 4096 * Lost(x), LiValue(x), k);
    if LiValue(x) == x {
      assert 4096 * Lost(x) == k * TWO64;
      assert k == 0;
    }
  }

  /** 4095 is the smallest kind of failure: it is materialised as -1. */
  lemma LiLosesDigits()
    ensures LiValue(4095) == -1 && LiValue(2048) == -2048
  {
    Pow2Of12();
    assert 4095 / 4096 == 0 && 4095 % 4096 == 4095;
    assert LiValue(0) == 0;
    assert LowDigit(4095) == -1 && LowDigit(2048) == -2048;
  }
}
