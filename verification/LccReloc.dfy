/** Patching relocated instructions: every patch keeps the bits outside the immediate, and the
    immediate it leaves decodes to the wanted value exactly when that value fits. The masks of the
    patch functions select whole fields, so a patch replaces fields of the instruction word. */
module LccReloc {

  import opened RvMachine

  // ----- fields -----

  lemma PackSplit(w: int)
    requires 0 <= w < 0x1_0000_0000
    ensures Pack(Split(w)) == w && ValidFields(Split(w))
  {
    assert w / 0x80 == w / 0x1000 * 32 + w / 0x80 % 32 by { assert w / 0x80 / 32 == w / 0x1000; }
    assert w / 0x1000 == w / 0x8000 * 8 + w / 0x1000 % 8 by { assert w / 0x1000 / 8 == w / 0x8000; }
    assert w / 0x8000 == w / 0x10_0000 * 32 + w / 0x8000 % 32 by { assert w / 0x8000 / 32 == w / 0x10_0000; }
    assert w / 0x10_0000 == w / 0x200_0000 * 32 + w / 0x10_0000 % 32 by { assert w / 0x10_0000 / 32 == w / 0x200_0000; }
  }

  /** The upper immediate of a LUI or AUIPC. */
  function ImmU(f: Fields): int {
    SignExtend((f.funct7 * 0x2000 + f.rs2 * 0x100 + f.rs1 * 8 + f.funct3) * 0x1000, 0x1_0000_0000)
  }

  // ----- the patches -----

  function PatchI(f: Fields, imm: int): Fields { f.(funct7 := imm / 32 % 128, rs2 := imm % 32) }

  function PatchS(f: Fields, imm: int): Fields { f.(funct7 := imm / 32 % 128, rd := imm % 32) }

  function PatchU(f: Fields, imm: int): Fields {
    f.(funct7 := imm / 0x200_0000 % 128, rs2 := imm / 0x10_0000 % 32, rs1 := imm / 0x8000 % 32, funct3 :=
        imm / 0x1000 % 8)
  }

  function PatchB(f: Fields, imm: int): Fields {
    f.(funct7 := imm / 4096 % 2 * 64 + imm / 32 % 64, rd := imm / 2 % 16 * 2 + imm / 2048 % 2)
  }

  function PatchJ(f: Fields, imm: int): Fields {
    JumpFields(imm / 0x10_0000 % 2, imm / 2 % 1024, imm / 2048 % 2, imm / 4096 % 256, f.rd).(opcode := f.opcode)
  }

  lemma IExact(f: Fields, imm: int)
    ensures ImmI(PatchI(f, imm)) == imm <==> FitsI(imm)
    ensures (ImmI(PatchI(f, imm)) - imm) % 0x1000 == 0 && FitsI(ImmI(PatchI(f, imm)))
  {
    Imm12(imm, imm / 32 % 128, imm % 32);
  }

  lemma SExact(f: Fields, imm: int)
    ensures ImmS(PatchS(f, imm)) == ImmI(PatchI(f, imm))
  {
  }

  lemma BExact(f: Fields, imm: int)
    ensures ImmB(PatchB(f, imm)) == imm <==> -4096 <= imm < 4096 && imm % 2 == 0
  {
    var hi, mid, low, bit := imm / 4096 % 2, imm / 32 % 64, imm / 2 % 16, imm / 2048 % 2;
    var g := PatchB(f, imm);
    Radix(mid, 64, hi, g.funct7);
    Radix(bit, 2, low, g.rd);
    BranchBits(imm);
    var x := hi * 4096 + bit * 2048 + mid * 32 + low * 2;
    assert x == 2 * (hi * 2048 + bit * 1024 + mid * 16 + low);
    SignExtendExact(imm, 0x2000, 0x1000, x, imm / 4096 / 2, imm % 2);
  }

  lemma JExact(f: Fields, imm: int)
    ensures ImmJ(PatchJ(f, imm)) == imm <==> -0x10_0000 <= imm < 0x10_0000 && imm % 2 == 0
  {
    var hi, low, bit, mid := imm / 0x10_0000 % 2, imm / 2 % 1024, imm / 2048 % 2, imm / 4096 % 256;
    JumpImm(hi, low, bit, mid, f.rd);
    JumpExact(imm, hi, low, bit, mid, hi * 0x10_0000 + mid * 0x1000 + bit * 2048 + low * 2);
  }

  // ----- values split over two instructions -----

  function Hi(v: int): int { (v + 0x800) / 0x1000 * 0x1000 }

  /** The values that an upper and a lower part can add up to. */
  predicate Reachable(v: int) { -0x8000_0800 <= v < 0x7FFF_F800 }

  lemma UpperBits(v: int)
    ensures (v / 0x200_0000 % 128) * 0x2000 + (v / 0x10_0000 % 32) * 0x100 + (v / 0x8000 % 32) * 8 + v / 0x1000 % 8
      == v / 0x1000 % 0x10_0000
  {
    assert v / 0x1000 / 8 == v / 0x8000;
    assert v / 0x8000 / 32 == v / 0x10_0000;
    assert v / 0x10_0000 / 32 == v / 0x200_0000;
    var q := v / 0x200_0000 / 128;
    var x := (v / 0x200_0000 % 128) * 0x2000 + (v / 0x10_0000 % 32) * 0x100 + (v / 0x8000 % 32) * 8 + v / 0x1000 % 8;
    assert v / 0x1000 == x + 0x10_0000 * q;
    Radix(x, 0x10_0000, q, v / 0x1000);
  }

  lemma UExact(f: Fields, v: int)
    ensures var u := ImmU(PatchU(f, Hi(v))); (u == Hi(v) <==> Reachable(v)) && u % 0x1000 == 0
  {
    var h := (v + 0x800) / 0x1000;
    assert Hi(v) / 0x1000 == h;
    UpperBits(Hi(v));
    var x := h % 0x10_0000;
    assert ImmU(PatchU(f, Hi(v))) == SignExtend(x * 0x1000, 0x1_0000_0000);
    var q := h / 0x10_0000;
    assert h == x + 0x10_0000 * q && Hi(v) == h * 0x1000 && h * 0x1000 <= v + 0x800 < h * 0x1000 + 0x1000;
    hide *;
    SignExtendExact(h * 0x1000, 0x1_0000_0000, 0x8000_0000, x * 0x1000, q, 0);
  }

  /** The two instructions of a CALL reach d exactly when it is reachable. */
  lemma CallExact(f: Fields, g: Fields, d: int)
    ensures ImmU(PatchU(f, Hi(d))) + ImmI(PatchI(g, d - Hi(d))) == d <==> Reachable(d)
  {
    UExact(f, d);
    IExact(g, d - Hi(d));
  }

  /** An upper half computed from v and a lower half computed from u add up to v exactly when v is
      reachable and the two values agree in their low twelve bits. */
  lemma PairExact(f: Fields, g: Fields, v: int, u: int)
    ensures ImmU(PatchU(f, Hi(v))) + ImmI(PatchI(g, u)) == v <==> Reachable(v) && (u - v) % 0x1000 == 0
    ensures ImmU(PatchU(f, Hi(v))) + ImmS(PatchS(g, u)) == v <==> Reachable(v) && (u - v) % 0x1000 == 0
  {
    UExact(f, v);
    IExact(g, u);
    SExact(g, u);
    var a, b := ImmU(PatchU(f, Hi(v))), ImmI(PatchI(g, u));
    hide *;
    HalvesUnique(v, u, a, b);
  }

  lemma HalvesUnique(v: int, u: int, a: int, b: int)
    requires a % 0x1000 == 0 && (b - u) % 0x1000 == 0 && FitsI(b)
    ensures a + b == v <==> a == Hi(v) && (u - v) % 0x1000 == 0
  {
  }

  // ----- compressed instructions -----

  /** A compressed instruction: funct3, three bits, a register field, five bits, and the opcode. */
  datatype Half = Half(top: int, hi3: int, reg3: int, mid5: int, op: int)

  function SplitHalf(h: int): Half { Half(h / 0x2000 % 8, h / 0x400 % 8, h / 0x80 % 8, h / 4 % 32, h % 4) }

  predicate ValidHalf(x: Half) {
    0 <= x.top < 8 && 0 <= x.hi3 < 8 && 0 <= x.reg3 < 8 && 0 <= x.mid5 < 32 && 0 <= x.op < 4
  }

  function PackHalf(x: Half): int { x.top * 0x2000 + x.hi3 * 0x400 + x.reg3 * 0x80 + x.mid5 * 4 + x.op }

  lemma SplitPackHalf(x: Half)
    requires ValidHalf(x)
    ensures SplitHalf(PackHalf(x)) == x && 0 <= PackHalf(x) < 0x1_0000
  {
    var h := PackHalf(x);
    Radix(x.op, 4, x.mid5 + 32 * x.reg3 + 256 * x.hi3 + 2048 * x.top, h);
    Radix(x.mid5, 32, x.reg3 + 8 * x.hi3 + 64 * x.top, x.mid5 + 32 * x.reg3 + 256 * x.hi3 + 2048 * x.top);
    Radix(x.op + 4 * x.mid5, 0x80, x.reg3 + 8 * x.hi3 + 64 * x.top, h);
    Radix(x.reg3, 8, x.hi3 + 8 * x.top, x.reg3 + 8 * x.hi3 + 64 * x.top);
    Radix(x.op + 4 * x.mid5 + 0x80 * x.reg3, 0x400, x.hi3 + 8 * x.top, h);
    Radix(x.hi3, 8, x.top, x.hi3 + 8 * x.top);
    Radix(x.op + 4 * x.mid5 + 0x80 * x.reg3 + 0x400 * x.hi3, 0x2000, x.top, h);
  }

  function ImmCB(x: Half): int {
    SignExtend(x.hi3 / 4 * 256 + x.mid5 / 8 * 64 + x.mid5 % 2 * 32 + x.hi3 % 4 * 8 + x.mid5 / 2 % 4 * 2, 0x200)
  }

  function ImmCJ(x: Half): int {
    SignExtend(x.hi3 / 4 * 2048 + x.reg3 / 2 % 2 * 1024 + x.hi3 % 2 * 512 + x.reg3 / 4 * 256 + x.mid5 / 16 * 128
               + x.reg3 % 2 * 64 + x.mid5 % 2 * 32 + x.hi3 / 2 % 2 * 16 + x.mid5 / 2 % 8 * 2, 0x1000)
  }

  function PatchCB(x: Half, imm: int): Half {
    x.(hi3 := imm / 256 % 2 * 4 + imm / 8 % 4, mid5 := imm / 64 % 4 * 8 + imm / 2 % 4 * 2 + imm / 32 % 2)
  }

  function PatchCJ(x: Half, imm: int): Half {
    x.(hi3 := imm / 2048 % 2 * 4 + imm / 16 % 2 * 2 + imm / 512 % 2, reg3 :=
        imm / 256 % 2 * 4 + imm / 1024 % 2 * 2 + imm / 64 % 2,
       mid5 := imm / 128 % 2 * 16 + imm / 2 % 8 * 2 + imm / 32 % 2)
  }

  lemma CBBits(imm: int)
    ensures imm == 512 * (imm / 256 / 2) + 256 * (imm / 256 % 2) + 64 * (imm / 64 % 4) + 32 * (imm / 32 % 2)
      + 8 * (imm / 8 % 4) + 2 * (imm / 2 % 4) + imm % 2
  {
    assert imm / 8 == imm / 2 / 4;
    assert imm / 32 == imm / 8 / 4;
    assert imm / 64 == imm / 32 / 2;
    assert imm / 256 == imm / 64 / 4;
  }

  lemma CBExact(x: Half, imm: int)
    ensures ImmCB(PatchCB(x, imm)) == imm <==> -256 <= imm < 256 && imm % 2 == 0
  {
    var b8, b76, b5, b43, b21 := imm / 256 % 2, imm / 64 % 4, imm / 32 % 2, imm / 8 % 4, imm / 2 % 4;
    var y := PatchCB(x, imm);
    Radix(b43, 4, b8, y.hi3);
    Radix(b5, 2, b76 * 4 + b21, y.mid5);
    Radix(b21, 4, b76, b76 * 4 + b21);
    Radix(b21 * 2 + b5, 8, b76, y.mid5);
    CBBits(imm);
    var v := 2 * (b8 * 128 + b76 * 32 + b5 * 16 + b43 * 4 + b21);
    SignExtendExact(imm, 0x200, 0x100, v, imm / 256 / 2, imm % 2);
  }

  lemma CJBits(imm: int)
    ensures imm == 4096 * (imm / 2048 / 2) + 2048 * (imm / 2048 % 2) + 1024 * (imm / 1024 % 2) + 512 * (imm / 512 % 2)
      + 256 * (imm / 256 % 2)
                 + 128 * (imm / 128 % 2) + 64 * (imm / 64 % 2) + 32 * (imm / 32 % 2) + 16 * (imm / 16 % 2)
                     + 2 * (imm / 2 % 8) + imm % 2
  {
    assert imm / 16 == imm / 2 / 8;
    assert imm / 32 == imm / 16 / 2;
    assert imm / 64 == imm / 32 / 2;
    assert imm / 128 == imm / 64 / 2;
    assert imm / 256 == imm / 128 / 2;
    assert imm / 512 == imm / 256 / 2;
    assert imm / 1024 == imm / 512 / 2;
    assert imm / 2048 == imm / 1024 / 2;
  }

  lemma CJExact(x: Half, imm: int)
    ensures ImmCJ(PatchCJ(x, imm)) == imm <==> -2048 <= imm < 2048 && imm % 2 == 0
  {
    var h := CJImmOf(x, imm);
    hide *;
    SignExtendExact(imm, 0x1000, 0x800, 2 * h, imm / 2048 / 2, imm % 2);
  }

  /** The patched immediate is made of the low twelve bits without the last. */
  lemma CJImmOf(x: Half, imm: int) returns (h: int)
    ensures 0 <= h < 2048 && imm == 4096 * (imm / 2048 / 2) + 2 * h + imm % 2
    ensures ImmCJ(PatchCJ(x, imm)) == SignExtend(2 * h, 0x1000)
  {
    CJBits(imm);
    hide ImmCJ, SignExtend;
    var b11, b10, b9, b8, b7 := imm / 2048 % 2, imm / 1024 % 2, imm / 512 % 2, imm / 256 % 2, imm / 128 % 2;
    var b6, b5, b4, b321 := imm / 64 % 2, imm / 32 % 2, imm / 16 % 2, imm / 2 % 8;
    CJImm(x, b11, b10, b9, b8, b7, b6, b5, b4, b321);
    h := b11 * 1024 + b10 * 512 + b9 * 256 + b8 * 128 + b7 * 64 + b6 * 32 + b5 * 16 + b4 * 8 + b321;
  }

  lemma CJImm(x: Half, b11: int, b10: int, b9: int, b8: int, b7: int, b6: int, b5: int, b4: int, b321: int)
    requires 0 <= b11 <= 1 && 0 <= b10 <= 1 && 0 <= b9 <= 1 && 0 <= b8 <= 1 && 0 <= b7 <= 1 && 0 <= b6 <= 1
      && 0 <= b5 <= 1 && 0 <= b4 <= 1 && 0 <= b321 < 8
    ensures ImmCJ(x.(hi3 := b11 * 4 + b4 * 2 + b9, reg3 := b8 * 4 + b10 * 2 + b6, mid5 := b7 * 16 + b321 * 2 + b5))
         == SignExtend(2 * (b11 * 1024 + b10 * 512 + b9 * 256 + b8 * 128 + b7 * 64 + b6 * 32 + b5 * 16 + b4 * 8 + b321),
             0x1000)
  {
    var y := x.(hi3 := b11 * 4 + b4 * 2 + b9, reg3 := b8 * 4 + b10 * 2 + b6, mid5 := b7 * 16 + b321 * 2 + b5);
    Radix(b4 * 2 + b9, 4, b11, y.hi3);
    Radix(b9, 2, b11 * 2 + b4, y.hi3);
    Radix(b4, 2, b11, b11 * 2 + b4);
    Radix(b10 * 2 + b6, 4, b8, y.reg3);
    Radix(b6, 2, b8 * 2 + b10, y.reg3);
    Radix(b10, 2, b8, b8 * 2 + b10);
    Radix(b321 * 2 + b5, 16, b7, y.mid5);
    Radix(b5, 2, b7 * 8 + b321, y.mid5);
    Radix(b321, 8, b7, b7 * 8 + b321);
  }
}
