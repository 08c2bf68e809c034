/** Instruction formats (section 2.3 of the RISC-V Unprivileged ISA) as the compiler's
    `rv_*` encoders build them, an independent decoder, and the machine that runs words. */
module RvMachine {
  import opened Prelude
  import opened Rv64

  type Reg = r: nat | r < 32
  type Code = seq<int>

  datatype IOp = ADDI | SLLI | SLTIU | XORI

  datatype Instr =
    | R(rop: ROp, rd: Reg, rs1: Reg, rs2: Reg)
    | I(iop: IOp, rd: Reg, rs1: Reg, imm: int)
    | Load(size: Size, rd: Reg, rs1: Reg, imm: int)
    | Store(size: Size, rs2: Reg, rs1: Reg, imm: int)
    | Branch(ne: bool, rs1: Reg, rs2: Reg, imm: int)
    | Jal(rd: Reg, imm: int)
    | Jalr(rd: Reg, rs1: Reg, imm: int)

  // ----- encoders: fields are disjoint, so the source's `|` is a sum -----

  function RvR(funct7: int, rs2: int, rs1: int, funct3: int, rd: int, opcode: int): int {
    funct7 * 0x200_0000 + rs2 * 0x10_0000 + rs1 * 0x8000 + funct3 * 0x1000 + rd * 0x80 + opcode
  }

  function RvI(imm: int, rs1: int, funct3: int, rd: int, opcode: int): int {
    (imm % 0x1000) * 0x10_0000 + rs1 * 0x8000 + funct3 * 0x1000 + rd * 0x80 + opcode
  }

  function RvS(imm: int, rs2: int, rs1: int, funct3: int): int {
    (imm / 32 % 128) * 0x200_0000 + rs2 * 0x10_0000 + rs1 * 0x8000 + funct3 * 0x1000 +
    (imm % 32) * 0x80 + 0x23
  }

  function RvB(imm: int, rs2: int, rs1: int, funct3: int): int {
    (imm / 4096 % 2) * 0x8000_0000 + (imm / 32 % 64) * 0x200_0000 + rs2 * 0x10_0000 +
    rs1 * 0x8000 + funct3 * 0x1000 + (imm / 2 % 16) * 0x100 + (imm / 2048 % 2) * 0x80 + 0x63
  }

  function RvJ(imm: int, rd: int): int {
    (imm / 0x10_0000 % 2) * 0x8000_0000 + (imm / 2 % 1024) * 0x20_0000 +
    (imm / 2048 % 2) * 0x10_0000 + (imm / 4096 % 256) * 0x1000 + rd * 0x80 + 0x6f
  }

  function RFunct7(op: ROp): int {
    match op
    case SUB => 0x20
    case MUL => 1
    case DIV => 1
    case REM => 1
    case _ => 0
  }

  function RFunct3(op: ROp): int {
    match op
    case ADD => 0
    case SUB => 0
    case MUL => 0
    case DIV => 4
    case REM => 6
    case AND => 7
    case OR => 6
    case XOR => 4
    case SLL => 1
    case SRL => 5
    case SLT => 2
    case SLTU => 3
  }

  function IFunct3(op: IOp): int {
    match op
    case ADDI => 0
    case SLLI => 1
    case SLTIU => 3
    case XORI => 4
  }

  function SizeFunct3(n: Size): int {
    if n == 1 then 0 else if n == 4 then 2 else 3
  }

  function Encode(i: Instr): int {
    match i
    case R(op, rd, rs1, rs2) => RvR(RFunct7(op), rs2, rs1, RFunct3(op), rd, 0x33)
    case I(op, rd, rs1, imm) => RvI(imm, rs1, IFunct3(op), rd, 0x13)
    case Load(n, rd, rs1, imm) => RvI(imm, rs1, SizeFunct3(n), rd, 0x03)
    case Store(n, rs2, rs1, imm) => RvS(imm, rs2, rs1, SizeFunct3(n))
    case Branch(ne, rs1, rs2, imm) => RvB(imm, rs2, rs1, if ne then 1 else 0)
    case Jal(rd, imm) => RvJ(imm, rd)
    case Jalr(rd, rs1, imm) => RvI(imm, rs1, 0, rd, 0x67)
  }

  // ----- decoder -----

  datatype Fields = Fields(funct7: int, rs2: int, rs1: int, funct3: int, rd: int, opcode: int)

  function Split(w: int): Fields {
    Fields(w / 0x200_0000 % 128, w / 0x10_0000 % 32, w / 0x8000 % 32, w / 0x1000 % 8,
           w / 0x80 % 32, w % 128)
  }

  predicate ValidFields(f: Fields) {
    && 0 <= f.funct7 < 128 && 0 <= f.rs2 < 32 && 0 <= f.rs1 < 32
    && 0 <= f.funct3 < 8 && 0 <= f.rd < 32 && 0 <= f.opcode < 128
  }

  function Pack(f: Fields): int {
    RvR(f.funct7, f.rs2, f.rs1, f.funct3, f.rd, f.opcode)
  }

  /** x sign-extended from its low n bits, 2^n == range. */
  function SignExtend(x: int, range: int): int {
    if 2 * x >= range then x - range else x
  }

  function ImmI(f: Fields): int { SignExtend(f.funct7 * 32 + f.rs2, 0x1000) }

  function ImmS(f: Fields): int { SignExtend(f.funct7 * 32 + f.rd, 0x1000) }

  function ImmB(f: Fields): int {
    SignExtend(f.funct7 / 64 * 4096 + f.rd % 2 * 2048 + f.funct7 % 64 * 32 + f.rd / 2 * 2, 0x2000)
  }

  function ImmJ(f: Fields): int {
    SignExtend(f.funct7 / 64 * 0x10_0000 + (f.rs1 * 8 + f.funct3) * 0x1000 + f.rs2 % 2 * 2048
               + (f.funct7 % 64 * 16 + f.rs2 / 2) * 2, 0x20_0000)
  }

  function DecodeR(f: Fields): Option<ROp> {
    if f.funct7 == 0 then
      match f.funct3
      case 0 => Some(ADD)
      case 1 => Some(SLL)
      case 2 => Some(SLT)
      case 3 => Some(SLTU)
      case 4 => Some(XOR)
      case 5 => Some(SRL)
      case 6 => Some(OR)
      case 7 => Some(AND)
      case _ => None
    else if f.funct7 == 1 then
      match f.funct3
      case 0 => Some(MUL)
      case 4 => Some(DIV)
      case 6 => Some(REM)
      case _ => None
    else if f.funct7 == 0x20 && f.funct3 == 0 then Some(SUB)
    else None
  }

  function DecodeSize(funct3: int): Option<Size> {
    match funct3
    case 0 => Some(1)
    case 2 => Some(4)
    case 3 => Some(8)
    case _ => None
  }

  function DecodeI(f: Fields): Option<Instr>
    requires ValidFields(f)
  {
    match f.funct3
    case 0 => Some(I(ADDI, f.rd, f.rs1, ImmI(f)))
    case 1 => if f.funct7 < 2 then Some(I(SLLI, f.rd, f.rs1, f.funct7 * 32 + f.rs2)) else None
    case 3 => Some(I(SLTIU, f.rd, f.rs1, ImmI(f)))
    case 4 => Some(I(XORI, f.rd, f.rs1, ImmI(f)))
    case _ => None
  }

  function DecodeFields(f: Fields): Option<Instr>
    requires ValidFields(f)
  {
    match f.opcode
    case 0x33 =>
      var op := DecodeR(f);
      if op.Some? then Some(R(op.value, f.rd, f.rs1, f.rs2)) else None
    case 0x13 => DecodeI(f)
    case 0x03 =>
      var n := DecodeSize(f.funct3);
      if n.Some? then Some(Load(n.value, f.rd, f.rs1, ImmI(f))) else None
    case 0x23 =>
      var n := DecodeSize(f.funct3);
      if n.Some? then Some(Store(n.value, f.rs2, f.rs1, ImmS(f))) else None
    case 0x63 =>
      if f.funct3 < 2 then Some(Branch(f.funct3 == 1, f.rs1, f.rs2, ImmB(f))) else None
    case 0x6f => Some(Jal(f.rd, ImmJ(f)))
    case 0x67 => if f.funct3 == 0 then Some(Jalr(f.rd, f.rs1, ImmI(f))) else None
    case _ => None
  }

  function Decode(w: int): Option<Instr> {
    DecodeFields(Split(w))
  }

  // ----- encoding is exact exactly when the immediate fits its field -----

  predicate FitsI(imm: int) { -2048 <= imm <= 2047 }

  predicate Fits(i: Instr) {
    match i
    case R(_, _, _, _) => true
    case I(op, _, _, imm) => if op == SLLI then 0 <= imm < 64 else FitsI(imm)
    case Load(_, _, _, imm) => FitsI(imm)
    case Store(_, _, _, imm) => FitsI(imm)
    case Branch(_, _, _, imm) => -4096 <= imm < 4096 && imm % 2 == 0
    case Jal(_, imm) => -0x10_0000 <= imm < 0x10_0000 && imm % 2 == 0
    case Jalr(_, _, imm) => FitsI(imm)
  }

  lemma MulMono(base: int, a: int, b: int)
    requires base > 0 && a <= b
    ensures base * a <= base * b
  {
  }

  lemma Radix(low: int, base: int, high: int, w: int)
    requires 0 <= low < base && w == low + base * high
    ensures w / base == high && w % base == low
  {
    var q := w / base;
    if q < high {
      MulMono(base, q + 1, high);
      assert false;
    } else if q > high {
      MulMono(base, high + 1, q);
      assert false;
    }
  }

  lemma SplitPack(f: Fields)
    requires ValidFields(f)
    ensures Split(Pack(f)) == f
  {
    var w := Pack(f);
    var w4 := f.rs2 + 32 * f.funct7;
    var w3 := f.rs1 + 32 * w4;
    var w2 := f.funct3 + 8 * w3;
    var w1 := f.rd + 32 * w2;
    assert w == f.opcode + 0x80 * w1;
    Radix(f.opcode, 0x80, w1, w);
    Radix(f.rd, 32, w2, w1);
    Radix(f.opcode + 0x80 * f.rd, 0x1000, w2, w);
    Radix(f.funct3, 8, w3, w2);
    Radix(f.opcode + 0x80 * f.rd + 0x1000 * f.funct3, 0x8000, w3, w);
    Radix(f.rs1, 32, w4, w3);
    Radix(f.opcode + 0x80 * f.rd + 0x1000 * f.funct3 + 0x8000 * f.rs1, 0x10_0000, w4, w);
    Radix(f.rs2, 32, f.funct7, w4);
    Radix(f.opcode + 0x80 * f.rd + 0x1000 * f.funct3 + 0x8000 * f.rs1 + 0x10_0000 * f.rs2,
          0x200_0000, f.funct7, w);
  }

  lemma Imm12(imm: int, hi: int, low: int)
    requires hi == imm / 32 % 128 && low == imm % 32
    ensures imm % 0x1000 == hi * 32 + low
    ensures SignExtend(hi * 32 + low, 0x1000) == imm <==> FitsI(imm)
  {
    assert imm / 32 == 128 * (imm / 32 / 128) + hi;
  }

  lemma IFields(imm: int, rs1: Reg, funct3: int, rd: Reg, opcode: int)
    requires 0 <= funct3 < 8 && 0 <= opcode < 128
    ensures Split(RvI(imm, rs1, funct3, rd, opcode))
         == Fields(imm / 32 % 128, imm % 32, rs1, funct3, rd, opcode)
    ensures ImmI(Split(RvI(imm, rs1, funct3, rd, opcode))) == imm <==> FitsI(imm)
  {
    Imm12(imm, imm / 32 % 128, imm % 32);
    SplitPack(Fields(imm / 32 % 128, imm % 32, rs1, funct3, rd, opcode));
  }

  lemma SFields(imm: int, rs2: Reg, rs1: Reg, funct3: int)
    requires 0 <= funct3 < 8
    ensures Split(RvS(imm, rs2, rs1, funct3))
         == Fields(imm / 32 % 128, rs2, rs1, funct3, imm % 32, 0x23)
    ensures ImmS(Split(RvS(imm, rs2, rs1, funct3))) == imm <==> FitsI(imm)
  {
    Imm12(imm, imm / 32 % 128, imm % 32);
    SplitPack(Fields(imm / 32 % 128, rs2, rs1, funct3, imm % 32, 0x23));
  }

  lemma BranchBits(imm: int)
    ensures imm == 8192 * (imm / 4096 / 2) + 4096 * (imm / 4096 % 2) + 2048 * (imm / 2048 % 2)
                 + 32 * (imm / 32 % 64) + 2 * (imm / 2 % 16) + imm % 2
  {
    assert imm / 32 == imm / 2 / 16;
    assert imm / 2048 == imm / 32 / 64;
    assert imm / 4096 == imm / 2048 / 2;
  }

  /** A value whose low n bits are x, the bit below unit being odd, is its own sign extension
      exactly when it is even and inside the signed range. */
  lemma SignExtendExact(imm: int, range: int, half: int, x: int, q: int, odd: int)
    requires range == 2 * half && 0 <= x < range && x % 2 == 0 && half % 2 == 0 && half > 0
    requires 0 <= odd <= 1 && imm == range * q + x + odd
    ensures SignExtend(x, range) == imm <==> -half <= imm < half && odd == 0
  {
    if q < -1 {
      MulMono(range, q, -2);
    } else if q > 0 {
      MulMono(range, 1, q);
    }
  }

  lemma BFields(imm: int, rs2: Reg, rs1: Reg, funct3: int)
    requires 0 <= funct3 < 8
    ensures var f := Split(RvB(imm, rs2, rs1, funct3));
            && f.rs2 == rs2 && f.rs1 == rs1 && f.funct3 == funct3 && f.opcode == 0x63
            && (ImmB(f) == imm <==> -4096 <= imm < 4096 && imm % 2 == 0)
  {
    var hi, mid, low, bit := imm / 4096 % 2, imm / 32 % 64, imm / 2 % 16, imm / 2048 % 2;
    var f := Fields(hi * 64 + mid, rs2, rs1, funct3, low * 2 + bit, 0x63);
    assert RvB(imm, rs2, rs1, funct3) == Pack(f);
    SplitPack(f);
    Radix(mid, 64, hi, f.funct7);
    Radix(bit, 2, low, f.rd);
    BranchBits(imm);
    var x := hi * 4096 + bit * 2048 + mid * 32 + low * 2;
    assert x == 2 * (hi * 2048 + bit * 1024 + mid * 16 + low);
    SignExtendExact(imm, 0x2000, 0x1000, x, imm / 4096 / 2, imm % 2);
    assert ImmB(f) == SignExtend(x, 0x2000);
  }

  lemma JumpBits(imm: int)
    ensures imm == 0x20_0000 * (imm / 0x10_0000 / 2) + 0x10_0000 * (imm / 0x10_0000 % 2)
                 + 4096 * (imm / 4096 % 256) + 2048 * (imm / 2048 % 2)
                 + 2 * (imm / 2 % 1024) + imm % 2
  {
    assert imm / 2048 == imm / 2 / 1024;
    assert imm / 4096 == imm / 2048 / 2;
    assert imm / 0x10_0000 == imm / 4096 / 256;
  }

  function JumpFields(hi: int, low: int, bit: int, mid: int, rd: int): Fields {
    Fields(hi * 64 + low / 16, low % 16 * 2 + bit, mid / 8, mid % 8, rd, 0x6f)
  }

  lemma JumpImm(hi: int, low: int, bit: int, mid: int, rd: int)
    requires 0 <= hi <= 1 && 0 <= low < 1024 && 0 <= bit <= 1 && 0 <= mid < 256
    ensures ImmJ(JumpFields(hi, low, bit, mid, rd))
         == SignExtend(hi * 0x10_0000 + mid * 0x1000 + bit * 2048 + low * 2, 0x20_0000)
  {
    Radix(low / 16, 64, hi, hi * 64 + low / 16);
    Radix(bit, 2, low % 16, low % 16 * 2 + bit);
  }

  lemma JumpPack(imm: int, rd: Reg, hi: int, low: int, bit: int, mid: int)
    requires hi == imm / 0x10_0000 % 2 && low == imm / 2 % 1024
    requires bit == imm / 2048 % 2 && mid == imm / 4096 % 256
    ensures RvJ(imm, rd) == Pack(JumpFields(hi, low, bit, mid, rd))
  {
  }

  lemma JumpExact(imm: int, hi: int, low: int, bit: int, mid: int, x: int)
    requires hi == imm / 0x10_0000 % 2 && low == imm / 2 % 1024
    requires bit == imm / 2048 % 2 && mid == imm / 4096 % 256
    requires x == hi * 0x10_0000 + mid * 0x1000 + bit * 2048 + low * 2
    ensures SignExtend(x, 0x20_0000) == imm <==> -0x10_0000 <= imm < 0x10_0000 && imm % 2 == 0
  {
    JumpBits(imm);
    assert x == 2 * (hi * 0x8_0000 + mid * 0x800 + bit * 1024 + low);
    SignExtendExact(imm, 0x20_0000, 0x10_0000, x, imm / 0x10_0000 / 2, imm % 2);
  }

  lemma JFields(imm: int, rd: Reg)
    ensures Split(RvJ(imm, rd)).rd == rd && Split(RvJ(imm, rd)).opcode == 0x6f
    ensures ImmJ(Split(RvJ(imm, rd))) == imm <==> -0x10_0000 <= imm < 0x10_0000 && imm % 2 == 0
  {
    var hi, low, bit, mid := imm / 0x10_0000 % 2, imm / 2 % 1024, imm / 2048 % 2, imm / 4096 % 256;
    var f := JumpFields(hi, low, bit, mid, rd);
    assert Split(RvJ(imm, rd)) == f by {
      JumpPack(imm, rd, hi, low, bit, mid);
      SplitPack(f);
    }
    JumpImm(hi, low, bit, mid, rd);
    JumpExact(imm, hi, low, bit, mid, hi * 0x10_0000 + mid * 0x1000 + bit * 2048 + low * 2);
  }

  lemma DecodeEncodeR(op: ROp, rd: Reg, rs1: Reg, rs2: Reg)
    ensures Decode(Encode(R(op, rd, rs1, rs2))) == Some(R(op, rd, rs1, rs2))
  {
    SplitPack(Fields(RFunct7(op), rs2, rs1, RFunct3(op), rd, 0x33));
  }

  lemma Shamt(imm: int, hi: int, low: int)
    requires hi == imm / 32 % 128 && low == imm % 32
    ensures hi < 2 && hi * 32 + low == imm <==> 0 <= imm < 64
  {
  }

  lemma DecodeEncodeI(op: IOp, rd: Reg, rs1: Reg, imm: int)
    ensures Decode(Encode(I(op, rd, rs1, imm))) == Some(I(op, rd, rs1, imm)) <==> Fits(I(op, rd, rs1, imm))
  {
    IFields(imm, rs1, IFunct3(op), rd, 0x13);
    Shamt(imm, imm / 32 % 128, imm % 32);
    var f := Split(RvI(imm, rs1, IFunct3(op), rd, 0x13));
    assert Decode(Encode(I(op, rd, rs1, imm))) == DecodeI(f);
  }

  lemma DecodeEncodeMem(n: Size, r: Reg, rs1: Reg, imm: int)
    ensures Decode(Encode(Load(n, r, rs1, imm))) == Some(Load(n, r, rs1, imm)) <==> FitsI(imm)
    ensures Decode(Encode(Store(n, r, rs1, imm))) == Some(Store(n, r, rs1, imm)) <==> FitsI(imm)
  {
    IFields(imm, rs1, SizeFunct3(n), r, 0x03);
    SFields(imm, r, rs1, SizeFunct3(n));
  }

  lemma DecodeEncodeJump(ne: bool, r: Reg, rs1: Reg, imm: int)
    ensures Decode(Encode(Branch(ne, rs1, r, imm))) == Some(Branch(ne, rs1, r, imm))
       <==> Fits(Branch(ne, rs1, r, imm))
    ensures Decode(Encode(Jal(r, imm))) == Some(Jal(r, imm)) <==> Fits(Jal(r, imm))
    ensures Decode(Encode(Jalr(r, rs1, imm))) == Some(Jalr(r, rs1, imm)) <==> Fits(Jalr(r, rs1, imm))
  {
    BFields(imm, r, rs1, if ne then 1 else 0);
    JFields(imm, r);
    IFields(imm, rs1, 0, r, 0x67);
  }

  /** The encoders never check their immediates: a word decodes to the instruction that was
      meant if and only if the immediate fits its field. */
  lemma DecodeEncode(i: Instr)
    ensures Decode(Encode(i)) == Some(i) <==> Fits(i)
  {
    match i {
      case R(op, rd, rs1, rs2) => DecodeEncodeR(op, rd, rs1, rs2);
      case I(op, rd, rs1, imm) => DecodeEncodeI(op, rd, rs1, imm);
      case Load(n, rd, rs1, imm) => DecodeEncodeMem(n, rd, rs1, imm);
      case Store(n, rs2, rs1, imm) => DecodeEncodeMem(n, rs2, rs1, imm);
      case Branch(ne, rs1, rs2, imm) => DecodeEncodeJump(ne, rs2, rs1, imm);
      case Jal(rd, imm) => DecodeEncodeJump(false, rd, 0, imm);
      case Jalr(rd, rs1, imm) => DecodeEncodeJump(false, rd, rs1, imm);
    }
  }

  // ----- the machine -----

  type Regs = s: seq<Word> | |s| == 32 witness seq(32, _ => 0)

  datatype Machine = Machine(pc: int, regs: Regs, mem: Mem)

  function Get(m: Machine, r: Reg): Word {
    if r == 0 then 0 else m.regs[r]
  }

  function Set(m: Machine, r: Reg, v: Word): Machine {
    if r == 0 then m else m.(regs := m.regs[r := v])
  }

  function Next(m: Machine): Machine { m.(pc := m.pc + 4) }

  function AluImm(op: IOp, a: Word, imm: int): Word {
    match op
    case ADDI => Wrap(a + imm)
    case SLLI => Wrap(a * Pow2(imm % 64))
    case SLTIU => Truth(Unsigned(a) < Unsigned(Wrap(imm)))
    case XORI => Bitwise(Xor, a, Wrap(imm))
  }

  function Exec(i: Instr, m: Machine): Machine {
    match i
    case R(op, rd, rs1, rs2) => Next(Set(m, rd, Alu(op, Get(m, rs1), Get(m, rs2))))
    case I(op, rd, rs1, imm) => Next(Set(m, rd, AluImm(op, Get(m, rs1), imm)))
    case Load(n, rd, rs1, imm) => Next(Set(m, rd, LoadSigned(m.mem, Wrap(Get(m, rs1) + imm), n)))
    case Store(n, rs2, rs1, imm) =>
      Next(m.(mem := Put(m.mem, Wrap(Get(m, rs1) + imm), n, Get(m, rs2))))
    case Branch(ne, rs1, rs2, imm) =>
      if (Get(m, rs1) != Get(m, rs2)) == ne then m.(pc := m.pc + imm) else Next(m)
    case Jal(rd, imm) => Set(m, rd, Wrap(m.pc + 4)).(pc := m.pc + imm)
    case Jalr(rd, rs1, imm) =>
      var target := Wrap(Get(m, rs1) + imm);
      Set(m, rd, Wrap(m.pc + 4)).(pc := target - target % 2)
  }

  // ----- runs -----

  function Iterate<S>(step: S -> Option<S>, s: S, n: nat): Option<S>
    decreases n
  {
    if n == 0 then Some(s) else
    var next := step(s);
    if next.Some? then Iterate(step, next.value, n - 1) else None
  }

  lemma {:induction false} IterateAdd<S>(step: S -> Option<S>, s: S, k: nat, n: nat)
    requires Iterate(step, s, k).Some?
    ensures Iterate(step, s, k + n) == Iterate(step, Iterate(step, s, k).value, n)
    decreases k
  {
    if k > 0 { IterateAdd(step, step(s).value, k - 1, n); }
  }

  lemma {:induction false} IterateAgree<S>(f: S -> Option<S>, g: S -> Option<S>, s: S, n: nat)
    requires forall x :: f(x) == g(x)
    ensures Iterate(f, s, n) == Iterate(g, s, n)
    decreases n
  {
    if n > 0 && f(s).Some? { IterateAgree(f, g, f(s).value, n - 1); }
  }

  predicate InText(length: nat, m: Machine) {
    m.pc % 4 == 0 && 0 <= m.pc / 4 < length
  }

  /** One step of an instruction sequence. pc is the byte offset into the text section;
      outside it the machine stops. */
  function Step(prog: seq<Instr>, m: Machine): Option<Machine> {
    if InText(|prog|, m) then Some(Exec(prog[m.pc / 4], m)) else None
  }

  function Stepper(prog: seq<Instr>): Machine -> Option<Machine> { m => Step(prog, m) }

  function Run(prog: seq<Instr>, m: Machine, n: nat): Option<Machine> {
    Iterate(Stepper(prog), m, n)
  }

  ghost predicate Reaches(prog: seq<Instr>, m: Machine, m': Machine) {
    exists n: nat :: Iterate(Stepper(prog), m, n) == Some(m')
  }

  lemma ReachesRefl(prog: seq<Instr>, m: Machine)
    ensures Reaches(prog, m, m)
  {
    assert Iterate(Stepper(prog), m, 0) == Some(m);
  }

  lemma ReachesTrans(prog: seq<Instr>, a: Machine, b: Machine, c: Machine)
    requires Reaches(prog, a, b) && Reaches(prog, b, c)
    ensures Reaches(prog, a, c)
  {
    var k: nat :| Iterate(Stepper(prog), a, k) == Some(b);
    var n: nat :| Iterate(Stepper(prog), b, n) == Some(c);
    IterateAdd(Stepper(prog), a, k, n);
  }

  lemma ReachesStep(prog: seq<Instr>, a: Machine, p: nat)
    requires p < |prog| && a.pc == 4 * p
    ensures Reaches(prog, a, Exec(prog[p], a))
  {
    var b := Exec(prog[p], a);
    assert Stepper(prog)(a) == Some(b);
    assert Iterate(Stepper(prog), b, 0) == Some(b);
    assert Iterate(Stepper(prog), a, 1) == Some(b);
  }

  // ----- the machine on encoded words -----

  function StepWord(code: Code, m: Machine): Option<Machine> {
    if InText(|code|, m) then
      var i := Decode(code[m.pc / 4]);
      if i.Some? then Some(Exec(i.value, m)) else None
    else
      None
  }

  function RunWords(code: Code, m: Machine, n: nat): Option<Machine> {
    Iterate((x: Machine) => StepWord(code, x), m, n)
  }

  ghost predicate Decodes(code: Code, prog: seq<Instr>) {
    |code| == |prog| && forall k :: 0 <= k < |code| ==> Decode(code[k]) == Some(prog[k])
  }

  /** Encoded words run exactly like the instructions they decode to. */
  lemma WordsRunAlike(code: Code, prog: seq<Instr>, m: Machine, n: nat)
    requires Decodes(code, prog)
    ensures RunWords(code, m, n) == Run(prog, m, n)
  {
    IterateAgree((x: Machine) => StepWord(code, x), Stepper(prog), m, n);
  }
}
