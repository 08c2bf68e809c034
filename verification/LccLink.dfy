/** The linker: applying the relocations of a section to the images of text and data. */
module LccLink {
  import opened Prelude
  import opened LeBytes
  import opened RvMachine
  import opened LccReloc

  datatype Kind =
    | NONE | ABS32 | ABS64 | JAL | BRANCH | RVC_BRANCH | RVC_JUMP | CALL
    | HI20 | LO12_I | LO12_S | PCREL_HI20 | PCREL_LO12_I | PCREL_LO12_S | OTHER

  /** A relocation of a section: the place it patches, the address S of its symbol, and its addend.
      The address of the place is base + at, where base is the address of the section. */
  datatype Reloc = Reloc(kind: Kind, at: nat, S: int, A: int)

  function Width(k: Kind): nat {
    match k
    case NONE => 0
    case OTHER => 0
    case ABS64 => 8
    case CALL => 8
    case RVC_BRANCH => 2
    case RVC_JUMP => 2
    case _ => 4
  }

  // ----- instructions in bytes -----

  function Insn(b: Block, at: nat): Fields
    requires at + 4 <= |b|
  {
    Split(Le32(b, at))
  }

  lemma InsnValid(b: Block, at: nat)
    requires at + 4 <= |b|
    ensures ValidFields(Insn(b, at))
  {
    PackSplit(Le32(b, at));
  }

  predicate Encodable(f: Fields) { ValidFields(f) && 0 <= Pack(f) < TWO32 }

  lemma ValidEncodable(f: Fields)
    requires ValidFields(f)
    ensures Encodable(f)
  {
  }

  function InsnBytes(f: Fields): (b: Block)
    requires ValidFields(f)
    ensures |b| == 4
  {
    ValidEncodable(f);
    Bytes32(Pack(f))
  }

  lemma InsnRead(f: Fields, b: Block, at: nat)
    requires ValidFields(f) && at + 4 <= |b| && b[at..at + 4] == InsnBytes(f)
    ensures Insn(b, at) == f
  {
    hide Bytes32, Pack, Split, ValidFields;
    ValidEncodable(f);
    SplitPack(f);
    WordRead(Pack(f), b, at);
  }

  lemma WordRead(v: nat, b: Block, at: nat)
    requires v < TWO32 && at + 4 <= |b| && b[at..at + 4] == Bytes32(v)
    ensures Le32(b, at) == v
  {
    Digits32(v);
    hide Bytes32;
    var c := Bytes32(v);
    assert b[at] == c[0] && b[at + 1] == c[1] && b[at + 2] == c[2] && b[at + 3] == c[3];
  }

  function HalfBytes(x: Half): (b: Block)
    requires ValidHalf(x)
    ensures |b| == 2
  {
    SplitPackHalf(x);
    Bytes16(PackHalf(x))
  }

  function HalfAt(b: Block, at: nat): Half
    requires at + 2 <= |b|
  {
    SplitHalf(Le16(b, at))
  }

  lemma HalfRead(x: Half, b: Block, at: nat)
    requires ValidHalf(x) && at + 2 <= |b| && b[at..at + 2] == HalfBytes(x)
    ensures HalfAt(b, at) == x
  {
    SplitPackHalf(x);
    var c := HalfBytes(x);
    assert b[at] == c[0] && b[at + 1] == c[1];
  }

  // ----- one relocation -----

  /** The symbol of the PCREL_HI20 relocation at address hi: find_pcrel_hi. */
  function HiSymbol(rs: seq<Reloc>, base: int, hi: int): Option<int> {
    if rs == [] then None
    else if rs[0].kind == PCREL_HI20 && base + rs[0].at == hi then Some(rs[0].S)
    else HiSymbol(rs[1..], base, hi)
  }

  /** The value that a relocation patches in. */
  function Value(rs: seq<Reloc>, base: int, r: Reloc): Option<int> {
    match r.kind
    case NONE => Some(0)
    case OTHER => None
    case ABS32 => Some(r.S + r.A)
    case ABS64 => Some(r.S + r.A)
    case HI20 => Some(r.S + r.A)
    case LO12_I => Some(r.S + r.A)
    case LO12_S => Some(r.S + r.A)
    case PCREL_LO12_I => LowValue(rs, base, r)
    case PCREL_LO12_S => LowValue(rs, base, r)
    case _ => Some(r.S + r.A - (base + r.at))
  }

  function LowValue(rs: seq<Reloc>, base: int, r: Reloc): Option<int> {
    match HiSymbol(rs, base, r.S)
    case None => None
    case Some(t) => Some(t + r.A - r.S)
  }

  /** The bytes of a place after patching. */
  function Patched(k: Kind, b: Block, v: int): (c: Block)
    requires |b| == Width(k)
    ensures |c| == |b|
  {
    if k == NONE || k == OTHER then b
    else if k == ABS32 then Bytes32(v % TWO32)
    else if k == ABS64 then Bytes32(v % TWO32) + Bytes32(v / TWO32 % TWO32)
    else if k == RVC_BRANCH then HalfBytes(PatchCB(HalfAt(b, 0), v))
    else if k == RVC_JUMP then HalfBytes(PatchCJ(HalfAt(b, 0), v))
    else
      InsnValid(b, 0);
      if k == CALL then InsnValid(b, 4); InsnBytes(PatchU(Insn(b, 0), Hi(v))) + InsnBytes(PatchI(Insn(b, 4), v - Hi(v)))
      else InsnBytes(PatchInsn(k, Insn(b, 0), v))
  }

  function PatchInsn(k: Kind, f: Fields, v: int): (g: Fields)
    ensures ValidFields(f) ==> ValidFields(g)
  {
    match k
    case JAL => PatchJ(f, v)
    case BRANCH => PatchB(f, v)
    case HI20 => PatchU(f, Hi(v))
    case PCREL_HI20 => PatchU(f, Hi(v))
    case LO12_S => PatchS(f, v)
    case PCREL_LO12_S => PatchS(f, v)
    case _ => PatchI(f, v)
  }

  // ----- all relocations of a section -----

  predicate Inside(b: Block, off: nat, r: Reloc) { off + r.at + Width(r.kind) <= |b| }

  /** The bytes that r patches, in a buffer where its section starts at off. */
  function Site(b: Block, off: nat, r: Reloc): Block
    requires Inside(b, off, r)
  {
    b[off + r.at..off + r.at + Width(r.kind)]
  }

  predicate Clear(r: Reloc, s: Reloc) {
    Width(r.kind) == 0 || Width(s.kind) == 0 || r.at + Width(r.kind) <= s.at || s.at + Width(s.kind) <= r.at
  }

  /** No two relocations patch the same byte. */
  predicate Apart(rs: seq<Reloc>) { forall i, j :: 0 <= i < j < |rs| ==> Clear(rs[i], rs[j]) }

  /** Relocation r has been applied to b, which gave b'. */
  predicate Applied(rs: seq<Reloc>, base: int, off: nat, b: Block, b': Block, r: Reloc) {
    && Inside(b, off, r) && Inside(b', off, r) && Value(rs, base, r).Some?
    && Site(b', off, r) == Patched(r.kind, Site(b, off, r), Value(rs, base, r).value)
  }

  predicate Covered(rs: seq<Reloc>, off: nat, p: nat) {
    exists i :: 0 <= i < |rs| && off + rs[i].at <= p < off + rs[i].at + Width(rs[i].kind)
  }

  class Image {
    var bytes: Block

    constructor (b: Block)
      ensures bytes == b
    {
      bytes := b;
    }

    method FindHi(rs: seq<Reloc>, base: int, hi: int) returns (r: Option<int>)
      ensures r == HiSymbol(rs, base, hi)
    {
      var k := 0;
      while k < |rs|
        invariant 0 <= k <= |rs| && HiSymbol(rs, base, hi) == HiSymbol(rs[k..], base, hi)
      {
        if rs[k].kind == PCREL_HI20 && base + rs[k].at == hi { return Some(rs[k].S); }
        assert rs[k..][1..] == rs[k + 1..];
        k := k + 1;
      }
      r := None;
    }

    method Write(p: nat, data: Block)
      requires p + |data| <= |bytes|
      modifies this
      ensures bytes == Patch(old(bytes), p, data)
    {
      bytes := Patch(bytes, p, data);
    }

    /** apply_relocation: patches one place, or refuses. */
    method Apply(rs: seq<Reloc>, base: int, off: nat, r: Reloc) returns (ok: bool)
      requires Inside(bytes, off, r)
      modifies this
      ensures |bytes| == |old(bytes)| && (ok <==> Value(rs, base, r).Some?)
      ensures ok ==>
        bytes == Patch(old(bytes), off + r.at, Patched(r.kind, Site(old(bytes), off, r), Value(rs, base, r).value))
      ensures !ok ==> bytes == old(bytes)
    {
      hide HalfBytes, InsnBytes, Bytes32, PatchInsn, Insn, HalfAt, PatchU, PatchI, PatchCB, PatchCJ;
      var p := off + r.at;
      var here := bytes[p..p + Width(r.kind)];
      var v := r.S + r.A;
      ok := true;
      match r.kind {
        case NONE => assert bytes == Patch(bytes, p, here);
        case OTHER => ok := false;
        case ABS32 => Write(p, Bytes32(v % TWO32));
        case ABS64 => Write(p, Bytes32(v % TWO32) + Bytes32(v / TWO32 % TWO32));
        case RVC_BRANCH =>
          HalvesValid(here, v - (base + r.at));
          Write(p, HalfBytes(PatchCB(HalfAt(here, 0), v - (base + r.at))));
        case RVC_JUMP =>
          HalvesValid(here, v - (base + r.at));
          Write(p, HalfBytes(PatchCJ(HalfAt(here, 0), v - (base + r.at))));
        case CALL =>
          var d := v - (base + r.at);
          CallValid(here, d);
          Write(p, InsnBytes(PatchU(Insn(here, 0), Hi(d))) + InsnBytes(PatchI(Insn(here, 4), d - Hi(d))));
        case _ => ok := ApplyInsn(rs, base, off, r);
      }
    }

    /** The relocations that patch one instruction. */
    method ApplyInsn(rs: seq<Reloc>, base: int, off: nat, r: Reloc) returns (ok: bool)
      requires Inside(bytes, off, r) && r.kind in {JAL, BRANCH, HI20, LO12_I, LO12_S, PCREL_HI20, PCREL_LO12_I,
        PCREL_LO12_S}
      modifies this
      ensures |bytes| == |old(bytes)| && (ok <==> Value(rs, base, r).Some?)
      ensures ok ==>
        bytes == Patch(old(bytes), off + r.at, Patched(r.kind, Site(old(bytes), off, r), Value(rs, base, r).value))
      ensures !ok ==> bytes == old(bytes)
    {
      hide HalfBytes, InsnBytes, Bytes32, PatchInsn, Insn, HiSymbol;
      var p := off + r.at;
      var here := bytes[p..p + 4];
      var v := r.S + r.A;
      if r.kind == PCREL_LO12_I || r.kind == PCREL_LO12_S {
        var t := FindHi(rs, base, r.S);
        if t.None? { return false; }
        v := t.value + r.A - r.S;
      } else if r.kind == JAL || r.kind == BRANCH || r.kind == PCREL_HI20 {
        v := v - (base + r.at);
      }
      InsnValid(here, 0);
      Write(p, InsnBytes(PatchInsn(r.kind, Insn(here, 0), v)));
      ok := true;
    }

    /** Applies the relocations of a section in order. */
    method ApplyAll(rs: seq<Reloc>, base: int, off: nat) returns (ok: bool)
      requires Apart(rs) && forall i :: 0 <= i < |rs| ==> Inside(bytes, off, rs[i])
      modifies this
      ensures |bytes| == |old(bytes)|
      ensures ok <==> forall i :: 0 <= i < |rs| ==> Value(rs, base, rs[i]).Some?
      ensures ok ==> forall i :: 0 <= i < |rs| ==> Applied(rs, base, off, old(bytes), bytes, rs[i])
      ensures forall p :: 0 <= p < |bytes| && !Covered(rs, off, p) ==> bytes[p] == old(bytes)[p]
    {
      hide Patched, Value;
      var k := 0;
      while k < |rs|
        invariant 0 <= k <= |rs| && |bytes| == |old(bytes)|
        invariant forall i :: 0 <= i < k ==> Applied(rs, base, off, old(bytes), bytes, rs[i])
        invariant forall i :: k <= i < |rs| ==> Site(bytes, off, rs[i]) == Site(old(bytes), off, rs[i])
        invariant forall p :: 0 <= p < |bytes| && !Covered(rs, off, p) ==> bytes[p] == old(bytes)[p]
      {
        ghost var was := bytes;
        ok := Apply(rs, base, off, rs[k]);
        if !ok { return; }
        forall i | 0 <= i < |rs| && i != k ensures Site(bytes, off, rs[i]) == Site(was, off, rs[i]) {
          SiteKept(was, off, rs[k], Patched(rs[k].kind, Site(was, off, rs[k]), Value(rs, base, rs[k]).value), rs[i]);
        }
        k := k + 1;
      }
      ok := true;
    }
  }

  lemma HalvesValid(b: Block, v: int)
    requires |b| == 2
    ensures ValidHalf(PatchCB(HalfAt(b, 0), v)) && ValidHalf(PatchCJ(HalfAt(b, 0), v))
  {
  }

  lemma CallValid(b: Block, d: int)
    requires |b| == 8
    ensures ValidFields(PatchU(Insn(b, 0), Hi(d))) && ValidFields(PatchI(Insn(b, 4), d - Hi(d)))
  {
    InsnValid(b, 0);
    InsnValid(b, 4);
  }

  lemma SiteKept(b: Block, off: nat, r: Reloc, data: Block, s: Reloc)
    requires Inside(b, off, r) && Inside(b, off, s) && |data| == Width(r.kind) && (Clear(r, s) || Clear(s, r))
    ensures Site(Patch(b, off + r.at, data), off, s) == Site(b, off, s)
  {
  }

  // ----- what the machine then sees -----

  predicate OneInsn(k: Kind) { k in {JAL, BRANCH, HI20, LO12_I, LO12_S, PCREL_HI20, PCREL_LO12_I, PCREL_LO12_S} }

  lemma SiteInsn(b: Block, off: nat, r: Reloc, k: nat)
    requires Inside(b, off, r) && k + 4 <= Width(r.kind)
    ensures Insn(Site(b, off, r), k) == Insn(b, off + r.at + k)
  {
  }

  lemma SiteHalf(b: Block, off: nat, r: Reloc)
    requires Inside(b, off, r) && 2 <= Width(r.kind)
    ensures HalfAt(Site(b, off, r), 0) == HalfAt(b, off + r.at)
  {
  }

  lemma InsnAfter(rs: seq<Reloc>, base: int, off: nat, b: Block, b': Block, r: Reloc)
    requires Applied(rs, base, off, b, b', r) && OneInsn(r.kind)
    ensures off + r.at + 4 <= |b| && off + r.at + 4 <= |b'|
    ensures Insn(b', off + r.at) == PatchInsn(r.kind, Insn(b, off + r.at), Value(rs, base, r).value)
  {
    hide InsnBytes, HalfBytes, Insn, HalfAt, PatchInsn, PatchU, PatchI, PatchS, PatchCB, PatchCJ, Hi, ImmU, ImmI, ImmS,
      ImmJ, ImmB, ImmCB, ImmCJ, ValidFields, ValidHalf;
    var here := Site(b, off, r);
    SiteInsn(b, off, r, 0);
    InsnValid(here, 0);
    InsnRead(PatchInsn(r.kind, Insn(here, 0), Value(rs, base, r).value), b', off + r.at);
  }

  lemma CallAfter(rs: seq<Reloc>, base: int, off: nat, b: Block, b': Block, r: Reloc)
    requires Applied(rs, base, off, b, b', r) && r.kind == CALL
    ensures off + r.at + 8 <= |b| && off + r.at + 8 <= |b'|
    ensures var p, d := off + r.at, r.S + r.A - (base + r.at);
            Insn(b', p) == PatchU(Insn(b, p), Hi(d)) && Insn(b', p + 4) == PatchI(Insn(b, p + 4), d - Hi(d))
  {
    hide InsnBytes, HalfBytes, Insn, HalfAt, PatchInsn, PatchU, PatchI, PatchS, PatchCB, PatchCJ, Hi, ImmU, ImmI, ImmS,
      ImmJ, ImmB, ImmCB, ImmCJ, ValidFields, ValidHalf;
    var p, d, here := off + r.at, r.S + r.A - (base + r.at), Site(b, off, r);
    SiteInsn(b, off, r, 0);
    SiteInsn(b, off, r, 4);
    CallValid(here, d);
    CallBytes(b', p, PatchU(Insn(here, 0), Hi(d)), PatchI(Insn(here, 4), d - Hi(d)));
  }

  lemma CallBytes(b: Block, p: nat, f: Fields, g: Fields)
    requires ValidFields(f) && ValidFields(g) && p + 8 <= |b| && b[p..p + 8] == InsnBytes(f) + InsnBytes(g)
    ensures Insn(b, p) == f && Insn(b, p + 4) == g
  {
    assert b[p..p + 4] == b[p..p + 8][..4] && b[p + 4..p + 8] == b[p..p + 8][4..];
    InsnRead(f, b, p);
    InsnRead(g, b, p + 4);
  }

  /** A CALL reaches symbol plus addend exactly when the distance is reachable; its registers and
      opcodes stay. */
  lemma CallReaches(rs: seq<Reloc>, base: int, off: nat, b: Block, b': Block, r: Reloc)
    requires Applied(rs, base, off, b, b', r) && r.kind == CALL
    ensures var p := off + r.at; var f, g := Insn(b', p), Insn(b', p + 4);
            && (base + r.at + ImmU(f) + ImmI(g) == r.S + r.A <==> Reachable(r.S + r.A - (base + r.at)))
            && f.rd == Insn(b, p).rd && f.opcode == Insn(b, p).opcode
            && g == Insn(b, p + 4).(funct7 := g.funct7, rs2 := g.rs2)
  {
    hide InsnBytes, HalfBytes, Insn, HalfAt, PatchInsn, PatchS, PatchCB, PatchCJ, Hi, ImmU, ImmI, ImmS, ImmJ, ImmB,
      ImmCB, ImmCJ, ValidFields, ValidHalf, Applied, Patched, Value;
    CallAfter(rs, base, off, b, b', r);
    CallExact(Insn(b, off + r.at), Insn(b, off + r.at + 4), r.S + r.A - (base + r.at));
  }

  /** Jumps and branches reach symbol plus addend exactly when the distance is even and in range. */
  lemma JumpReaches(rs: seq<Reloc>, base: int, off: nat, b: Block, b': Block, r: Reloc)
    requires Applied(rs, base, off, b, b', r) && (r.kind == JAL || r.kind == BRANCH)
    ensures var f, g, P := Insn(b, off + r.at), Insn(b', off + r.at), base + r.at; var d := r.S + r.A - P;
            && (r.kind == JAL ==> (P + ImmJ(g) == r.S + r.A <==> -0x10_0000 <= d < 0x10_0000 && d % 2 == 0))
            && (r.kind == BRANCH ==> (P + ImmB(g) == r.S + r.A <==> -4096 <= d < 4096 && d % 2 == 0))
            && g.opcode == f.opcode && (r.kind == JAL ==> g.rd == f.rd)
            && (r.kind == BRANCH ==> g.rs1 == f.rs1 && g.rs2 == f.rs2 && g.funct3 == f.funct3)
  {
    hide InsnBytes, HalfBytes, Insn, HalfAt, PatchU, PatchI, PatchS, PatchCB, PatchCJ, Hi, ImmU, ImmI, ImmS, ImmJ, ImmB,
      ImmCB, ImmCJ, ValidFields, ValidHalf, Applied, Patched;
    InsnAfter(rs, base, off, b, b', r);
    var f, d := Insn(b, off + r.at), r.S + r.A - (base + r.at);
    if r.kind == JAL { JExact(f, d); } else { BExact(f, d); }
  }

  /** An absolute pair adds up to the value of its upper half exactly when that is reachable and the
      lower half was computed from a value with the same low twelve bits. */
  lemma AbsolutePair(rs: seq<Reloc>, base: int, off: nat, b: Block, b': Block, h: Reloc, l: Reloc)
    requires Applied(rs, base, off, b, b', h) && Applied(rs, base, off, b, b', l) && h.kind == HI20
      && (l.kind == LO12_I || l.kind == LO12_S)
    ensures var f, g, v := Insn(b', off + h.at), Insn(b', off + l.at), h.S + h.A;
            ImmU(f) + (if l.kind == LO12_I then ImmI(g) else ImmS(g)) == v <==>
                Reachable(v) && (l.S + l.A - v) % 0x1000 == 0
  {
    hide InsnBytes, HalfBytes, Insn, HalfAt, PatchU, PatchI, PatchS, PatchCB, PatchCJ, Hi, ImmU, ImmI, ImmS, ImmJ, ImmB,
      ImmCB, ImmCJ, ValidFields, ValidHalf, Applied, Patched;
    InsnAfter(rs, base, off, b, b', h);
    InsnAfter(rs, base, off, b, b', l);
    PairExact(Insn(b, off + h.at), Insn(b, off + l.at), h.S + h.A, l.S + l.A);
  }

  /** The search for the upper half finds the relocation at that address. */
  lemma {:induction false} HiFound(rs: seq<Reloc>, base: int, k: nat)
    requires Apart(rs) && k < |rs| && rs[k].kind == PCREL_HI20
    ensures HiSymbol(rs, base, base + rs[k].at) == Some(rs[k].S)
  {
    if k > 0 {
      assert Clear(rs[0], rs[k]);
      assert rs[1..][k - 1] == rs[k];
      HiFound(rs[1..], base, k - 1);
    }
  }

  /** A PC-relative pair adds up to symbol plus the addend of its upper half exactly when the
      distance is reachable and the two addends agree in their low twelve bits. */
  lemma PcrelPair(rs: seq<Reloc>, base: int, off: nat, b: Block, b': Block, k: nat, l: Reloc)
    requires Apart(rs) && k < |rs| && rs[k].kind == PCREL_HI20 && Applied(rs, base, off, b, b', rs[k])
      && Applied(rs, base, off, b, b', l)
    requires (l.kind == PCREL_LO12_I || l.kind == PCREL_LO12_S) && l.S == base + rs[k].at
    ensures var f, g, h := Insn(b', off + rs[k].at), Insn(b', off + l.at), rs[k];
            var x := base + h.at + ImmU(f) + if l.kind == PCREL_LO12_I then ImmI(g) else ImmS(g);
            x == h.S + h.A <==> Reachable(h.S + h.A - (base + h.at)) && (l.A - h.A) % 0x1000 == 0
  {
    hide InsnBytes, HalfBytes, Insn, HalfAt, PatchU, PatchI, PatchS, PatchCB, PatchCJ, Hi, ImmU, ImmI, ImmS, ImmJ, ImmB,
      ImmCB, ImmCJ, ValidFields, ValidHalf, Applied, Patched, HiSymbol, Apart;
    var h := rs[k];
    HiFound(rs, base, k);
    InsnAfter(rs, base, off, b, b', h);
    InsnAfter(rs, base, off, b, b', l);
    PairExact(Insn(b, off + h.at), Insn(b, off + l.at), h.S + h.A - (base + h.at), h.S + l.A - l.S);
  }

  /** So an addend on the upper half alone, as compilers emit it for sym + 4, is lost. */
  lemma HiAddendLost(rs: seq<Reloc>, base: int, off: nat, b: Block, b': Block, k: nat, l: Reloc)
    requires Apart(rs) && k < |rs| && rs[k].kind == PCREL_HI20 && Applied(rs, base, off, b, b', rs[k])
      && Applied(rs, base, off, b, b', l)
    requires l.kind == PCREL_LO12_I && l.S == base + rs[k].at && rs[k].A == 4 && l.A == 0
    ensures base + rs[k].at + ImmU(Insn(b', off + rs[k].at)) + ImmI(Insn(b', off + l.at)) != rs[k].S + 4
  {
    hide InsnBytes, HalfBytes, Insn, HalfAt, PatchInsn, PatchU, PatchI, PatchS, PatchCB, PatchCJ, Hi, ImmU, ImmI, ImmS,
      ImmJ, ImmB, ImmCB, ImmCJ, ValidFields, ValidHalf, Applied, Patched, HiSymbol, Apart;
    PcrelPair(rs, base, off, b, b', k, l);
  }

  /** Compressed jumps and branches reach symbol plus addend exactly when the distance is even and
      in range. */
  lemma CompressedReaches(rs: seq<Reloc>, base: int, off: nat, b: Block, b': Block, r: Reloc)
    requires Applied(rs, base, off, b, b', r) && (r.kind == RVC_BRANCH || r.kind == RVC_JUMP)
    ensures var x, y, P := HalfAt(b, off + r.at), HalfAt(b', off + r.at), base + r.at; var d := r.S + r.A - P;
            && (r.kind == RVC_BRANCH ==>
                (P + ImmCB(y) == r.S + r.A <==> -256 <= d < 256 && d % 2 == 0) && y.reg3 == x.reg3)
            && (r.kind == RVC_JUMP ==> (P + ImmCJ(y) == r.S + r.A <==> -2048 <= d < 2048 && d % 2 == 0))
            && y.top == x.top && y.op == x.op
  {
    hide InsnBytes, HalfBytes, Insn, HalfAt, PatchInsn, PatchU, PatchI, PatchS, Hi, ImmU, ImmI, ImmS, ImmJ, ImmB, ImmCB,
      ImmCJ, ValidFields, ValidHalf;
    var d, here := r.S + r.A - (base + r.at), Site(b, off, r);
    SiteHalf(b, off, r);
    HalvesValid(here, d);
    CBExact(HalfAt(here, 0), d);
    CJExact(HalfAt(here, 0), d);
    HalfRead(if r.kind == RVC_BRANCH then PatchCB(HalfAt(here, 0), d) else PatchCJ(HalfAt(here, 0), d), b', off + r.at);
  }
}
