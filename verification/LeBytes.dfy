/** Little-endian fields in byte blocks. */
module LeBytes {

  type Byte = x: int | 0 <= x < 256

  type Block = seq<Byte>

  const TWO32: int := 0x1_0000_0000

  function Le16(b: Block, at: nat): (v: nat)
    requires at + 2 <= |b|
    ensures v < 0x1_0000
  {
    b[at] as int + (b[at + 1] as int) * 256
  }

  function Le32(b: Block, at: nat): (v: nat)
    requires at + 4 <= |b|
    ensures v < TWO32
  {
    b[at] as int + (b[at + 1] as int) * 256 + (b[at + 2] as int) * 0x1_0000 + (b[at + 3] as int) * 0x100_0000
  }

  function Bytes16(v: nat): (b: Block)
    requires v < 0x1_0000
    ensures |b| == 2
  {
    [v % 256, v / 256]
  }

  function Bytes32(v: nat): (b: Block)
    requires v < TWO32
    ensures |b| == 4
  {
    [v % 256, v / 256 % 256, v / 0x1_0000 % 256, v / 0x100_0000]
  }

  /** data written over b from offset at on. */
  function Patch(b: Block, at: nat, data: Block): (r: Block)
    requires at + |data| <= |b|
    ensures |r| == |b|
    ensures forall k :: 0 <= k < |b| ==> r[k] == if at <= k < at + |data| then data[k - at] else b[k]
  {
    b[..at] + data + b[at + |data|..]
  }

  lemma Read16(b: Block, at: nat, v: nat)
    requires at + 2 <= |b| && v < 0x1_0000
    ensures Le16(Patch(b, at, Bytes16(v)), at) == v
  {
  }

  lemma Read32(b: Block, at: nat, v: nat)
    requires at + 4 <= |b| && v < TWO32
    ensures Le32(Patch(b, at, Bytes32(v)), at) == v
  {
    Digits32(v);
    hide Bytes32;
    var r := Patch(b, at, Bytes32(v));
    assert r[at] == Bytes32(v)[0] && r[at + 1] == Bytes32(v)[1] && r[at + 2] == Bytes32(v)[2]
        && r[at + 3] == Bytes32(v)[3];
  }

  lemma Digits32(v: nat)
    requires v < TWO32
    ensures var b := Bytes32(v);
      b[0] as int + (b[1] as int) * 256 + (b[2] as int) * 0x1_0000 + (b[3] as int) * 0x100_0000 == v
  {
    assert v / 256 / 256 == v / 0x1_0000;
    assert v / 0x1_0000 / 256 == v / 0x100_0000;
  }

  /** Fields outside a patch keep their value. */
  lemma Keep32(b: Block, at: nat, data: Block, other: nat)
    requires at + |data| <= |b| && other + 4 <= |b| && (other + 4 <= at || at + |data| <= other)
    ensures Le32(Patch(b, at, data), other) == Le32(b, other)
  {
  }

  lemma Keep16(b: Block, at: nat, data: Block, other: nat)
    requires at + |data| <= |b| && other + 2 <= |b| && (other + 2 <= at || at + |data| <= other)
    ensures Le16(Patch(b, at, data), other) == Le16(b, other)
  {
  }
}
