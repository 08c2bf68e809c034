/** The text section as bytes, label and fix-up vectors, and what appending to them means. */
module LccText {
  import opened Rv64
  import opened RvMachine
  import opened MiniC
  import opened LccCode

  // ----- little-endian words -----

  function Wr32(x: int): (b: seq<int>)
    ensures |b| == 4
  {
    [x % 256, x / 256 % 256, x / 0x1_0000 % 256, x / 0x100_0000 % 256]
  }

  function Rd32(t: seq<int>, at: nat): int
    requires at + 4 <= |t|
  {
    t[at] + t[at + 1] * 256 + t[at + 2] * 0x1_0000 + t[at + 3] * 0x100_0000
  }

  predicate IsWord32(x: int) { 0 <= x < 0x1_0000_0000 }

  lemma ReadWritten(x: int)
    requires IsWord32(x)
    ensures Rd32(Wr32(x), 0) == x
  {
    assert x / 256 / 256 == x / 0x1_0000;
    assert x / 0x1_0000 / 256 == x / 0x100_0000;
  }

  function Words(t: seq<int>): (w: seq<int>)
    ensures |w| == |t| / 4
  {
    seq(|t| / 4, k requires 0 <= k < |t| / 4 => Rd32(t, 4 * k))
  }

  lemma WordsAppend(t: seq<int>, x: int)
    requires |t| % 4 == 0 && IsWord32(x)
    ensures Words(t + Wr32(x)) == Words(t) + [x]
  {
    var u := t + Wr32(x);
    ReadWritten(x);
    forall k | 0 <= k < |t| / 4 ensures Rd32(u, 4 * k) == Rd32(t, 4 * k) {
    }
    assert Rd32(u, |t|) == Rd32(Wr32(x), 0);
  }

  function Overwrite(t: seq<int>, at: nat, x: int): seq<int>
    requires at + 4 <= |t|
  {
    t[..at] + Wr32(x) + t[at + 4..]
  }

  lemma WordsOverwrite(t: seq<int>, at: nat, x: int)
    requires |t| % 4 == 0 && at % 4 == 0 && at + 4 <= |t| && IsWord32(x)
    ensures |Overwrite(t, at, x)| == |t|
    ensures Words(Overwrite(t, at, x)) == Words(t)[at / 4 := x]
  {
    var u := Overwrite(t, at, x);
    ReadWritten(x);
    forall k | 0 <= k < |t| / 4
      ensures Rd32(u, 4 * k) == (if k == at / 4 then x else Rd32(t, 4 * k))
    {
      if k == at / 4 {
        assert u[at] == Wr32(x)[0] && u[at + 1] == Wr32(x)[1] && u[at + 2] == Wr32(x)[2] && u[at + 3] == Wr32(x)[3];
      } else if k < at / 4 {
        assert 4 * k + 4 <= at;
      } else {
        assert 4 * k >= at + 4;
      }
    }
  }

  lemma EncodeIsWord(i: Instr)
    ensures IsWord32(Encode(i))
  {
  }

  // ----- fix-ups -----

  datatype Fix = Fix(off: int, lab: int, kind: int)

  function Template(it: Item): int {
    match it
    case Ins(i) => Encode(i)
    case Jump(_) => RvJ(0, 0)
    case Beqz(_) => RvB(0, 0, 10, 0)
    case Bnez(_) => RvB(0, 0, 10, 1)
  }

  function Templates(items: seq<Item>): (w: seq<int>)
    ensures |w| == |items|
  {
    seq(|items|, k requires 0 <= k < |items| => Template(items[k]))
  }

  function FixOf(it: Item, q: int): Fix
    requires !it.Ins?
  {
    Fix(4 * q, it.lab, if it.Jump? then 1 else if it.Beqz? then 2 else 3)
  }

  function FixesOf(items: seq<Item>, p: int): seq<Fix> {
    if items == [] then []
    else (if items[0].Ins? then [] else [FixOf(items[0], p)]) + FixesOf(items[1..], p + 1)
  }

  lemma {:induction false} FixesOfConcat(xs: seq<Item>, ys: seq<Item>, p: int)
    ensures FixesOf(xs + ys, p) == FixesOf(xs, p) + FixesOf(ys, p + |xs|)
    decreases |xs|
  {
    if xs == [] {
      assert xs + ys == ys;
    } else {
      assert (xs + ys)[1..] == xs[1..] + ys;
      FixesOfConcat(xs[1..], ys, p + 1);
    }
  }

  // ----- the generator's output and appending to it -----

  datatype Out = Out(words: seq<int>, labels: seq<LabelDef>, fixes: seq<Fix>, next: int)

  function Append(o: Out, items: seq<Item>, defs: seq<LabelDef>, count: int): Out {
    Out(o.words + Templates(items), o.labels + defs, o.fixes + FixesOf(items, |o.words|), o.next + count)
  }

  lemma AppendAppend(o: Out, xs: seq<Item>, dx: seq<LabelDef>, cx: int, ys: seq<Item>, dy: seq<LabelDef>, cy: int)
    ensures Append(Append(o, xs, dx, cx), ys, dy, cy) == Append(o, xs + ys, dx + dy, cx + cy)
  {
    FixesOfConcat(xs, ys, |o.words|);
    assert o.words + Templates(xs) + Templates(ys) == o.words + Templates(xs + ys);
    assert o.labels + dx + dy == o.labels + (dx + dy);
    var p := |o.words|;
    assert o.fixes + FixesOf(xs, p) + FixesOf(ys, p + |xs|) == o.fixes + (FixesOf(xs, p) + FixesOf(ys, p + |xs|));
  }

  lemma AppendNothing(o: Out)
    ensures Append(o, [], [], 0) == o
  {
  }
}
