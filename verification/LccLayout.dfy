/** The linker's layout of sections in memory. The sections of all objects are taken as one
    sequence, in the order in which the passes visit them. */
module LccLayout {

  import opened LeBytes
  import opened Rv64
  import opened RvMachine

  const TEXT_BASE: nat := 0x1000

  datatype Role = Dropped | Text | Data | Bss

  /** An alignment field is a power of two, or zero for no demand. */
  datatype Align = Unset | Power(log: nat)

  /** A section to load; a Bss section has a size but no bytes. */
  datatype Section = Section(role: Role, align: Align, size: nat, bytes: Block)

  predicate WellFormed(s: Section) { s.role == Text || s.role == Data ==> |s.bytes| == s.size }

  // ----- rounding up -----

  /** x with its low k bits cleared. */
  function ClearLow(x: nat, k: nat): nat {
    if k == 0 then x else 2 * ClearLow(x / 2, k - 1)
  }

  lemma {:induction false} ClearLowIs(x: nat, k: nat)
    ensures ClearLow(x, k) == x / Pow2(k) * Pow2(k)
  {
    if k > 0 {
      var p := Pow2(k - 1);
      assert Pow2(k) == 2 * p;
      ClearLowIs(x / 2, k - 1);
      assert x / 2 / p == x / (2 * p) by { DivDiv(x, p); }
    }
  }

  lemma DivDiv(x: nat, p: nat)
    requires p > 0
    ensures x / 2 / p == x / (2 * p)
  {
    var q := x / (2 * p);
    var r := x - q * (2 * p);
    assert x / 2 == q * p + r / 2;
    Radix(r / 2, p, q, x / 2);
  }

  predicate Aligned(x: nat, k: nat) { x % Pow2(k) == 0 }

  function AlignUp(x: nat, k: nat): nat { ClearLow(x + Pow2(k) - 1, k) }

  lemma AlignUpIs(x: nat, k: nat)
    ensures x <= AlignUp(x, k) < x + Pow2(k) && Aligned(AlignUp(x, k), k)
  {
    ClearLowIs(x + Pow2(k) - 1, k);
    hide ClearLow, Pow2;
    RoundsUp(x, Pow2(k));
  }

  lemma RoundsUp(x: nat, p: nat)
    requires p > 0
    ensures var r := (x + p - 1) / p * p; x <= r < x + p && r % p == 0
  {
    var y := x + p - 1;
    var q := y / p;
    assert y == p * q + y % p;
    Radix(0, p, q, q * p);
  }

  // ----- the passes -----

  /** The alignment that section s gets, as a logarithm. */
  function Log(s: Section): nat {
    match s.align
    case Power(k) => k
    case Unset => if s.role == Text then 2 else 0
  }

  /** The first n sections with the given role lie in order between lo and hi, aligned. */
  ghost predicate Placed(secs: seq<Section>, addr: seq<nat>, role: Role, lo: nat, hi: nat, n: nat) {
    && n <= |secs| == |addr| && lo <= hi
    && (forall i :: 0 <= i < n && secs[i].role == role ==>
        lo <= addr[i] && addr[i] + secs[i].size <= hi && Aligned(addr[i], Log(secs[i])))
    && (forall i, j :: 0 <= i < j < n && secs[i].role == role && secs[j].role == role ==>
        addr[i] + secs[i].size <= addr[j])
  }

  /** Only sections with the given role have got other addresses. */
  predicate Moves(secs: seq<Section>, addr: seq<nat>, addr': seq<nat>, role: Role) {
    |addr'| == |addr| == |secs| && forall i :: 0 <= i < |secs| && secs[i].role != role ==> addr'[i] == addr[i]
  }

  /** One pass: gives the sections of a role their addresses from start on. */
  method Pass(secs: seq<Section>, addr: seq<nat>, role: Role, start: nat) returns (addr': seq<nat>, end: nat)
    requires |addr| == |secs|
    ensures Placed(secs, addr', role, start, end, |secs|) && Moves(secs, addr, addr', role)
  {
    hide Log, AlignUp, Aligned, Pow2, Placed, Moves;
    addr', end := addr, start;
    PlacedNone(secs, addr, role, start);
    var j := 0;
    while j < |secs|
      invariant 0 <= j <= |secs| && Placed(secs, addr', role, start, end, j) && Moves(secs, addr, addr', role)
    {
      if secs[j].role == role {
        AlignUpIs(end, Log(secs[j]));
        PlacedMore(secs, addr, addr', role, start, end, j, AlignUp(end, Log(secs[j])));
        end := AlignUp(end, Log(secs[j]));
        addr' := addr'[j := end];
        end := end + secs[j].size;
      } else {
        PlacedSkip(secs, addr', role, start, end, j);
      }
      j := j + 1;
    }
  }

  lemma PlacedNone(secs: seq<Section>, addr: seq<nat>, role: Role, start: nat)
    requires |addr| == |secs|
    ensures Placed(secs, addr, role, start, start, 0) && Moves(secs, addr, addr, role)
  {
  }

  lemma PlacedSkip(secs: seq<Section>, addr: seq<nat>, role: Role, lo: nat, hi: nat, j: nat)
    requires Placed(secs, addr, role, lo, hi, j) && j < |secs| && secs[j].role != role
    ensures Placed(secs, addr, role, lo, hi, j + 1)
  {
  }

  lemma PlacedMore(secs: seq<Section>, addr0: seq<nat>, addr: seq<nat>, role: Role, lo: nat, hi: nat, j: nat, at: nat)
    requires Placed(secs, addr, role, lo, hi, j) && Moves(secs, addr0, addr, role) && j < |secs| && secs[j].role == role
    requires hi <= at && Aligned(at, Log(secs[j]))
    ensures |addr| == |secs| && Placed(secs, addr[j := at], role, lo, at + secs[j].size, j + 1)
      && Moves(secs, addr0, addr[j := at], role)
  {
    hide Aligned, Log;
  }

  /** Two sections share no address. */
  predicate Disjoint(secs: seq<Section>, addr: seq<nat>, i: nat, j: nat)
    requires i < |secs| == |addr| && j < |secs|
  {
    addr[i] + secs[i].size <= addr[j] || addr[j] + secs[j].size <= addr[i]
  }

  /** All three passes: text from TEXT_BASE on, data from the next page on, then bss. */
  method Layout(secs: seq<Section>) returns (addr: seq<nat>, textEnd: nat, dataBase: nat, dataEnd: nat, bssEnd: nat)
    ensures |addr| == |secs| && textEnd <= dataBase < textEnd + 0x1000 && Aligned(dataBase, 12)
    ensures Placed(secs, addr, Text, TEXT_BASE, textEnd, |secs|)
    ensures Placed(secs, addr, Data, dataBase, dataEnd, |secs|)
    ensures Placed(secs, addr, Bss, dataEnd, bssEnd, |secs|)
    ensures forall i, j ::
      0 <= i < |secs| && 0 <= j < |secs| && i != j && secs[i].role != Dropped && secs[j].role != Dropped ==>
      Disjoint(secs, addr, i, j)
  {
    hide Log, AlignUp, Pow2;
    addr := seq(|secs|, _ => 0);
    addr, textEnd := Pass(secs, addr, Text, TEXT_BASE);
    ghost var a1 := addr;
    assert Pow2(12) == 0x1000 by { PageLog(); }
    AlignUpIs(textEnd, 12);
    dataBase := AlignUp(textEnd, 12);
    addr, dataEnd := Pass(secs, addr, Data, dataBase);
    ghost var a2 := addr;
    PlacedKept(secs, a1, a2, Data, Text, TEXT_BASE, textEnd);
    addr, bssEnd := Pass(secs, addr, Bss, dataEnd);
    PlacedKept(secs, a2, addr, Bss, Text, TEXT_BASE, textEnd);
    PlacedKept(secs, a2, addr, Bss, Data, dataBase, dataEnd);
    forall i: nat, j: nat | i < |secs| && j < |secs| && i != j && secs[i].role != Dropped && secs[j].role != Dropped
      ensures Disjoint(secs, addr, i, j)
    {
      AllDisjoint(secs, addr, textEnd, dataBase, dataEnd, bssEnd, i, j);
    }
  }

  lemma PageLog()
    ensures Pow2(12) == 0x1000
  {
    assert Pow2(6) == 64;
    Pow2Add(6, 6);
  }

  lemma PlacedKept(secs: seq<Section>, addr: seq<nat>, addr': seq<nat>, moved: Role, role: Role, lo: nat, hi: nat)
    requires Placed(secs, addr, role, lo, hi, |secs|) && Moves(secs, addr, addr', moved) && moved != role
    ensures Placed(secs, addr', role, lo, hi, |secs|)
  {
  }

  lemma AllDisjoint(secs: seq<Section>, addr: seq<nat>, textEnd: nat, dataBase: nat, dataEnd: nat, bssEnd: nat, i: nat,
      j: nat)
    requires Placed(secs, addr, Text, TEXT_BASE, textEnd, |secs|) && Placed(secs, addr, Data, dataBase, dataEnd, |secs|)
    requires Placed(secs, addr, Bss, dataEnd, bssEnd, |secs|) && textEnd <= dataBase
    requires i < |secs| && j < |secs| && i != j && secs[i].role != Dropped && secs[j].role != Dropped
    ensures Disjoint(secs, addr, i, j)
  {
  }

  /** The image of the sections with one role: each section's bytes at its place, zeros between. */
  method Fill(secs: seq<Section>, addr: seq<nat>, role: Role, base: nat, end: nat) returns (b: Block)
    requires Placed(secs, addr, role, base, end, |secs|) && (role == Text || role == Data)
      && forall i :: 0 <= i < |secs| ==> WellFormed(secs[i])
    ensures |b| == end - base
    ensures forall i :: 0 <= i < |secs| && secs[i].role == role ==>
      b[addr[i] - base..addr[i] - base + secs[i].size] == secs[i].bytes
    ensures forall p ::
      && 0 <= p < |b|
      && (forall i :: 0 <= i < |secs| && secs[i].role == role ==> !(addr[i] <= base + p < addr[i] + secs[i].size)) ==>
      b[p] == 0
  {
    hide Log, Pow2;
    b := seq(end - base, _ => 0);
    var j := 0;
    while j < |secs|
      invariant 0 <= j <= |secs| && |b| == end - base
      invariant forall i :: 0 <= i < j && secs[i].role == role ==>
        b[addr[i] - base..addr[i] - base + secs[i].size] == secs[i].bytes
      invariant forall p ::
        && 0 <= p < |b|
        && (forall i :: 0 <= i < |secs| && secs[i].role == role ==> !(addr[i] <= base + p < addr[i] + secs[i].size)) ==>
        b[p] == 0
    {
      if secs[j].role == role {
        ghost var was := b;
        b := Patch(b, addr[j] - base, secs[j].bytes);
        forall i | 0 <= i < j && secs[i].role == role
          ensures b[addr[i] - base..addr[i] - base + secs[i].size] == was[addr[i] - base..addr[i] - base + secs[i].size]
        {
          assert addr[i] + secs[i].size <= addr[j];
        }
      }
      j := j + 1;
    }
  }
}
