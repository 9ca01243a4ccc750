/** The page tables of every task as one radix tree over physical memory.

    The array of task PML4 pointers plays the part of a level 5 table (`TOP`), so that one
    definition covers the walk from a task slot to a page table entry.  Nothing here is ghost
    bookkeeping: counts and walks are read off the words in memory. */
module PageTree {
  import opened Mmu

  /** Stands for the array of task PML4 pointers. No entry can name it, since frames are naturals. */
  const TOP: int := -1

  /** Not a frame either: an entry above the page tables whose flags are not P, W and U, so that it may
      keep user code out, is counted as if it named SHUT as well. Where only frames may be named, no
      entry is shut. */
  const SHUT: int := -2

  /** `phys`: one sequence of 512 words for each physical page; `roots`: the PML4 frame of each
      task slot, or a negative number for NULL; `width`: how many slots of a PML4 are private. */
  datatype Mem = Mem(phys: seq<seq<Word>>, roots: seq<int>, width: nat)

  /** A virtual page of the task in slot `t`. */
  datatype Path = Path(t: nat, v: Vpage)

  function Idx(q: Path, lvl: nat): nat { if lvl >= 5 then q.t else IndexAt(q.v, lvl) }

  function Width(m: Mem, lvl: nat): nat {
    if lvl >= 5 then |m.roots| else if lvl == 4 then m.width else TABLE_SIZE
  }

  predicate InTree(m: Mem, q: Path) {
    q.t < |m.roots| && q.v.i4 < m.width
  }

  /** Entry `x` of table `T`; everything outside memory reads as an absent entry. */
  function At(m: Mem, T: int, x: nat): Word {
    if T == TOP then
      if x < |m.roots| && m.roots[x] >= 0 then ZERO.(ppn := m.roots[x], p := true) else ZERO
    else if 0 <= T < |m.phys| && x < |m.phys[T]| then m.phys[T][x]
    else ZERO
  }

  /** The references to frame `p` made by entries `lo..` of table `R` of level `lvl` and by all
      tables below them: with `leaf` the references from page table entries (level 1), otherwise
      those from the levels above, which make `p` itself a table. */
  function Cnt(m: Mem, lvl: nat, R: int, lo: nat, p: int, leaf: bool): nat
    decreases lvl, Width(m, lvl) - lo + 1
  {
    if lvl == 0 || lo >= Width(m, lvl) then 0
    else Ent(m, lvl, At(m, R, lo), p, leaf) + Cnt(m, lvl, R, lo + 1, p, leaf)
  }

  /** The references to `p` made by one entry and by everything below it. */
  function Ent(m: Mem, lvl: nat, e: Word, p: int, leaf: bool): nat
    requires lvl >= 1
    decreases lvl, 0
  {
    if !e.p then 0 else Hit(lvl, e, p, leaf) + Cnt(m, lvl - 1, e.ppn, 0, p, leaf)
  }

  function Hit(lvl: nat, e: Word, p: int, leaf: bool): nat {
    if e.p && (e.ppn == p || (p == SHUT && Shut(lvl, e))) && (leaf <==> lvl == 1) then 1 else 0
  }

  predicate Shut(lvl: nat, e: Word) { 2 <= lvl <= 4 && !Plain(e) }

  /** W and U and no other flag. */
  predicate Plain(e: Word) { e.w && e.u && !e.cow && e.rest == 0 }

  /** The table of level `l` met on the way along `q`, if the entries leading to it are present. */
  function Node(m: Mem, lvl: nat, R: int, q: Path, l: nat): Option<int>
  {
    if lvl <= l then Some(R)
    else
      var e := At(m, R, Idx(q, lvl));
      if e.p then Node(m, lvl - 1, e.ppn, q, l) else None
  }

  /** The page table entry for `q`, absent when a table on the way is. */
  function Leaf(m: Mem, lvl: nat, R: int, q: Path): Word
    decreases lvl, 1
  {
    if lvl == 0 then ZERO else Below(m, lvl, At(m, R, Idx(q, lvl)), q)
  }

  function Below(m: Mem, lvl: nat, e: Word, q: Path): Word
    requires lvl >= 1
    decreases lvl, 0
  {
    if lvl == 1 then e else if e.p then Leaf(m, lvl - 1, e.ppn, q) else ZERO
  }

  // The whole forest, and the part of it below one task slot.

  function Tables(m: Mem, p: int): nat { Cnt(m, 5, TOP, 0, p, false) }

  function Maps(m: Mem, p: int): nat { Cnt(m, 5, TOP, 0, p, true) }

  function Slot(m: Mem, t: nat, p: int, leaf: bool): nat { Ent(m, 5, At(m, TOP, t), p, leaf) }

  function Pte(m: Mem, q: Path): Word { Leaf(m, 5, TOP, q) }

  // ------------------------------------------------------------------------
  // Memory outside a subtree does not matter to it

  ghost predicate SameShape(m: Mem, m': Mem) {
    |m.roots| == |m'.roots| && m.width == m'.width
  }

  /** Both memories hold the same words in entries `lo..` of `R` and in every table below them. */
  ghost predicate SameTables(m: Mem, m': Mem, lvl: nat, R: int, lo: nat) {
    forall D: int, x: nat ::
      (D == R && lo <= x) || Cnt(m, lvl, R, lo, D, false) > 0 ==> At(m', D, x) == At(m, D, x)
  }

  lemma SameBelow(m: Mem, m': Mem, lvl: nat, R: int, lo: nat, x: nat)
    requires SameTables(m, m', lvl, R, lo) && lvl > 1 && lo <= x < Width(m, lvl) && At(m, R, x).p
    ensures SameTables(m, m', lvl - 1, At(m, R, x).ppn, 0)
  {
    var e, k := At(m, R, x), lvl - 1;
    forall D: int, y: nat | D == e.ppn || Cnt(m, k, e.ppn, 0, D, false) > 0 ensures At(m', D, y) == At(m, D, y) {
      EntInCnt(m, lvl, R, lo, x, D, false);
      assert Cnt(m, lvl, R, lo, D, false) > 0;
    }
  }

  lemma SameRest(m: Mem, m': Mem, lvl: nat, R: int, lo: nat)
    requires SameTables(m, m', lvl, R, lo) && lvl > 0 && lo < Width(m, lvl)
    ensures SameTables(m, m', lvl, R, lo + 1)
  {
    var next := lo + 1;
    forall D: int, y: nat | (D == R && next <= y) || Cnt(m, lvl, R, next, D, false) > 0
      ensures At(m', D, y) == At(m, D, y)
    {
      assert Cnt(m, lvl, R, lo, D, false) >= Cnt(m, lvl, R, next, D, false);
    }
  }

  lemma {:induction false} FrameCnt(m: Mem, m': Mem, lvl: nat, R: int, lo: nat, p: int, leaf: bool)
    requires SameShape(m, m') && SameTables(m, m', lvl, R, lo)
    ensures Cnt(m', lvl, R, lo, p, leaf) == Cnt(m, lvl, R, lo, p, leaf)
    decreases lvl, Width(m, lvl) - lo + 1
  {
    if lvl > 0 && lo < Width(m, lvl) {
      SameRest(m, m', lvl, R, lo);
      FrameCnt(m, m', lvl, R, lo + 1, p, leaf);
      var e := At(m, R, lo);
      assert At(m', R, lo) == e;
      if e.p && lvl > 1 {
        SameBelow(m, m', lvl, R, lo, lo);
        FrameCnt(m, m', lvl - 1, e.ppn, 0, p, leaf);
      }
      assert Ent(m', lvl, e, p, leaf) == Ent(m, lvl, e, p, leaf);
    }
  }

  lemma {:induction false} FrameLeaf(m: Mem, m': Mem, lvl: nat, R: int, q: Path)
    requires SameShape(m, m') && SameTables(m, m', lvl, R, 0) && InTree(m, q) && lvl <= 5
    ensures Leaf(m', lvl, R, q) == Leaf(m, lvl, R, q)
  {
    if lvl > 0 {
      var x := Idx(q, lvl);
      var e := At(m, R, x);
      assert At(m', R, x) == e;
      if e.p && lvl > 1 {
        SameBelow(m, m', lvl, R, 0, x);
        FrameLeaf(m, m', lvl - 1, e.ppn, q);
      }
    }
  }

  /** One entry, or two different ones, make up part of the count of their table. */
  lemma {:induction false} EntInCnt(m: Mem, lvl: nat, R: int, lo: nat, x: nat, p: int, leaf: bool)
    requires lvl > 0 && lo <= x < Width(m, lvl)
    ensures Ent(m, lvl, At(m, R, x), p, leaf) <= Cnt(m, lvl, R, lo, p, leaf)
    ensures x > lo ==>
              Ent(m, lvl, At(m, R, x), p, leaf) + Ent(m, lvl, At(m, R, lo), p, leaf) <= Cnt(m, lvl, R, lo, p, leaf)
    decreases x - lo
  {
    if lo < x {
      EntInCnt(m, lvl, R, lo + 1, x, p, leaf);
    }
  }

  lemma {:induction false} TwoEntsInCnt(m: Mem, lvl: nat, R: int, x: nat, y: nat, p: int, leaf: bool, lo: nat := 0)
    requires lvl > 0 && lo <= x < y < Width(m, lvl)
    ensures Ent(m, lvl, At(m, R, x), p, leaf) + Ent(m, lvl, At(m, R, y), p, leaf) <= Cnt(m, lvl, R, lo, p, leaf)
    decreases x - lo
  {
    if lo < x {
      TwoEntsInCnt(m, lvl, R, x, y, p, leaf, lo + 1);
    } else {
      EntInCnt(m, lvl, R, lo, y, p, leaf);
    }
  }

  // ------------------------------------------------------------------------
  // Writing one entry of a tree

  /** No table occurs twice below `R`, and `R` does not occur below itself. */
  ghost predicate Once(m: Mem, lvl: nat, R: int, lo: nat) {
    && Cnt(m, lvl, R, lo, R, false) == 0
    && forall p: int :: Cnt(m, lvl, R, lo, p, false) <= 1
  }

  /** `m'` is `m` after the word `x` of table `N` has been set to `e`. */
  ghost predicate Wrote(m: Mem, m': Mem, N: int, x: nat, e: Word) {
    && SameShape(m, m')
    && At(m', N, x) == e
    && forall D: int, y: nat :: D != N || y != x ==> At(m', D, y) == At(m, D, y)
  }

  lemma {:induction false} NodeCounted(m: Mem, lvl: nat, R: int, q: Path, l: nat)
    requires 1 <= l < lvl <= 5 && InTree(m, q) && Node(m, lvl, R, q, l).Some?
    ensures Ent(m, lvl, At(m, R, Idx(q, lvl)), Node(m, lvl, R, q, l).value, false) >= 1
    ensures Node(m, lvl, R, q, l).value >= 0
  {
    var e := At(m, R, Idx(q, lvl));
    if lvl - 1 > l {
      NodeCounted(m, lvl - 1, e.ppn, q, l);
      EntInCnt(m, lvl - 1, e.ppn, 0, Idx(q, lvl - 1), Node(m, lvl, R, q, l).value, false);
    }
  }

  lemma {:induction false} OnceBelow(m: Mem, lvl: nat, R: int, lo: nat, x: nat)
    requires lvl > 1 && lo <= x < Width(m, lvl) && Once(m, lvl, R, lo) && At(m, R, x).p
    ensures Once(m, lvl - 1, At(m, R, x).ppn, 0)
  {
    var e, k := At(m, R, x), lvl - 1;
    forall p: int ensures Cnt(m, k, e.ppn, 0, p, false) + (if p == e.ppn then 1 else 0) <= 1 {
      EntInCnt(m, lvl, R, lo, x, p, false);
    }
  }

  lemma OnceRest(m: Mem, lvl: nat, R: int, lo: nat)
    requires Once(m, lvl, R, lo)
    ensures Once(m, lvl, R, lo + 1)
  {
    var next := lo + 1;
    forall p: int ensures Cnt(m, lvl, R, next, p, false) <= Cnt(m, lvl, R, lo, p, false) {}
  }

  lemma FrameWrote(m: Mem, m': Mem, lvl: nat, R: int, lo: nat, N: int, x: nat, w: Word, p: int, leaf: bool)
    requires Wrote(m, m', N, x, w) && Cnt(m, lvl, R, lo, N, false) == 0 && (R == N ==> x < lo)
    ensures Cnt(m', lvl, R, lo, p, leaf) == Cnt(m, lvl, R, lo, p, leaf)
  {
    FrameCnt(m, m', lvl, R, lo, p, leaf);
  }

  lemma FrameEnt(m: Mem, m': Mem, lvl: nat, e: Word, N: int, x: nat, w: Word, p: int, leaf: bool)
    requires lvl >= 1 && Wrote(m, m', N, x, w) && Ent(m, lvl, e, N, false) == 0
    ensures Ent(m', lvl, e, p, leaf) == Ent(m, lvl, e, p, leaf)
  {
    if e.p && lvl > 1 {
      FrameWrote(m, m', lvl - 1, e.ppn, 0, N, x, w, p, leaf);
    }
  }

  /** A table below entry `x` occurs nowhere else below its parent. */
  lemma OnlyBelow(m: Mem, lvl: nat, R: int, lo: nat, q: Path, l: nat, N: int)
    requires 1 <= l <= lvl <= 5 && InTree(m, q) && lo <= Idx(q, lvl)
    requires Once(m, lvl, R, lo) && Node(m, lvl, R, q, l) == Some(N)
    ensures l < lvl ==> N != R
    ensures lo < Idx(q, lvl) ==> Ent(m, lvl, At(m, R, lo), N, false) == 0
    ensures lo == Idx(q, lvl) ==> Cnt(m, lvl, R, lo + 1, N, false) == 0
  {
    if l < lvl {
      NodeCounted(m, lvl, R, q, l);
      EntInCnt(m, lvl, R, lo, Idx(q, lvl), N, false);
    }
  }

  lemma CntStep(m: Mem, lvl: nat, R: int, lo: nat, p: int, leaf: bool)
    requires lvl > 0 && lo < Width(m, lvl)
    ensures Cnt(m, lvl, R, lo, p, leaf) == Ent(m, lvl, At(m, R, lo), p, leaf) + Cnt(m, lvl, R, lo + 1, p, leaf)
  {
  }

  lemma EntStep(m: Mem, lvl: nat, e: Word, p: int, leaf: bool)
    requires lvl >= 1 && e.p
    ensures Ent(m, lvl, e, p, leaf) == Hit(lvl, e, p, leaf) + Cnt(m, lvl - 1, e.ppn, 0, p, leaf)
  {
  }

  /** Replacing the entry of level `l` on the way along `q` changes every count by exactly the
      difference between the new and the old entry. */
  lemma {:induction false} UpdateCnt(m: Mem, m': Mem, lvl: nat, R: int, lo: nat, q: Path, l: nat, N: int, e: Word,
          p: int, leaf: bool)
    requires 1 <= l <= lvl <= 5 && InTree(m, q) && lo <= Idx(q, lvl)
    requires Once(m, lvl, R, lo) && Node(m, lvl, R, q, l) == Some(N) && Wrote(m, m', N, Idx(q, l), e)
    ensures Cnt(m', lvl, R, lo, p, leaf) + Ent(m, l, At(m, N, Idx(q, l)), p, leaf)
         == Cnt(m, lvl, R, lo, p, leaf) + Ent(m', l, e, p, leaf)
    decreases lvl, Idx(q, lvl) - lo
  {
    hide Once, Cnt, Ent;
    OnlyBelow(m, lvl, R, lo, q, l, N);
    var first := At(m, R, lo);
    CntStep(m, lvl, R, lo, p, leaf);
    CntStep(m', lvl, R, lo, p, leaf);
    if lo < Idx(q, lvl) {
      FrameEnt(m, m', lvl, first, N, Idx(q, l), e, p, leaf);
      OnceRest(m, lvl, R, lo);
      UpdateCnt(m, m', lvl, R, lo + 1, q, l, N, e, p, leaf);
    } else {
      FrameWrote(m, m', lvl, R, lo + 1, N, Idx(q, l), e, p, leaf);
      if l < lvl {
        OnceBelow(m, lvl, R, lo, lo);
        UpdateCnt(m, m', lvl - 1, first.ppn, 0, q, l, N, e, p, leaf);
        EntStep(m, lvl, first, p, leaf);
        EntStep(m', lvl, first, p, leaf);
      }
    }
  }

  /** Both paths take the same entries from level `lvl` down to level `l`. */
  predicate Meet(q: Path, r: Path, lvl: nat, l: nat) {
    lvl < l || (Idx(q, lvl) == Idx(r, lvl) && (lvl == 0 || Meet(q, r, lvl - 1, l)))
  }

  /** Replacing the entry of level `l` along `q` is seen exactly by the paths through it. */
  lemma {:induction false} UpdateLeaf(m: Mem, m': Mem, lvl: nat, R: int, q: Path, l: nat, N: int, e: Word, r: Path)
    requires 1 <= l <= lvl <= 5 && InTree(m, q) && InTree(m, r)
    requires Once(m, lvl, R, 0) && Node(m, lvl, R, q, l) == Some(N) && Wrote(m, m', N, Idx(q, l), e)
    ensures Leaf(m', lvl, R, r) == if Meet(q, r, lvl, l) then Below(m', l, e, r) else Leaf(m, lvl, R, r)
  {
    var x, y := Idx(q, lvl), Idx(r, lvl);
    if l < lvl {
      NodeCounted(m, lvl, R, q, l);
      EntInCnt(m, lvl, R, 0, x, N, false);
      assert At(m', R, y) == At(m, R, y);
    }
    if x == y {
      if l < lvl {
        OnceBelow(m, lvl, R, 0, x);
        UpdateLeaf(m, m', lvl - 1, At(m, R, x).ppn, q, l, N, e, r);
      }
    } else {
      var f := At(m, R, y);
      if l < lvl {
        if x < y { TwoEntsInCnt(m, lvl, R, x, y, N, false); } else { TwoEntsInCnt(m, lvl, R, y, x, N, false); }
        assert Ent(m, lvl, f, N, false) == 0;
      } else {
        EntInCnt(m, lvl, R, 0, y, N, false);
      }
      if f.p && lvl > 1 {
        FrameLeaf(m, m', lvl - 1, f.ppn, r);
      }
    }
  }

  lemma MeetIsEqual(q: Path, r: Path)
    ensures Meet(q, r, 5, 1) <==> q == r
  {
    assert Meet(q, r, 5, 1) <==> Idx(q, 5) == Idx(r, 5) && Meet(q, r, 4, 1);
    assert Meet(q, r, 4, 1) <==> Idx(q, 4) == Idx(r, 4) && Meet(q, r, 3, 1);
    assert Meet(q, r, 3, 1) <==> Idx(q, 3) == Idx(r, 3) && Meet(q, r, 2, 1);
    assert Meet(q, r, 2, 1) <==> Idx(q, 2) == Idx(r, 2) && Meet(q, r, 1, 1);
    assert Meet(q, r, 1, 1) <==> Idx(q, 1) == Idx(r, 1);
  }

  // ------------------------------------------------------------------------
  // The forest as a sum over task slots

  /** If only slot `t` changes its counts, the forest changes by the same amount. */
  lemma {:induction false} SlotSum(m: Mem, m': Mem, t: nat, p: int, leaf: bool, lo: nat := 0)
    requires SameShape(m, m') && lo <= t < |m.roots|
    requires forall s: nat :: lo <= s < |m.roots| && s != t ==> Slot(m', s, p, leaf) == Slot(m, s, p, leaf)
    ensures Cnt(m', 5, TOP, lo, p, leaf) + Slot(m, t, p, leaf) == Cnt(m, 5, TOP, lo, p, leaf) + Slot(m', t, p, leaf)
    decreases t - lo
  {
    if lo < t {
      assert Slot(m', lo, p, leaf) == Slot(m, lo, p, leaf);
      SlotSum(m, m', t, p, leaf, lo + 1);
    } else {
      SlotTail(m, m', p, leaf, lo + 1);
    }
  }

  lemma {:induction false} SlotTail(m: Mem, m': Mem, p: int, leaf: bool, lo: nat)
    requires SameShape(m, m')
    requires forall s: nat :: lo <= s < |m.roots| ==> Slot(m', s, p, leaf) == Slot(m, s, p, leaf)
    ensures Cnt(m', 5, TOP, lo, p, leaf) == Cnt(m, 5, TOP, lo, p, leaf)
    decreases |m.roots| - lo
  {
    if lo < |m.roots| {
      assert Slot(m', lo, p, leaf) == Slot(m, lo, p, leaf);
      SlotTail(m, m', p, leaf, lo + 1);
    }
  }

  // ------------------------------------------------------------------------
  // What a count says about the leaves

  lemma {:induction false} LeafCounted(m: Mem, lvl: nat, R: int, q: Path)
    requires 1 <= lvl <= 5 && InTree(m, q) && Leaf(m, lvl, R, q).p
    ensures Ent(m, lvl, At(m, R, Idx(q, lvl)), Leaf(m, lvl, R, q).ppn, true) >= 1
  {
    if lvl > 1 {
      var e := At(m, R, Idx(q, lvl));
      LeafCounted(m, lvl - 1, e.ppn, q);
      EntInCnt(m, lvl - 1, e.ppn, 0, Idx(q, lvl - 1), Leaf(m, lvl, R, q).ppn, true);
    }
  }

  lemma {:induction false} TwoLeavesCounted(m: Mem, lvl: nat, R: int, q: Path, r: Path)
    requires 1 <= lvl <= 5 && InTree(m, q) && InTree(m, r) && !Meet(q, r, lvl, 1)
    requires Leaf(m, lvl, R, q).p && Leaf(m, lvl, R, r).p && Leaf(m, lvl, R, q).ppn == Leaf(m, lvl, R, r).ppn
    ensures Cnt(m, lvl, R, 0, Leaf(m, lvl, R, q).ppn, true) >= 2
  {
    var x, y, p := Idx(q, lvl), Idx(r, lvl), Leaf(m, lvl, R, q).ppn;
    if x == y {
      TwoLeavesCounted(m, lvl - 1, At(m, R, x).ppn, q, r);
      EntInCnt(m, lvl, R, 0, x, p, true);
    } else {
      LeafCounted(m, lvl, R, q);
      LeafCounted(m, lvl, R, r);
      if x < y { TwoEntsInCnt(m, lvl, R, x, y, p, true); } else { TwoEntsInCnt(m, lvl, R, y, x, p, true); }
    }
  }

  // ------------------------------------------------------------------------
  // Single writes seen from the whole forest

  /** The two memories differ at most in page `Z`. */
  ghost predicate SameBut(m: Mem, m': Mem, Z: int) {
    SameShape(m, m') && forall D: int, x: nat :: D != Z ==> At(m', D, x) == At(m, D, x)
  }

  /** All counts and all translations agree. */
  ghost predicate SameForest(m: Mem, m': Mem) {
    && SameShape(m, m')
    && (forall p: int :: Tables(m', p) == Tables(m, p) && Maps(m', p) == Maps(m, p))
    && (forall t: nat, p: int, leaf: bool :: t < |m.roots| ==> Slot(m', t, p, leaf) == Slot(m, t, p, leaf))
    && (forall q: Path :: InTree(m, q) ==> Pte(m', q) == Pte(m, q))
  }

  lemma SameOnce(m: Mem, m': Mem)
    requires Once(m, 5, TOP, 0) && forall p: int :: Tables(m', p) == Tables(m, p)
    ensures Once(m', 5, TOP, 0)
  {
    forall p: int ensures Cnt(m', 5, TOP, 0, p, false) == Cnt(m, 5, TOP, 0, p, false) {
      assert Tables(m', p) == Tables(m, p);
    }
  }

  /** A page that is no table can be overwritten freely. */
  lemma NonTable(m: Mem, m': Mem, Z: int)
    requires SameBut(m, m', Z) && Tables(m, Z) == 0 && Z != TOP
    ensures SameForest(m, m')
  {
    forall p: int ensures Tables(m', p) == Tables(m, p) && Maps(m', p) == Maps(m, p) {
      FrameCnt(m, m', 5, TOP, 0, p, false);
      FrameCnt(m, m', 5, TOP, 0, p, true);
    }
    forall t: nat, p: int, leaf: bool | t < |m.roots| ensures Slot(m', t, p, leaf) == Slot(m, t, p, leaf) {
      NonTableSlot(m, m', Z, t, p, leaf);
    }
    forall q: Path | InTree(m, q) ensures Pte(m', q) == Pte(m, q) {
      FrameLeaf(m, m', 5, TOP, q);
    }
  }

  lemma NonTableSlot(m: Mem, m': Mem, Z: int, t: nat, p: int, leaf: bool)
    requires SameBut(m, m', Z) && Tables(m, Z) == 0 && Z != TOP && t < |m.roots|
    ensures Slot(m', t, p, leaf) == Slot(m, t, p, leaf)
  {
    var e := At(m, TOP, t);
    EntInCnt(m, 5, TOP, 0, t, Z, false);
    if e.p {
      FrameCnt(m, m', 4, e.ppn, 0, p, leaf);
    }
  }

  /** A write below slot `q.t` leaves the counts of every other slot alone. */
  lemma OtherSlot(m: Mem, m': Mem, q: Path, l: nat, N: int, e: Word, t: nat, p: int, leaf: bool)
    requires 1 <= l <= 5 && InTree(m, q) && t < |m.roots| && t != q.t
    requires Once(m, 5, TOP, 0) && Node(m, 5, TOP, q, l) == Some(N) && Wrote(m, m', N, Idx(q, l), e)
    ensures Slot(m', t, p, leaf) == Slot(m, t, p, leaf)
  {
    if l < 5 {
      NodeCounted(m, 5, TOP, q, l);
      if t < q.t { TwoEntsInCnt(m, 5, TOP, t, q.t, N, false); } else { TwoEntsInCnt(m, 5, TOP, q.t, t, N, false); }
      assert Slot(m, t, N, false) == 0;
    } else {
      EntInCnt(m, 5, TOP, 0, t, N, false);
    }
    FrameEnt(m, m', 5, At(m, TOP, t), N, Idx(q, l), e, p, leaf);
  }

  /** What setting the page table entry of `q` to `e` does to the forest. */
  ghost predicate PteSet(m: Mem, m': Mem, q: Path, e: Word) {
    && SameShape(m, m') && InTree(m, q)
    && (forall p: int :: Tables(m', p) == Tables(m, p))
    && (forall p: int :: Maps(m', p) + Hit(1, Pte(m, q), p, true) == Maps(m, p) + Hit(1, e, p, true))
    && (forall t: nat, p: int, leaf: bool :: t < |m.roots| && t != q.t ==> Slot(m', t, p, leaf) == Slot(m, t, p, leaf))
    && (forall p: int :: Slot(m', q.t, p, false) == Slot(m, q.t, p, false))
    && (forall p: int ::
          Slot(m', q.t, p, true) + Hit(1, Pte(m, q), p, true) == Slot(m, q.t, p, true) + Hit(1, e, p, true))
    && (forall r: Path :: InTree(m, r) ==> Pte(m', r) == if r == q then e else Pte(m, r))
  }

  lemma NodeLeaf(m: Mem, lvl: nat, R: int, q: Path)
    requires 1 <= lvl && Node(m, lvl, R, q, 1).Some?
    ensures Leaf(m, lvl, R, q) == At(m, Node(m, lvl, R, q, 1).value, q.v.i1)
  {
    if lvl > 1 {
      NodeLeaf(m, lvl - 1, At(m, R, Idx(q, lvl)).ppn, q);
    }
  }

  lemma NoNodeNoLeaf(m: Mem, lvl: nat, R: int, q: Path)
    requires 1 <= lvl && Node(m, lvl, R, q, 1).None?
    ensures Leaf(m, lvl, R, q) == ZERO
  {
    if lvl > 1 && At(m, R, Idx(q, lvl)).p {
      NoNodeNoLeaf(m, lvl - 1, At(m, R, Idx(q, lvl)).ppn, q);
    }
  }

  lemma EntLeaf(m: Mem, e: Word, p: int, leaf: bool)
    ensures Ent(m, 1, e, p, leaf) == Hit(1, e, p, leaf)
  {
  }

  lemma WritePte(m: Mem, m': Mem, q: Path, N: int, e: Word)
    requires Once(m, 5, TOP, 0) && InTree(m, q)
    requires Node(m, 5, TOP, q, 1) == Some(N) && Wrote(m, m', N, q.v.i1, e)
    ensures PteSet(m, m', q, e)
  {
    hide Once, Cnt, Ent;
    NodeLeaf(m, 5, TOP, q);
    forall p: int, leaf: bool
      ensures Cnt(m', 5, TOP, 0, p, leaf) + Hit(1, Pte(m, q), p, leaf) ==
                Cnt(m, 5, TOP, 0, p, leaf) + Hit(1, e, p, leaf)
      ensures Slot(m', q.t, p, leaf) + Hit(1, Pte(m, q), p, leaf) == Slot(m, q.t, p, leaf) + Hit(1, e, p, leaf)
    {
      UpdateCnt(m, m', 5, TOP, 0, q, 1, N, e, p, leaf);
      EntLeaf(m, At(m, N, q.v.i1), p, leaf);
      EntLeaf(m', e, p, leaf);
      forall t: nat | t < |m.roots| && t != q.t ensures Slot(m', t, p, leaf) == Slot(m, t, p, leaf) {
        OtherSlot(m, m', q, 1, N, e, t, p, leaf);
      }
      SlotSum(m, m', q.t, p, leaf);
    }
    forall t: nat, p: int, leaf: bool | t < |m.roots| && t != q.t ensures Slot(m', t, p, leaf) == Slot(m, t, p, leaf) {
      OtherSlot(m, m', q, 1, N, e, t, p, leaf);
    }
    forall r: Path | InTree(m, r) ensures Pte(m', r) == if r == q then e else Pte(m, r) {
      UpdateLeaf(m, m', 5, TOP, q, 1, N, e, r);
      MeetIsEqual(q, r);
    }
  }

  /** The private part of the table `Z` of level `lvl` is empty. */
  ghost predicate Blank(m: Mem, lvl: nat, Z: int) {
    forall x: nat :: x < Width(m, lvl) ==> At(m, Z, x) == ZERO
  }

  lemma {:induction false} BlankCnt(m: Mem, lvl: nat, Z: int, lo: nat, p: int, leaf: bool)
    requires Blank(m, lvl, Z)
    ensures Cnt(m, lvl, Z, lo, p, leaf) == 0
    decreases Width(m, lvl) - lo
  {
    if lvl > 0 && lo < Width(m, lvl) {
      BlankCnt(m, lvl, Z, lo + 1, p, leaf);
    }
  }

  /** What linking an empty table `Z` below slot `t` does to the forest. */
  ghost predicate TableAdded(m: Mem, m': Mem, t: nat, Z: int) {
    && SameShape(m, m') && t < |m.roots|
    && (forall p: int :: Tables(m', p) == Tables(m, p) + (if p == Z then 1 else 0))
    && (forall p: int :: Maps(m', p) == Maps(m, p))
    && (forall s: nat, p: int, leaf: bool :: s < |m.roots| && s != t ==> Slot(m', s, p, leaf) == Slot(m, s, p, leaf))
    && (forall p: int :: Slot(m', t, p, false) == Slot(m, t, p, false) + (if p == Z then 1 else 0))
    && (forall p: int :: Slot(m', t, p, true) == Slot(m, t, p, true))
    && (forall r: Path :: InTree(m, r) ==> Pte(m', r) == Pte(m, r))
  }

  lemma LinkTable(m: Mem, m': Mem, q: Path, l: nat, N: int, Z: int, e: Word)
    requires 2 <= l <= 5 && Once(m, 5, TOP, 0) && InTree(m, q) && Node(m, 5, TOP, q, l) == Some(N) && N != Z
    requires Wrote(m, m', N, Idx(q, l), e) && e.p && e.ppn == Z && !At(m, N, Idx(q, l)).p && Blank(m, l - 1, Z)
    requires !Shut(l, e)
    ensures TableAdded(m, m', q.t, Z)
  {
    forall p: int, leaf: bool
      ensures Cnt(m', 5, TOP, 0, p, leaf) == Cnt(m, 5, TOP, 0, p, leaf) + (if p == Z && !leaf then 1 else 0)
      ensures Slot(m', q.t, p, leaf) == Slot(m, q.t, p, leaf) + (if p == Z && !leaf then 1 else 0)
    {
      UpdateCnt(m, m', 5, TOP, 0, q, l, N, e, p, leaf);
      BlankCnt(m', l - 1, Z, 0, p, leaf);
      forall t: nat | t < |m.roots| && t != q.t ensures Slot(m', t, p, leaf) == Slot(m, t, p, leaf) {
        OtherSlot(m, m', q, l, N, e, t, p, leaf);
      }
      SlotSum(m, m', q.t, p, leaf);
    }
    forall t: nat, p: int, leaf: bool | t < |m.roots| && t != q.t ensures Slot(m', t, p, leaf) == Slot(m, t, p, leaf) {
      OtherSlot(m, m', q, l, N, e, t, p, leaf);
    }
    forall r: Path | InTree(m, r) ensures Pte(m', r) == Pte(m, r) {
      LinkTableLeaf(m, m', q, l, N, Z, e, r);
    }
  }

  lemma LinkTableLeaf(m: Mem, m': Mem, q: Path, l: nat, N: int, Z: int, e: Word, r: Path)
    requires 2 <= l <= 5 && Once(m, 5, TOP, 0) && InTree(m, q) && Node(m, 5, TOP, q, l) == Some(N) && N != Z
    requires Wrote(m, m', N, Idx(q, l), e) && e.p && e.ppn == Z && !At(m, N, Idx(q, l)).p && Blank(m, l - 1, Z)
    requires InTree(m, r)
    ensures Pte(m', r) == Pte(m, r)
  {
    UpdateLeaf(m, m', 5, TOP, q, l, N, e, r);
    if Meet(q, r, 5, l) {
      AbsentBelow(m, 5, TOP, q, l, N, r);
      assert At(m', Z, Idx(r, l - 1)) == ZERO;
    }
  }

  lemma {:induction false} AbsentBelow(m: Mem, lvl: nat, R: int, q: Path, l: nat, N: int, r: Path)
    requires 2 <= l <= lvl && Meet(q, r, lvl, l) && Node(m, lvl, R, q, l) == Some(N) && !At(m, N, Idx(q, l)).p
    ensures Leaf(m, lvl, R, r) == ZERO
  {
    if l < lvl {
      AbsentBelow(m, lvl - 1, At(m, R, Idx(q, lvl)).ppn, q, l, N, r);
    }
  }

  lemma {:induction false} FrameNode(m: Mem, m': Mem, lvl: nat, R: int, q: Path, l: nat)
    requires SameShape(m, m') && SameTables(m, m', lvl, R, 0) && InTree(m, q) && 1 <= l <= lvl <= 5
    ensures Node(m', lvl, R, q, l) == Node(m, lvl, R, q, l)
  {
    if lvl > l {
      var x := Idx(q, lvl);
      var e := At(m, R, x);
      assert At(m', R, x) == e;
      if e.p {
        SameBelow(m, m', lvl, R, 0, x);
        FrameNode(m, m', lvl - 1, e.ppn, q, l);
      }
    }
  }

  /** Every table met on a walk is counted as one. */
  lemma NodeIsTable(m: Mem, q: Path, l: nat)
    requires 1 <= l < 5 && InTree(m, q) && Node(m, 5, TOP, q, l).Some?
    ensures Tables(m, Node(m, 5, TOP, q, l).value) >= 1
  {
    NodeCounted(m, 5, TOP, q, l);
    EntInCnt(m, 5, TOP, 0, q.t, Node(m, 5, TOP, q, l).value, false);
  }

  lemma RootIsTable(m: Mem, t: nat)
    requires t < |m.roots| && m.roots[t] >= 0
    ensures Slot(m, t, m.roots[t], false) >= 1 && Tables(m, m.roots[t]) >= 1
  {
    EntInCnt(m, 5, TOP, 0, t, m.roots[t], false);
  }

  /** A table below a PML4 is not the PML4 of any task. */
  lemma RootsApart(m: Mem, q: Path, l: nat, t: nat)
    requires Once(m, 5, TOP, 0) && 1 <= l < 4 && InTree(m, q) && t < |m.roots| && Node(m, 5, TOP, q, l).Some?
    ensures Node(m, 5, TOP, q, l).value != m.roots[t]
  {
    var N := Node(m, 5, TOP, q, l).value;
    if N == m.roots[t] {
      NodeCounted(m, 5, TOP, q, l);
      RootIsTable(m, t);
      if t < q.t {
        TwoEntsInCnt(m, 5, TOP, t, q.t, N, false);
      } else if q.t < t {
        TwoEntsInCnt(m, 5, TOP, q.t, t, N, false);
      } else {
        OnceBelow(m, 5, TOP, 0, t);
        OnlyBelow(m, 4, N, 0, q, l, N);
      }
    }
  }

  /** One step of a walk. */
  lemma {:induction false} NodeStep(m: Mem, lvl: nat, R: int, q: Path, l: nat)
    requires 1 <= l < lvl
    ensures Node(m, lvl, R, q, l) ==
            match Node(m, lvl, R, q, l + 1)
            case None => None
            case Some(T) => if At(m, T, Idx(q, l + 1)).p then Some(At(m, T, Idx(q, l + 1)).ppn) else None
  {
    if l + 1 < lvl && At(m, R, Idx(q, lvl)).p {
      NodeStep(m, lvl - 1, At(m, R, Idx(q, lvl)).ppn, q, l);
    }
  }

  /** A write to a table does not disturb the way to it. */
  lemma {:induction false} WroteNode(m: Mem, m': Mem, lvl: nat, R: int, q: Path, l: nat, N: int, e: Word)
    requires 1 <= l <= lvl <= 5 && InTree(m, q) && Once(m, lvl, R, 0)
    requires Node(m, lvl, R, q, l) == Some(N) && Wrote(m, m', N, Idx(q, l), e)
    ensures Node(m', lvl, R, q, l) == Some(N)
  {
    if l < lvl {
      NodeCounted(m, lvl, R, q, l);
      EntInCnt(m, lvl, R, 0, Idx(q, lvl), N, false);
      OnceBelow(m, lvl, R, 0, Idx(q, lvl));
      WroteNode(m, m', lvl - 1, At(m, R, Idx(q, lvl)).ppn, q, l, N, e);
    }
  }

  /** A walk that reaches level 1 has passed every level above. */
  lemma {:induction false} NodeAbove(m: Mem, lvl: nat, R: int, q: Path, l: nat)
    requires 1 <= l <= lvl && Node(m, lvl, R, q, 1).Some?
    ensures Node(m, lvl, R, q, l).Some?
  {
    if l < lvl {
      NodeAbove(m, lvl - 1, At(m, R, Idx(q, lvl)).ppn, q, l);
    }
  }

  /** A walk that stops at some level stops for good. */
  lemma WalkLevels(m: Mem, R: int, q: Path)
    ensures Node(m, 4, R, q, 4) == Some(R)
    ensures Node(m, 4, R, q, 1).Some? ==> Node(m, 4, R, q, 2).Some?
    ensures Node(m, 4, R, q, 2).Some? ==> Node(m, 4, R, q, 3).Some?
  {
    NodeStep(m, 4, R, q, 1);
    NodeStep(m, 4, R, q, 2);
  }

  /** A write to a table that does not lie below the entry `f` does not disturb the walks there. */
  lemma FrameBelow(m: Mem, m': Mem, lvl: nat, f: Word, N: int, x: nat, e: Word, r: Path, l: nat)
    requires 1 <= l < lvl <= 5 && Wrote(m, m', N, x, e) && InTree(m, r) && f.p && Ent(m, lvl, f, N, false) == 0
    ensures Node(m', lvl - 1, f.ppn, r, l) == Node(m, lvl - 1, f.ppn, r, l)
  {
    hide Cnt;
    EntStep(m, lvl, f, N, false);
    FrameNode(m, m', lvl - 1, f.ppn, r, l);
  }

  /** Replacing the entry of level `l` along `q` moves exactly the walks through it, and those only
      below that level. */
  lemma {:induction false} UpdateNode(m: Mem, m': Mem, lvl: nat, R: int, q: Path, l: nat, N: int, e: Word, r: Path,
          k: nat)
    requires 1 <= l <= lvl <= 5 && 1 <= k <= lvl && InTree(m, q) && InTree(m, r) && Once(m, lvl, R, 0)
    requires Node(m, lvl, R, q, l) == Some(N) && Wrote(m, m', N, Idx(q, l), e)
    ensures Node(m', lvl, R, r, k) ==
            if k < l && Meet(q, r, lvl, l) then (if e.p then Node(m', l - 1, e.ppn, r, k) else None)
            else Node(m, lvl, R, r, k)
  {
    hide Ent, Cnt;
    if k < lvl {
      var x, y := Idx(q, lvl), Idx(r, lvl);
      var f := At(m, R, y);
      OnlyBelow(m, lvl, R, 0, q, l, N);
      if l == lvl {
        if x != y && f.p {
          EntInCnt(m, lvl, R, 0, y, N, false);
          FrameBelow(m, m', lvl, f, N, x, e, r, k);
        }
      } else if f.p {
        assert At(m', R, y) == f;
        if x == y {
          OnceBelow(m, lvl, R, 0, x);
          UpdateNode(m, m', lvl - 1, f.ppn, q, l, N, e, r, k);
        } else {
          NodeCounted(m, lvl, R, q, l);
          if x < y { TwoEntsInCnt(m, lvl, R, x, y, N, false); } else { TwoEntsInCnt(m, lvl, R, y, x, N, false); }
          FrameBelow(m, m', lvl, f, N, Idx(q, l), e, r, k);
        }
      }
    }
  }

  /** A write to a page table entry leaves every table where it was. */
  lemma LeafWriteNode(m: Mem, m': Mem, q: Path, N: int, e: Word, r: Path, l: nat)
    requires 1 <= l <= 5 && InTree(m, q) && InTree(m, r) && Once(m, 5, TOP, 0)
    requires Node(m, 5, TOP, q, 1) == Some(N) && Wrote(m, m', N, q.v.i1, e)
    ensures Node(m', 5, TOP, r, l) == Node(m, 5, TOP, r, l)
  {
    UpdateNode(m, m', 5, TOP, q, 1, N, e, r, l);
  }

  /** A table of one slot belongs to no other. */
  lemma OneOwner(m: Mem, t: nat, u: nat, D: int)
    requires Once(m, 5, TOP, 0) && t < |m.roots| && u < |m.roots| && t != u && Slot(m, t, D, false) > 0
    ensures Slot(m, u, D, false) == 0
  {
    if t < u { TwoEntsInCnt(m, 5, TOP, t, u, D, false); } else { TwoEntsInCnt(m, 5, TOP, u, t, D, false); }
    assert Cnt(m, 5, TOP, 0, D, false) <= 1;
  }

  /** The walks of a slot whose tables have kept their contents. */
  lemma SlotNodes(m: Mem, m': Mem, q: Path, l: nat)
    requires SameShape(m, m') && m'.roots == m.roots && InTree(m, q) && 1 <= l <= 4
    requires forall D: int, x: nat :: Slot(m, q.t, D, false) > 0 ==> At(m', D, x) == At(m, D, x)
    ensures Node(m', 5, TOP, q, l) == Node(m, 5, TOP, q, l)
  {
    var R := m.roots[q.t];
    if R >= 0 {
      forall D: int, x: nat | (D == R && 0 <= x) || Cnt(m, 4, R, 0, D, false) > 0 ensures At(m', D, x) == At(m, D, x) {
        assert Slot(m, q.t, D, false) > 0;
      }
      FrameNode(m, m', 4, R, q, l);
    }
  }

  // ------------------------------------------------------------------------
  // What the processor allows

  /** User code may read, or write, the page at `q`: every entry of the walk has U, and for a write W. */
  predicate UserMay(m: Mem, lvl: nat, R: int, q: Path, write: bool) {
    lvl == 0 ||
    var e := At(m, R, Idx(q, lvl));
    e.p && e.u && (write ==> e.w) && UserMay(m, lvl - 1, e.ppn, q, write)
  }

  /** The kernel may write the page at `q`: every entry of the walk has W. */
  predicate KernelMay(m: Mem, lvl: nat, R: int, q: Path) {
    lvl == 0 ||
    var e := At(m, R, Idx(q, lvl));
    e.p && e.w && KernelMay(m, lvl - 1, e.ppn, q)
  }

  lemma {:induction false} UserMayLeaf(m: Mem, lvl: nat, R: int, q: Path, write: bool)
    requires 1 <= lvl && UserMay(m, lvl, R, q, write)
    ensures var e := Leaf(m, lvl, R, q); e.p && e.u && (write ==> e.w)
  {
    if lvl > 1 { UserMayLeaf(m, lvl - 1, At(m, R, Idx(q, lvl)).ppn, q, write); }
  }

  /** Where no entry is shut, the page table entry decides. */
  lemma {:induction false} OpenWalk(m: Mem, lvl: nat, R: int, q: Path, write: bool)
    requires 1 <= lvl <= 4 && InTree(m, q) && Cnt(m, lvl, R, 0, SHUT, false) == 0
    ensures UserMay(m, lvl, R, q, write) <==> var e := Leaf(m, lvl, R, q); e.p && e.u && (write ==> e.w)
  {
    var e := At(m, R, Idx(q, lvl));
    EntInCnt(m, lvl, R, 0, Idx(q, lvl), SHUT, false);
    if lvl > 1 && e.p { OpenWalk(m, lvl - 1, e.ppn, q, write); }
    assert UserMay(m, 0, At(m, R, Idx(q, lvl)).ppn, q, write);
  }

  /** Entries that lead on are not shut where none is. */
  lemma {:induction false} OpenEntry(m: Mem, lvl: nat, R: int, q: Path, l: nat)
    requires 2 <= l <= lvl <= 5 && l <= 4 && InTree(m, q) && Node(m, lvl, R, q, l).Some?
    requires Cnt(m, lvl, R, 0, SHUT, false) == 0
    ensures var e := At(m, Node(m, lvl, R, q, l).value, Idx(q, l)); e.p ==> e.w && e.u
  {
    var e := At(m, R, Idx(q, lvl));
    EntInCnt(m, lvl, R, 0, Idx(q, lvl), SHUT, false);
    if l < lvl { OpenEntry(m, lvl - 1, e.ppn, q, l); }
  }
}
