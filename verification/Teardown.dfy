/** What task_destroy's nested loops do to memory, table by table. */
module Teardown {
  import opened Mmu
  import opened PageTree
  import opened Queue
  import opened Memory

  /** All references made below entries `lo..` of table `T`. */
  function All(m: Mem, lvl: nat, T: int, lo: nat, p: int): nat {
    Cnt(m, lvl, T, lo, p, false) + Cnt(m, lvl, T, lo, p, true)
  }

  /** The references made below the entries before `x`. */
  function Shed(m: Mem, lvl: nat, T: int, x: nat, p: int): int {
    All(m, lvl, T, 0, p) - All(m, lvl, T, x, p)
  }

  /** The subtree below `T` can be taken apart: its pages are allocated and counted at least as
      often as it names them, its tables exactly once, and `T` is not among them. */
  ghost predicate Clearable(s: Sys, lvl: nat, T: int) {
    && |s.ref| == |s.m.phys| && 0 <= T < |s.m.phys| && All(s.m, lvl, T, 0, T) == 0
    && (forall p :: 0 <= p < |s.m.phys| ==> |s.m.phys[p]| == TABLE_SIZE)
    && (forall p: int :: All(s.m, lvl, T, 0, p) > 0 ==>
          0 <= p < |s.ref| && p !in s.free && s.ref[p] >= All(s.m, lvl, T, 0, p))
    && (forall p: int :: Cnt(s.m, lvl, T, 0, p, false) > 0 ==> 0 <= p < |s.ref| && s.ref[p] == 1)
  }

  /** `s` is `s0` with everything below the entries before `x` of `T` released. */
  ghost predicate Cleared(s0: Sys, s: Sys, lvl: nat, T: int, x: nat) {
    && s.c == s0.c && SameShape(s0.m, s.m) && s.m.roots == s0.m.roots
    && |s.ref| == |s0.ref| == |s.m.phys| == |s0.m.phys|
    && (forall p :: 0 <= p < |s.m.phys| ==> |s.m.phys[p]| == TABLE_SIZE)
    && (forall p: int :: 0 <= p < |s.ref| ==> s.ref[p] + Shed(s0.m, lvl, T, x, p) == s0.ref[p])
    && (NoDup(s0.free) ==> NoDup(s.free))
    && (forall p: nat ::
          p in s.free <==> p in s0.free || (p < |s.ref| && Shed(s0.m, lvl, T, x, p) > 0 && s.ref[p] == 0))
    && (forall D: nat ::
          D < |s.m.phys| && D != T && Cnt(s0.m, lvl, T, 0, D, false) == Cnt(s0.m, lvl, T, x, D, false) ==>
          s.m.phys[D] == s0.m.phys[D])
    && (forall y: nat :: x <= y ==> At(s.m, T, y) == At(s0.m, T, y))
  }

  lemma {:induction false} CntMonotone(m: Mem, lvl: nat, T: int, lo: nat, x: nat, p: int, leaf: bool)
    requires lo <= x
    ensures Cnt(m, lvl, T, x, p, leaf) <= Cnt(m, lvl, T, lo, p, leaf)
    decreases x - lo
  {
    if lo < x {
      CntMonotone(m, lvl, T, lo + 1, x, p, leaf);
    }
  }

  lemma ClearStart(s: Sys, lvl: nat, T: int)
    requires Clearable(s, lvl, T)
    ensures Cleared(s, s, lvl, T, 0)
  {
  }

  /** The counts in front of entry `x`, of the entry, and behind it. */
  lemma ClearSplit(m: Mem, lvl: nat, T: int, x: nat, p: int)
    requires lvl > 0 && x < Width(m, lvl)
    ensures Shed(m, lvl, T, x, p) >= 0
    ensures Cnt(m, lvl, T, x, p, false) <= Cnt(m, lvl, T, 0, p, false)
    ensures Cnt(m, lvl, T, x, p, true) <= Cnt(m, lvl, T, 0, p, true)
    ensures var e := At(m, T, x);
            Shed(m, lvl, T, x + 1, p) == Shed(m, lvl, T, x, p) + Ent(m, lvl, e, p, false) + Ent(m, lvl, e, p, true)
    ensures var e := At(m, T, x);
            && Ent(m, lvl, e, p, false) <= Cnt(m, lvl, T, x, p, false)
            && Ent(m, lvl, e, p, true) <= Cnt(m, lvl, T, x, p, true)
  {
    CntMonotone(m, lvl, T, 0, x, p, false);
    CntMonotone(m, lvl, T, 0, x, p, true);
  }

  /** Absent entries are skipped. */
  lemma ClearSkip(s0: Sys, s: Sys, lvl: nat, T: int, x: nat)
    requires Clearable(s0, lvl, T) && Cleared(s0, s, lvl, T, x) && lvl > 0 && x < Width(s0.m, lvl) && !At(s0.m, T, x).p
    ensures Cleared(s0, s, lvl, T, x + 1)
  {
    forall p: int, leaf: bool ensures Cnt(s0.m, lvl, T, x + 1, p, leaf) == Cnt(s0.m, lvl, T, x, p, leaf) {}
  }

  /** The page named by a page table entry is still allocated when its turn comes. */
  lemma ClearTarget(s0: Sys, s: Sys, lvl: nat, T: int, x: nat)
    requires Clearable(s0, lvl, T) && Cleared(s0, s, lvl, T, x) && lvl > 0 && x < Width(s0.m, lvl) && At(s0.m, T, x).p
    ensures var p := At(s0.m, T, x).ppn; p < |s.ref| && s.ref[p] > 0 && p !in s.free && p != T
  {
    var p := At(s0.m, T, x).ppn;
    ClearSplit(s0.m, lvl, T, x, p);
    assert Ent(s0.m, lvl, At(s0.m, T, x), p, false) + Ent(s0.m, lvl, At(s0.m, T, x), p, true) >= 1;
  }

  /** One page table entry: its page loses one reference. */
  lemma ClearLeafEntry(s0: Sys, s: Sys, T: int, x: nat)
    requires Clearable(s0, 1, T) && Cleared(s0, s, 1, T, x) && x < Width(s0.m, 1) && At(s0.m, T, x).p
    requires var p := At(s0.m, T, x).ppn; p < |s.ref| && s.ref[p] > 0 && p !in s.free
    ensures Cleared(s0, Dropped(s, At(s0.m, T, x).ppn), 1, T, x + 1)
  {
    hide Cnt, Ent, All, NoDup;
    var p := At(s0.m, T, x).ppn;
    var s' := Dropped(s, p);
    ClearLeafCounts(s0, T, x);
    forall r: nat
      ensures r in s'.free <==> r in s0.free || (r < |s.ref| && Shed(s0.m, 1, T, x + 1, r) > 0 && s'.ref[r] == 0)
    {
      if r < |s.ref| { ClearSplit(s0.m, 1, T, x, r); }
    }
    assert NoDup(s.free) ==> NoDup(s'.free) by { if NoDup(s.free) { NoDupCons(p, s.free); } }
  }

  lemma NoDupCons(p: nat, f: seq<nat>)
    requires NoDup(f) && p !in f
    ensures NoDup([p] + f)
  {
  }

  lemma ClearLeafCounts(s0: Sys, T: int, x: nat)
    requires x < Width(s0.m, 1) && At(s0.m, T, x).p
    ensures var p, next := At(s0.m, T, x).ppn, x + 1;
            forall r: int :: Shed(s0.m, 1, T, next, r) == Shed(s0.m, 1, T, x, r) + (if r == p then 1 else 0)
    ensures var next := x + 1; forall D: int :: Cnt(s0.m, 1, T, next, D, false) == Cnt(s0.m, 1, T, x, D, false)
  {
    var p := At(s0.m, T, x).ppn;
    forall r: int ensures Shed(s0.m, 1, T, x + 1, r) == Shed(s0.m, 1, T, x, r) + (if r == p then 1 else 0) {
      ClearSplit(s0.m, 1, T, x, r);
    }
    forall D: int ensures Cnt(s0.m, 1, T, x + 1, D, false) == Cnt(s0.m, 1, T, x, D, false) {
      assert Ent(s0.m, 1, At(s0.m, T, x), D, false) == 0;
    }
  }

  /** The entries before `x` are done and entry `x` of an upper table names the next one. */
  ghost predicate Entering(s0: Sys, s: Sys, lvl: nat, T: int, x: nat) {
    Clearable(s0, lvl, T) && Cleared(s0, s, lvl, T, x) && lvl > 1 && x < Width(s0.m, lvl) && At(s0.m, T, x).p
  }

  /** The subtree below entry `x` has not been touched by clearing the entries before it. */
  lemma ClearFrame(s0: Sys, s: Sys, lvl: nat, T: int, x: nat)
    requires Entering(s0, s, lvl, T, x)
    ensures SameTables(s0.m, s.m, lvl - 1, At(s0.m, T, x).ppn, 0)
  {
    var C, l := At(s0.m, T, x).ppn, lvl - 1;
    forall D: int, y: nat | (D == C && 0 <= y) || Cnt(s0.m, l, C, 0, D, false) > 0
      ensures At(s.m, D, y) == At(s0.m, D, y)
    {
      ClearSplit(s0.m, lvl, T, x, D);
      assert Ent(s0.m, lvl, At(s0.m, T, x), D, false) >= 1;
      assert Cnt(s0.m, lvl, T, 0, D, false) > 0;
      assert All(s0.m, lvl, T, 0, D) <= 1;
      assert s.m.phys[D] == s0.m.phys[D];
    }
  }

  /** The table named by entry `x` can be taken apart in its turn. */
  lemma ClearEnter(s0: Sys, s: Sys, lvl: nat, T: int, x: nat)
    requires Entering(s0, s, lvl, T, x)
    ensures var C := At(s0.m, T, x).ppn; Clearable(s, lvl - 1, C)
    ensures var C, l := At(s0.m, T, x).ppn, lvl - 1;
            forall p: int, leaf: bool :: Cnt(s.m, l, C, 0, p, leaf) == Cnt(s0.m, l, C, 0, p, leaf)
  {
    var C, l := At(s0.m, T, x).ppn, lvl - 1;
    ClearFrame(s0, s, lvl, T, x);
    forall p: int, leaf: bool ensures Cnt(s.m, l, C, 0, p, leaf) == Cnt(s0.m, l, C, 0, p, leaf) {
      FrameCnt(s0.m, s.m, l, C, 0, p, leaf);
    }
    ClearBelow(s0, s, lvl, T, x, C);
    forall p: int ensures All(s.m, l, C, 0, p) == All(s0.m, l, C, 0, p) {}
    forall p: int | All(s0.m, l, C, 0, p) > 0
      ensures 0 <= p < |s.ref| && p !in s.free && s.ref[p] >= All(s0.m, l, C, 0, p)
    {
      ClearBelow(s0, s, lvl, T, x, p);
    }
    forall p: int | Cnt(s0.m, l, C, 0, p, false) > 0 ensures 0 <= p < |s.ref| && s.ref[p] == 1 {
      ClearBelow(s0, s, lvl, T, x, p);
    }
  }

  lemma ClearBelow(s0: Sys, s: Sys, lvl: nat, T: int, x: nat, p: int)
    requires Entering(s0, s, lvl, T, x)
    ensures var C := At(s0.m, T, x).ppn; All(s0.m, lvl - 1, C, 0, C) == 0
    ensures var C := At(s0.m, T, x).ppn;
            All(s0.m, lvl - 1, C, 0, p) > 0 || p == C ==>
                0 <= p < |s.ref| && p != T && p !in s.free && s.ref[p] >= All(s0.m, lvl - 1, C, 0, p)
    ensures var C := At(s0.m, T, x).ppn;
            Cnt(s0.m, lvl - 1, C, 0, p, false) > 0 || p == C ==> 0 <= p < |s.ref| && s.ref[p] == 1
  {
    var C := At(s0.m, T, x).ppn;
    ClearSplit(s0.m, lvl, T, x, p);
    ClearSplit(s0.m, lvl, T, x, C);
    var e := At(s0.m, T, x);
    EntStep(s0.m, lvl, e, p, false);
    EntStep(s0.m, lvl, e, p, true);
    EntStep(s0.m, lvl, e, C, false);
    EntStep(s0.m, lvl, e, C, true);
  }

  /** The subtree below entry `x` has been released, taking `s` to `s1`. */
  ghost predicate Leaving(s0: Sys, s: Sys, s1: Sys, lvl: nat, T: int, x: nat) {
    && Entering(s0, s, lvl, T, x)
    && var C, l := At(s0.m, T, x).ppn, lvl - 1;
    && Cleared(s, s1, l, C, Width(s0.m, l))
    && forall p: int, leaf: bool :: Cnt(s.m, l, C, 0, p, leaf) == Cnt(s0.m, l, C, 0, p, leaf)
  }

  lemma LeaveCount(s0: Sys, lvl: nat, T: int, x: nat, p: nat)
    requires lvl > 1 && x < Width(s0.m, lvl) && At(s0.m, T, x).p
    ensures var C := At(s0.m, T, x).ppn;
            && Shed(s0.m, lvl, T, x + 1, p) ==
                Shed(s0.m, lvl, T, x, p) + (if p == C then 1 else 0) + All(s0.m, lvl - 1, C, 0, p)
            && Cnt(s0.m, lvl, T, x, p, false) ==
                Cnt(s0.m, lvl, T, x + 1, p, false) + (if p == C then 1 else 0) + Cnt(s0.m, lvl - 1, C, 0, p, false)
            && Shed(s0.m, lvl, T, x, p) >= 0 && Cnt(s0.m, lvl, T, x, p, false) <= Cnt(s0.m, lvl, T, 0, p, false)
  {
    ClearSplit(s0.m, lvl, T, x, p);
    CntStep(s0.m, lvl, T, x, p, false);
    EntStep(s0.m, lvl, At(s0.m, T, x), p, false);
    EntStep(s0.m, lvl, At(s0.m, T, x), p, true);
  }

  lemma LeavePage(s0: Sys, s: Sys, s1: Sys, lvl: nat, T: int, x: nat, p: int)
    requires Leaving(s0, s, s1, lvl, T, x)
    ensures var C := At(s0.m, T, x).ppn;
            && (0 <= p < |s.ref| ==> s1.ref[p] + All(s0.m, lvl - 1, C, 0, p) == s.ref[p])
            && (p >= 0 ==> (p in s1.free <==>
                p in s.free || (p < |s.ref| && All(s0.m, lvl - 1, C, 0, p) > 0 && s1.ref[p] == 0)))
            && (0 <= p < |s.m.phys| && p != C && Cnt(s0.m, lvl - 1, C, 0, p, false) == 0 ==>
                s1.m.phys[p] == s.m.phys[p])
  {
    var C, l := At(s0.m, T, x).ppn, lvl - 1;
    assert All(s.m, l, C, Width(s0.m, l), p) == 0;
    assert All(s.m, l, C, 0, p) == All(s0.m, l, C, 0, p);
  }

  /** The state in which the loop goes on to the next entry. */
  function After1(s1: Sys, T: nat, x: nat, C: nat): Sys
    requires T < |s1.m.phys| && x < |s1.m.phys[T]| && C < |s1.ref| && s1.ref[C] > 0
  {
    Dropped(s1, C).(m := SetWord(s1.m, T, x, ZERO))
  }

  lemma LeaveReady(s0: Sys, s: Sys, s1: Sys, lvl: nat, T: int, x: nat)
    requires Leaving(s0, s, s1, lvl, T, x)
    ensures var C := At(s0.m, T, x).ppn;
            && 0 <= T < |s1.m.phys| && T != C && x < TABLE_SIZE == |s1.m.phys[T]| && C < |s1.ref| && s1.ref[C] == 1
            && C !in s1.free
    ensures s1.m.phys[T] == s.m.phys[T]
  {
    hide Cnt, Ent;
    var C := At(s0.m, T, x).ppn;
    ClearBelow(s0, s, lvl, T, x, C);
    ClearBelow(s0, s, lvl, T, x, T);
    LeavePage(s0, s, s1, lvl, T, x, C);
    LeavePage(s0, s, s1, lvl, T, x, T);
    assert x < |s.m.phys[T]|;
  }

  lemma LeaveRefs(s0: Sys, s: Sys, s1: Sys, lvl: nat, T: int, x: nat, p: nat)
    requires Leaving(s0, s, s1, lvl, T, x)
    requires var C := At(s0.m, T, x).ppn;
            && 0 <= T < |s1.m.phys| && x < |s1.m.phys[T]| && C < |s1.ref| && s1.ref[C] == 1 && C !in s1.free
    ensures var s' := After1(s1, T, x, At(s0.m, T, x).ppn);
            && (p < |s'.ref| ==> s'.ref[p] + Shed(s0.m, lvl, T, x + 1, p) == s0.ref[p])
            && (p in s'.free <==> p in s0.free || (p < |s'.ref| && Shed(s0.m, lvl, T, x + 1, p) > 0 && s'.ref[p] == 0))
  {
    hide Cnt, Ent, Shed, All;
    LeaveCount(s0, lvl, T, x, p);
    LeavePage(s0, s, s1, lvl, T, x, p);
  }

  lemma LeaveMem(s0: Sys, s: Sys, s1: Sys, lvl: nat, T: int, x: nat, D: nat)
    requires Leaving(s0, s, s1, lvl, T, x) && 0 <= T < |s1.m.phys| && x < |s1.m.phys[T]|
    requires D < |s.m.phys| && D != T && Cnt(s0.m, lvl, T, 0, D, false) == Cnt(s0.m, lvl, T, x + 1, D, false)
    ensures SetWord(s1.m, T, x, ZERO).phys[D] == s0.m.phys[D]
  {
    hide Ent, Shed, All;
    LeaveCount(s0, lvl, T, x, D);
    LeavePage(s0, s, s1, lvl, T, x, D);
  }

  /** Entry `x` of an upper table: its subtree has been released, then the entry is zeroed and
      the table it named loses its only reference. */
  lemma ClearLeave(s0: Sys, s: Sys, s1: Sys, lvl: nat, T: int, x: nat)
    requires Leaving(s0, s, s1, lvl, T, x)
    ensures var C := At(s0.m, T, x).ppn;
            && 0 <= T < |s1.m.phys| && x < |s1.m.phys[T]| && C < |s1.ref| && s1.ref[C] == 1 && C !in s1.free
    ensures Cleared(s0, After1(s1, T, x, At(s0.m, T, x).ppn), lvl, T, x + 1)
  {
    hide Cnt, Ent, Shed, All;
    LeaveReady(s0, s, s1, lvl, T, x);
    var C, next := At(s0.m, T, x).ppn, x + 1;
    var s' := After1(s1, T, x, C);
    forall p: nat
      ensures p < |s'.ref| ==> s'.ref[p] + Shed(s0.m, lvl, T, next, p) == s0.ref[p]
      ensures p in s'.free <==> p in s0.free || (p < |s'.ref| && Shed(s0.m, lvl, T, next, p) > 0 && s'.ref[p] == 0)
    {
      LeaveRefs(s0, s, s1, lvl, T, x, p);
    }
    forall D: nat | D < |s.m.phys| && D != T && Cnt(s0.m, lvl, T, 0, D, false) == Cnt(s0.m, lvl, T, next, D, false)
      ensures s'.m.phys[D] == s0.m.phys[D]
    {
      LeaveMem(s0, s, s1, lvl, T, x, D);
    }
    forall y: nat | next <= y ensures At(s'.m, T, y) == At(s0.m, T, y) {
      assert At(s.m, T, y) == At(s0.m, T, y);
    }
  }

  // ------------------------------------------------------------------------
  // task_destroy as a whole

  lemma SlotIsAll(m: Mem, t: nat, p: int)
    requires t < |m.roots| && m.roots[t] >= 0
    ensures Slot(m, t, p, false) == Cnt(m, 4, m.roots[t], 0, p, false) + (if p == m.roots[t] then 1 else 0)
    ensures Slot(m, t, p, true) == Cnt(m, 4, m.roots[t], 0, p, true)
    ensures Slot(m, t, p, false) <= Tables(m, p) && Slot(m, t, p, true) <= Maps(m, p)
  {
    EntInCnt(m, 5, TOP, 0, t, p, false);
    EntInCnt(m, 5, TOP, 0, t, p, true);
  }

  /** The address space of a live task can be taken apart. */
  lemma DestroyReady(s: Sys, t: nat)
    requires Inv(s) && t < |s.m.roots| && s.m.roots[t] >= 0
    ensures var r := s.m.roots[t]; Clearable(s, 4, r) && InUse(s, r) && s.ref[r] == 1
  {
    hide Cnt, Ent, Leaf, Once, Node, KernelHalf;
    var r := s.m.roots[t];
    forall p: int
      ensures All(s.m, 4, r, 0, p) + (if p == r then 1 else 0) <= Refs(s, p)
      ensures Cnt(s.m, 4, r, 0, p, false) + (if p == r then 1 else 0) <= Tables(s.m, p)
    {
      SlotIsAll(s.m, t, p);
    }
    assert Tables(s.m, r) > 0;
  }

  /** What is left of the state after a task has been destroyed. */
  function Razed(s1: Sys, t: nat, r: nat): Sys
    requires t < |s1.m.roots| && r < |s1.ref| && s1.ref[r] > 0
  {
    Dropped(s1, r).(m := s1.m.(roots := s1.m.roots[t := -1]))
  }

  ghost predicate Razing(s: Sys, s1: Sys, t: nat) {
    && Inv(s) && t < |s.m.roots| && s.m.roots[t] >= 0
    && Clearable(s, 4, s.m.roots[t]) && Cleared(s, s1, 4, s.m.roots[t], USER_SLOTS)
    && InUse(s, s.m.roots[t]) && s.ref[s.m.roots[t]] == 1
  }

  lemma RazePage(s: Sys, s1: Sys, t: nat, p: int)
    requires Razing(s, s1, t)
    ensures var r := s.m.roots[t]; var d := Slot(s.m, t, p, false) + Slot(s.m, t, p, true);
            && r < |s1.ref| && s1.ref[r] == 1 && r !in s1.free
            && d <= Refs(s, p)
            && (0 <= p < |s.ref| ==> Razed(s1, t, r).ref[p] + d == s.ref[p])
            && (p >= 0 ==> (p in Razed(s1, t, r).free <==> p in s.free || (p < |s.ref| && d > 0 && s.ref[p] == d)))
            && (0 <= p < |s.m.phys| && Slot(s.m, t, p, false) == 0 ==> s1.m.phys[p] == s.m.phys[p])
  {
    hide Inv, Slot;
    var r := s.m.roots[t];
    SlotIsAll(s.m, t, p);
    SlotIsAll(s.m, t, r);
    WidthPrivate(s);
    assert Cnt(s.m, 4, r, USER_SLOTS, p, false) == 0 && Cnt(s.m, 4, r, USER_SLOTS, p, true) == 0;
    assert Cnt(s.m, 4, r, USER_SLOTS, r, false) == 0 && Cnt(s.m, 4, r, USER_SLOTS, r, true) == 0;
    assert Shed(s.m, 4, r, USER_SLOTS, p) == All(s.m, 4, r, 0, p);
    assert Shed(s.m, 4, r, USER_SLOTS, r) == All(s.m, 4, r, 0, r) == 0;
  }

  lemma WidthPrivate(s: Sys)
    requires Inv(s)
    ensures Width(s.m, 4) == USER_SLOTS
  {
  }

  /** The tables of every other task have kept their contents. */
  lemma RazeOther(s: Sys, s1: Sys, t: nat, u: nat)
    requires Razing(s, s1, t) && u < |s.m.roots| && u != t && s.m.roots[u] >= 0
    ensures SameTables(s.m, s1.m, 4, s.m.roots[u], 0)
    ensures s.m.roots[u] < |s.m.phys| && s1.m.phys[s.m.roots[u]] == s.m.phys[s.m.roots[u]]
  {
    hide Inv, Cnt, Ent, Slot, Clearable, Cleared;
    var R := s.m.roots[u];
    forall D: int | D == R || Cnt(s.m, 4, R, 0, D, false) > 0
      ensures 0 <= D < |s.m.phys| == |s1.m.phys| && s1.m.phys[D] == s.m.phys[D]
    {
      SlotIsAll(s.m, u, D);
      RazeApart(s, t, u, D);
      RazePage(s, s1, t, D);
      RazeShape(s, s1, t);
    }
  }

  lemma RazeShape(s: Sys, s1: Sys, t: nat)
    requires Razing(s, s1, t)
    ensures |s.m.phys| == |s1.m.phys| == |s.ref| == |s1.ref| && s1.m.roots == s.m.roots && s1.m.width == s.m.width
    ensures s1.c == s.c
  {
  }

  lemma RazeApart(s: Sys, t: nat, u: nat, D: int)
    requires Inv(s) && t < |s.m.roots| && u < |s.m.roots| && t != u && Slot(s.m, u, D, false) > 0
    ensures Slot(s.m, t, D, false) == 0 && 0 <= D < |s.m.phys|
  {
    if t < u { TwoEntsInCnt(s.m, 5, TOP, t, u, D, false); } else { TwoEntsInCnt(s.m, 5, TOP, u, t, D, false); }
    assert Tables(s.m, D) <= 1;
    assert Refs(s, D) > 0;
  }

  lemma RazeSlot(s: Sys, s1: Sys, t: nat, u: nat, p: int, leaf: bool)
    requires Razing(s, s1, t) && u < |s.m.roots|
    ensures var m' := s1.m.(roots := s.m.roots[t := -1]);
            Slot(m', u, p, leaf) == if u == t then 0 else Slot(s.m, u, p, leaf)
  {
    hide Inv, Clearable, Cleared;
    var m', R := s1.m.(roots := s.m.roots[t := -1]), s.m.roots[u];
    RazeShape(s, s1, t);
    if u != t && R >= 0 {
      RazeOther(s, s1, t, u);
      forall D: int, y: nat ensures D != TOP ==> At(m', D, y) == At(s1.m, D, y) {}
      RazeTop(s, u);
      FrameCnt(s.m, m', 4, R, 0, p, leaf);
    }
  }

  lemma RazeTop(s: Sys, u: nat)
    requires Inv(s) && u < |s.m.roots| && s.m.roots[u] >= 0
    ensures Cnt(s.m, 4, s.m.roots[u], 0, TOP, false) == 0
  {
    SlotIsAll(s.m, u, TOP);
  }

  lemma RazePte(s: Sys, s1: Sys, t: nat, q: Path)
    requires Razing(s, s1, t) && InTree(s.m, q)
    ensures var m' := s1.m.(roots := s.m.roots[t := -1]); Pte(m', q) == if q.t == t then ZERO else Pte(s.m, q)
  {
    hide Inv, Clearable, Cleared, Cnt;
    var m', R := s1.m.(roots := s.m.roots[t := -1]), s.m.roots[q.t];
    RazeShape(s, s1, t);
    if q.t != t && R >= 0 {
      RazeOther(s, s1, t, q.t);
      RazeTop(s, q.t);
      FrameLeaf(s.m, m', 4, R, q);
    }
  }

  lemma RazeTotals(s: Sys, s1: Sys, t: nat, p: int)
    requires Razing(s, s1, t)
    ensures var m' := s1.m.(roots := s.m.roots[t := -1]);
            && Tables(m', p) + Slot(s.m, t, p, false) == Tables(s.m, p)
            && Maps(m', p) + Slot(s.m, t, p, true) == Maps(s.m, p)
  {
    hide Inv, Clearable, Cleared, Cnt, Ent, Slot;
    var m' := s1.m.(roots := s.m.roots[t := -1]);
    RazeShape(s, s1, t);
    forall u: nat, leaf: bool | u < |s.m.roots|
      ensures Slot(m', u, p, leaf) == if u == t then 0 else Slot(s.m, u, p, leaf)
    {
      RazeSlot(s, s1, t, u, p, leaf);
    }
    SlotSum(s.m, m', t, p, false);
    SlotSum(s.m, m', t, p, true);
  }

  /** The effect of task_destroy on memory: slot `t` is gone with all it named, pages that
      nothing else named are free, and nothing else has changed. */
  ghost predicate Destroyed(s: Sys, s': Sys, t: nat) {
    && t < |s.m.roots| && s'.m.roots == s.m.roots[t := -1] && s'.m.width == s.m.width && s'.c == s.c
    && |s'.ref| == |s.ref|
    && (forall u: nat, p: int, leaf: bool :: u < |s.m.roots| && u != t ==>
          Slot(s'.m, u, p, leaf) == Slot(s.m, u, p, leaf))
    && (forall q: Path :: InTree(s.m, q) ==> Pte(s'.m, q) == if q.t == t then ZERO else Pte(s.m, q))
    && (forall p: int :: Tables(s'.m, p) + Slot(s.m, t, p, false) == Tables(s.m, p))
    && (forall p: int :: Maps(s'.m, p) + Slot(s.m, t, p, true) == Maps(s.m, p))
    && (forall p: int :: 0 <= p < |s.ref| ==> s'.ref[p] + Slot(s.m, t, p, false) + Slot(s.m, t, p, true) == s.ref[p])
    && (forall p: nat :: p in s'.free <==>
          p in s.free || (p < |s.ref| && s.ref[p] == Slot(s.m, t, p, false) + Slot(s.m, t, p, true) > 0))
    && SamePages(s, s')
  }

  lemma RazeDestroys(s: Sys, s1: Sys, t: nat)
    requires Razing(s, s1, t)
    ensures s.m.roots[t] < |s1.ref| && s1.ref[s.m.roots[t]] == 1 && s.m.roots[t] !in s1.free && t < |s1.m.roots|
    ensures Destroyed(s, Razed(s1, t, s.m.roots[t]), t)
  {
    hide Inv, Clearable, Cleared, Cnt, Ent, Slot, Tables, Maps, Pte;
    RazeShape(s, s1, t);
    RazePage(s, s1, t, 0);
    var s' := Razed(s1, t, s.m.roots[t]);
    forall u: nat, p: int, leaf: bool | u < |s.m.roots| && u != t
      ensures Slot(s'.m, u, p, leaf) == Slot(s.m, u, p, leaf)
    {
      RazeSlot(s, s1, t, u, p, leaf);
    }
    forall q: Path | InTree(s.m, q) ensures Pte(s'.m, q) == if q.t == t then ZERO else Pte(s.m, q) {
      RazePte(s, s1, t, q);
    }
    forall p: int
      ensures Tables(s'.m, p) + Slot(s.m, t, p, false) == Tables(s.m, p)
      ensures Maps(s'.m, p) + Slot(s.m, t, p, true) == Maps(s.m, p)
    {
      RazeTotals(s, s1, t, p);
    }
    forall p: int
      ensures 0 <= p < |s.ref| ==> s'.ref[p] + Slot(s.m, t, p, false) + Slot(s.m, t, p, true) == s.ref[p]
      ensures p >= 0 ==> (p in s'.free <==>
                p in s.free || (p < |s.ref| && s.ref[p] == Slot(s.m, t, p, false) + Slot(s.m, t, p, true) > 0))
    {
      RazePage(s, s1, t, p);
    }
    forall p: nat | p < |s.m.phys| && ((InUse(s, p) && Tables(s.m, p) == 0) || p in s.c.boot)
      ensures s'.m.phys[p] == s.m.phys[p]
    {
      RazeSpared(s, t, p);
      RazePage(s, s1, t, p);
    }
  }

  lemma RazeSpared(s: Sys, t: nat, p: nat)
    requires Inv(s) && t < |s.m.roots| && (Tables(s.m, p) == 0 || p in s.c.boot)
    ensures Slot(s.m, t, p, false) == 0
  {
    EntInCnt(s.m, 5, TOP, 0, t, p, false);
    assert Refs(s, p) > 0 ==> InUse(s, p);
  }

  lemma DestroyedUse(s: Sys, s': Sys, t: nat, p: int)
    requires Inv(s) && Destroyed(s, s', t)
    ensures var d := Slot(s.m, t, p, false) + Slot(s.m, t, p, true);
            && (InUse(s', p) <==> InUse(s, p) && (d > 0 ==> s.ref[p] > d))
            && (Limbo(s', p) <==> Limbo(s, p))
            && (d > 0 ==> InUse(s, p))
            && Refs(s', p) + d == Refs(s, p) + Hit(1, TempPte(s'.m, s.c), p, true) - Hit(1, TempPte(s.m, s.c), p, true)
  {
    hide Cnt, Ent, Slot, Tables, Maps, Leaf, Forest, KernelHalf;
    var d := Slot(s.m, t, p, false) + Slot(s.m, t, p, true);
    if d > 0 { assert Refs(s, p) > 0; }
  }

  lemma DestroyedExact(s: Sys, s': Sys, t: nat)
    requires Inv(s) && Destroyed(s, s', t) && TempPte(s'.m, s.c) == TempPte(s.m, s.c)
    ensures Exact(s')
  {
    hide Cnt, Ent, Slot, Tables, Maps, Leaf, Forest, KernelHalf, Refs;
    forall p: int
      ensures Refs(s', p) > 0 ==> InUse(s', p)
      ensures InUse(s', p) ==> s'.ref[p] == Refs(s', p)
      ensures Tables(s'.m, p) > 0 ==> Refs(s', p) == 1
    {
      DestroyedUse(s, s', t, p);
      RefsAtLeast(s', p);
    }
  }

  lemma RefsAtLeast(s: Sys, p: int)
    ensures Refs(s, p) >= Tables(s.m, p)
  {
  }

  lemma DestroyedForest(s: Sys, s': Sys, t: nat)
    requires Forest(s.m) && Destroyed(s, s', t)
    ensures Forest(s'.m)
  {
    hide Leaf, Ent, Slot;
    forall p: int ensures Cnt(s'.m, 5, TOP, 0, p, false) <= Cnt(s.m, 5, TOP, 0, p, false) {
      assert Tables(s'.m, p) + Slot(s.m, t, p, false) == Tables(s.m, p);
    }
  }

  lemma DestroyedKernel(s: Sys, s1: Sys, t: nat)
    requires Razing(s, s1, t)
    ensures KernelHalf(s1.m.(roots := s.m.roots[t := -1]), s.c)
    ensures TempPte(s1.m.(roots := s.m.roots[t := -1]), s.c) == TempPte(s.m, s.c)
  {
    hide Clearable, Cleared, Cnt, Ent, Slot, Leaf, Node, Forest, Exact;
    RazeShape(s, s1, t);
    forall D: nat | D in s.c.boot ensures s1.m.phys[D] == s.m.phys[D] {
      RazeSpared(s, t, D);
      RazePage(s, s1, t, D);
    }
    var m2 := s.m.(roots := s.m.roots[t := -1]);
    KernelRoots(s.m, m2, s.c);
    var m' := s1.m.(roots := s.m.roots[t := -1]);
    forall u: nat, x: nat | u < |m2.roots| && m2.roots[u] >= 0 && USER_SLOTS <= x
      ensures At(m', m2.roots[u], x) == At(m2, m2.roots[u], x)
    {
      RazeOther(s, s1, t, u);
    }
    KernelHalfKept(m2, m', s.c);
  }

  lemma KernelRoots(m: Mem, m': Mem, c: Image)
    requires KernelHalf(m, c) && m'.phys == m.phys && |m'.roots| == |m.roots|
    requires forall t: nat :: t < |m.roots| && m'.roots[t] >= 0 ==> m'.roots[t] == m.roots[t]
    ensures KernelHalf(m', c)
  {
    assert SameBoot(m, m', c);
    KernelTablesKept(m, m', c);
  }

  /** task_destroy keeps the invariant. */
  lemma RazeInv(s: Sys, s1: Sys, t: nat)
    requires Razing(s, s1, t)
    ensures s.m.roots[t] < |s1.ref| && s1.ref[s.m.roots[t]] == 1 && s.m.roots[t] !in s1.free && t < |s1.m.roots|
    ensures Inv(Razed(s1, t, s.m.roots[t])) && Destroyed(s, Razed(s1, t, s.m.roots[t]), t)
  {
    hide Clearable, Cnt, Ent, Slot, Leaf, Node, Forest, KernelHalf, Exact, Destroyed, Tables, Maps;
    RazeShape(s, s1, t);
    RazeDestroys(s, s1, t);
    var s' := Razed(s1, t, s.m.roots[t]);
    DestroyedKernel(s, s1, t);
    DestroyedExact(s, s', t);
    DestroyedForest(s, s', t);
    assert Shape(s') by { RazeFree(s, s', t); }
  }

  lemma RazeFree(s: Sys, s': Sys, t: nat)
    requires Inv(s) && Destroyed(s, s', t)
    ensures forall i :: 0 <= i < |s'.free| ==> s'.free[i] < |s'.ref| && s'.free[i] !in s.c.boot
  {
    hide Cnt, Ent, Slot, Leaf, Forest, KernelHalf;
    forall i | 0 <= i < |s'.free| ensures s'.free[i] < |s'.ref| && s'.free[i] !in s.c.boot {
      var p := s'.free[i];
      if p in s.free { var j :| 0 <= j < |s.free| && s.free[j] == p; } else { DestroyedUse(s, s', t, p); }
    }
  }

  lemma ClearRead(s0: Sys, s: Sys, lvl: nat, T: int, x: nat)
    requires Clearable(s0, lvl, T) && Cleared(s0, s, lvl, T, x) && x < TABLE_SIZE
    ensures 0 <= T < |s.m.phys| && x < |s.m.phys[T]| && s.m.phys[T][x] == At(s0.m, T, x)
  {
    assert At(s.m, T, x) == At(s0.m, T, x);
  }

  lemma DestroyedTemp(s: Sys, s': Sys, t: nat)
    requires Inv(s) && Destroyed(s, s', t)
    ensures TempPte(s'.m, s.c) == TempPte(s.m, s.c)
  {
    hide Cnt, Ent, Leaf, Slot, Tables, Maps, Exact, Forest;
  }
}
