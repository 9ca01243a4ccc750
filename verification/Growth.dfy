/** Which tables an address space has, and which it needs. */
module Growth {
  import opened Mmu
  import opened PageTree
  import opened Memory
  import opened Sharing
  import opened Radix

  /** The virtual pages mapped in slot `t`. */
  ghost function MappedPages(m: Mem, t: nat): iset<Vpage> {
    iset v: Vpage | v.i4 < m.width && Pte(m, Path(t, v)).p
  }

  /** Every table of slot `t` below its PML4 holds a mapping. */
  ghost predicate Tight(m: Mem, t: nat) {
    forall v: Vpage, l: nat :: v.i4 < m.width && 1 <= l <= 3 ==>
      (Node(m, 5, TOP, Path(t, v), l).Some? <==> Used(MappedPages(m, t), v, l))
  }

  /** The tables on the way to `q` down to level `k` have been added to its slot, and no others. */
  ghost predicate Sprouted(m: Mem, m': Mem, q: Path, k: nat) {
    forall v: Vpage, l: nat :: v.i4 < m.width && 1 <= l <= 3 ==>
      (Node(m', 5, TOP, Path(q.t, v), l).Some? <==>
       Node(m, 5, TOP, Path(q.t, v), l).Some? || (l >= k && Under(q.v, v, l)))
  }

  lemma SproutedRefl(m: Mem, q: Path)
    ensures Sprouted(m, m, q, 4)
  {
  }

  lemma MeetUnder(q: Path, r: Path, l: nat)
    requires 1 <= l <= 5
    ensures Meet(q, r, 5, l) <==> q.t == r.t && Under(q.v, r.v, l - 1)
  {
    assert Meet(q, r, 5, l) <==> q.t == r.t && Meet(q, r, 4, l);
    MeetUnfold(q, r, l);
    assert Idx(q, 4) == q.v.i4 && Idx(q, 3) == q.v.i3 && Idx(q, 2) == q.v.i2 && Idx(q, 1) == q.v.i1;
    assert Idx(r, 4) == r.v.i4 && Idx(r, 3) == r.v.i3 && Idx(r, 2) == r.v.i2 && Idx(r, 1) == r.v.i1;
  }

  /** The walk along `r` stops where the walk along `q` does. */
  lemma {:induction false} AbsentNode(m: Mem, lvl: nat, R: int, q: Path, l: nat, N: int, r: Path, k: nat)
    requires 1 <= k < l <= lvl && Meet(q, r, lvl, l) && Node(m, lvl, R, q, l) == Some(N) && !At(m, N, Idx(q, l)).p
    ensures Node(m, lvl, R, r, k) == None
  {
    if l < lvl {
      AbsentNode(m, lvl - 1, At(m, R, Idx(q, lvl)).ppn, q, l, N, r, k);
    }
  }

  lemma {:induction false} BlankNode(m: Mem, lvl: nat, Z: int, r: Path, k: nat)
    requires 1 <= k < lvl <= 4 && InTree(m, r) && Blank(m, lvl, Z)
    ensures Node(m, lvl, Z, r, k) == None
  {
  }

  /** A new, empty table of level `l - 1` adds itself and nothing else. */
  lemma HungNode(m: Mem, q: Path, l: nat, N: nat, Z: nat, e: Word, r: Path, k: nat)
    requires Once(m, 5, TOP, 0) && 2 <= l <= 4 && InTree(m, q) && InTree(m, r) && 1 <= k <= 3
    requires Node(m, 5, TOP, q, l) == Some(N)
    requires N < |m.phys| && Z < |m.phys| && N != Z && |m.phys[N]| == TABLE_SIZE && Tables(m, Z) == 0
    requires m.width <= TABLE_SIZE
    requires !At(m, N, Idx(q, l)).p && e.p && e.ppn == Z
    ensures Node(Hung(m, N, Idx(q, l), Z, e), 5, TOP, r, k).Some? <==>
            Node(m, 5, TOP, r, k).Some? || (k == l - 1 && Meet(q, r, 5, l))
  {
    hide Cnt, Ent, Leaf, Once, Node, Slot;
    var m1 := SetPage(m, Z, Zeros());
    SetPageSameBut(m, Z, Zeros());
    NonTable(m, m1, Z);
    SameOnce(m, m1);
    FrameNode(m, m1, 5, TOP, q, l);
    FrameNode(m, m1, 5, TOP, r, k);
    var m' := SetWord(m1, N, Idx(q, l), e);
    SetWordWrote(m1, N, Idx(q, l), e);
    UpdateNode(m1, m', 5, TOP, q, l, N, e, r, k);
    if k < l && Meet(q, r, 5, l) {
      AbsentNode(m, 5, TOP, q, l, N, r, k);
      if k < l - 1 { BlankNode(m', l - 1, Z, r, k); } else { NodeSelf(m', l - 1, Z, r); }
    }
  }

  lemma NodeSelf(m: Mem, l: nat, Z: int, r: Path)
    ensures Node(m, l, Z, r, l) == Some(Z)
  {
  }

  lemma HungSprouts(m: Mem, q: Path, l: nat, N: nat, Z: nat, e: Word)
    requires Once(m, 5, TOP, 0) && 2 <= l <= 4 && InTree(m, q) && Node(m, 5, TOP, q, l) == Some(N)
    requires N < |m.phys| && Z < |m.phys| && N != Z && |m.phys[N]| == TABLE_SIZE && Tables(m, Z) == 0
    requires m.width <= TABLE_SIZE
    requires !At(m, N, Idx(q, l)).p && e.p && e.ppn == Z
    ensures Sprouted(m, Hung(m, N, Idx(q, l), Z, e), q, l - 1)
  {
    hide Cnt, Ent, Leaf, Once, Node, Slot, Hung;
    forall v: Vpage, k: nat | v.i4 < m.width && 1 <= k <= 3
      ensures Node(Hung(m, N, Idx(q, l), Z, e), 5, TOP, Path(q.t, v), k).Some? <==>
              Node(m, 5, TOP, Path(q.t, v), k).Some? || (k >= l - 1 && Under(q.v, v, k))
    {
      HungNode(m, q, l, N, Z, e, Path(q.t, v), k);
      MeetUnder(q, Path(q.t, v), l);
      if k >= l && Under(q.v, v, k) { SameNode(m, q, Path(q.t, v), l, k); }
    }
  }

  /** Walks that meet in a table find it together. */
  lemma SameNode(m: Mem, q: Path, r: Path, l: nat, k: nat)
    requires 1 <= l <= k <= 4 && q.t == r.t && Under(q.v, r.v, k) && Node(m, 5, TOP, q, l).Some?
    ensures Node(m, 5, TOP, r, k).Some?
  {
    NodeUp(m, 5, TOP, q, l, k);
    NodeMeet(m, 5, TOP, q, r, k);
  }

  lemma {:induction false} NodeUp(m: Mem, lvl: nat, R: int, q: Path, l: nat, k: nat)
    requires 1 <= l <= k <= lvl && Node(m, lvl, R, q, l).Some?
    ensures Node(m, lvl, R, q, k).Some?
  {
    if k < lvl {
      NodeUp(m, lvl - 1, At(m, R, Idx(q, lvl)).ppn, q, l, k);
    }
  }

  /** A table that is already there adds nothing. */
  lemma FoundSprouts(m: Mem, q: Path, l: nat)
    requires 1 <= l <= 3 && Node(m, 5, TOP, q, l).Some?
    ensures Sprouted(m, m, q, l)
  {
    hide Node;
    forall v: Vpage, k: nat | v.i4 < m.width && l <= k <= 3 && Under(q.v, v, k)
      ensures Node(m, 5, TOP, Path(q.t, v), k).Some?
    {
      SameNode(m, q, Path(q.t, v), l, k);
    }
  }

  lemma SproutedTrans(m: Mem, m1: Mem, m2: Mem, q: Path, k: nat)
    requires SameShape(m, m1) && 1 <= k <= 3 && Sprouted(m, m1, q, k + 1) && Sprouted(m1, m2, q, k)
    ensures Sprouted(m, m2, q, k)
  {
    hide Node;
  }

  /** The tables of slot `t` are where they were. */
  ghost predicate SameNodes(m: Mem, m': Mem, t: nat) {
    forall v: Vpage, l: nat :: v.i4 < m.width && 1 <= l <= 3 ==>
      Node(m', 5, TOP, Path(t, v), l) == Node(m, 5, TOP, Path(t, v), l)
  }

  lemma SproutedOn(m: Mem, m1: Mem, m2: Mem, q: Path)
    requires SameShape(m, m1) && Sprouted(m, m1, q, 1) && SameNodes(m1, m2, q.t)
    ensures Sprouted(m, m2, q, 1)
  {
    hide Node;
  }

  // ------------------------------------------------------------------------
  // Counting

  /** How many tables are missing on the way to `q` from its PML4 `r`. */
  function Missing(m: Mem, r: int, q: Path): nat
  {
    if Node(m, 4, r, q, 3).None? then 3
    else if Node(m, 4, r, q, 2).None? then 2
    else if Node(m, 4, r, q, 1).None? then 1
    else 0
  }

  lemma UsedUp(P: iset<Vpage>, v: Vpage, l: nat)
    requires Used(P, v, l)
    ensures Used(P, v, l + 1)
  {
    var w :| w in P && Under(v, w, l);
    assert Under(v, w, l + 1);
  }

  /** In a tight address space the tables missing on the way to a page are those it needs anew. */
  lemma MissingIsNew(m: Mem, r: int, q: Path)
    requires Tight(m, q.t) && q.t < |m.roots| && m.roots[q.t] == r >= 0 && q.v.i4 < m.width
    ensures Missing(m, r, q) == New(MappedPages(m, q.t), q.v)
  {
    hide Node, Used, MappedPages;
    var P := MappedPages(m, q.t);
    RootLeaf(m, r, q);
    assert Path(q.t, q.v) == q;
    assert Node(m, 5, TOP, q, 3).Some? <==> Used(P, q.v, 3);
    assert Node(m, 5, TOP, q, 2).Some? <==> Used(P, q.v, 2);
    assert Node(m, 5, TOP, q, 1).Some? <==> Used(P, q.v, 1);
    if Used(P, q.v, 1) { UsedUp(P, q.v, 1); }
    if Used(P, q.v, 2) { UsedUp(P, q.v, 2); }
    assert NewTo(P, q.v, 0) == 0;
    assert NewTo(P, q.v, 1) == if Used(P, q.v, 1) then 0 else 1;
    assert NewTo(P, q.v, 2) == NewTo(P, q.v, 1) + if Used(P, q.v, 2) then 0 else 1;
  }

  /** Mapping a page, with the tables on the way to it, keeps an address space tight. */
  lemma TightAdd(m: Mem, m': Mem, q: Path)
    requires Tight(m, q.t) && Sprouted(m, m', q, 1) && m'.width == m.width
    requires MappedPages(m', q.t) == MappedPages(m, q.t) + iset{q.v}
    ensures Tight(m', q.t)
  {
    hide Node, Used, MappedPages;
    var P := MappedPages(m, q.t);
    forall v: Vpage, l: nat | v.i4 < m.width && 1 <= l <= 3
      ensures Node(m', 5, TOP, Path(q.t, v), l).Some? <==> Used(P + iset{q.v}, v, l)
    {
      UsedAdd(P, q.v, v, l);
      assert Under(q.v, v, l) <==> Under(v, q.v, l);
    }
  }

  /** Setting one entry maps one page more. */
  lemma MappedAdd(m: Mem, m': Mem, q: Path, e: Word)
    requires InTree(m, q) && SameShape(m, m') && e.p
    requires forall r: Path :: InTree(m, r) ==> Pte(m', r) == if r == q then e else Pte(m, r)
    ensures MappedPages(m', q.t) == MappedPages(m, q.t) + iset{q.v}
  {
    hide Pte;
    forall v: Vpage ensures v in MappedPages(m', q.t) <==> v in MappedPages(m, q.t) || v == q.v {
      if v.i4 < m.width { assert InTree(m, Path(q.t, v)); }
    }
  }

  /** An empty address space. */
  lemma TightEmpty(m: Mem, t: nat)
    requires forall v: Vpage :: v.i4 < m.width ==> Pte(m, Path(t, v)) == ZERO
    requires forall v: Vpage :: v.i4 < m.width ==> Node(m, 5, TOP, Path(t, v), 3) == None
    ensures Tight(m, t) && MappedPages(m, t) == iset{} && TablesFor(MappedPages(m, t)) == 0
  {
    hide Pte, Node, TablesFor, Under;
    assert TablesFor(iset{}) == 0 by { NoTables(); }
    assert MappedPages(m, t) == iset{};
    forall v: Vpage, l: nat | v.i4 < m.width && 1 <= l <= 3 ensures Node(m, 5, TOP, Path(t, v), l) == None {
      if Node(m, 5, TOP, Path(t, v), l).Some? { NodeUp(m, 5, TOP, Path(t, v), l, 3); }
    }
  }

  lemma NoTables()
    ensures TablesFor(iset{}) == 0
  {
    TablesNone(Vpage(0, 0, 0, 0), 3, 0);
  }

  /** A new address space has no tables but its PML4. */
  lemma NewNoTables(s: Sys, s1: Sys, t: nat, v: Vpage)
    requires NewSpace(s, s1, t) && Inv(s1) && v.i4 < s1.m.width
    ensures Node(s1.m, 5, TOP, Path(t, v), 3) == None
  {
    hide Cnt, Ent, Leaf, Slot, KernelHalf, Exact;
    var q := Path(t, v);
    if Node(s1.m, 5, TOP, q, 3).Some? {
      SlotIs(s1.m, t, Node(s1.m, 5, TOP, q, 3).value);
      RootsApart(s1.m, q, 3, t);
      NodeCounted(s1.m, 5, TOP, q, 3);
    }
  }

  lemma SlotIs(m: Mem, t: nat, p: int)
    ensures Slot(m, t, p, false) == Ent(m, 5, At(m, TOP, t), p, false)
  {
  }

  lemma NewTight(s: Sys, s1: Sys, t: nat)
    requires NewSpace(s, s1, t) && Inv(s1)
    ensures Tight(s1.m, t) && MappedPages(s1.m, t) == iset{} && TablesFor(MappedPages(s1.m, t)) == 0
    ensures |s1.free| == |s.free| - 1
  {
    hide Pte, Node, Slot, Inv, Tight, MappedPages;
    forall v: Vpage | v.i4 < s1.m.width ensures Node(s1.m, 5, TOP, Path(t, v), 3) == None { NewNoTables(s, s1, t, v); }
    TightEmpty(s1.m, t);
  }

  // ------------------------------------------------------------------------
  // A budget of pages

  /** The free pages and the tables of the tight slot `c`, its PML4 apart, add up to `F`. */
  ghost predicate Budget(s: Sys, c: nat, F: nat) {
    Tight(s.m, c) && |s.free| + TablesFor(MappedPages(s.m, c)) == F
  }

  /** Mapping one page more takes exactly the tables it needs. */
  lemma BudgetAdd(s: Sys, s': Sys, q: Path, e: Word, F: nat)
    requires Budget(s, q.t, F) && InTree(s.m, q) && SameShape(s.m, s'.m) && e.p && Sprouted(s.m, s'.m, q, 1)
    requires forall r: Path :: InTree(s.m, r) ==> Pte(s'.m, r) == if r == q then e else Pte(s.m, r)
    requires |s'.free| == |s.free| - New(MappedPages(s.m, q.t), q.v)
    ensures Budget(s', q.t, F) && MappedPages(s'.m, q.t) == MappedPages(s.m, q.t) + iset{q.v}
  {
    hide Pte, Node, Tight, MappedPages, Sprouted, TablesFor, New;
    MappedAdd(s.m, s'.m, q, e);
    TightAdd(s.m, s'.m, q);
    TablesAdd(MappedPages(s.m, q.t), q.v);
  }

  /** What happens elsewhere does not concern the budget. */
  lemma BudgetSame(s: Sys, s': Sys, c: nat, F: nat)
    requires Budget(s, c, F) && |s'.free| == |s.free| && s'.m.width == s.m.width
    requires forall v: Vpage :: v.i4 < s.m.width ==> Pte(s'.m, Path(c, v)) == Pte(s.m, Path(c, v))
    requires forall v: Vpage, l: nat :: v.i4 < s.m.width && 1 <= l <= 3 ==>
               Node(s'.m, 5, TOP, Path(c, v), l) == Node(s.m, 5, TOP, Path(c, v), l)
    ensures Budget(s', c, F) && MappedPages(s'.m, c) == MappedPages(s.m, c)
  {
    hide Pte, Node, TablesFor, Used;
    assert MappedPages(s'.m, c) == MappedPages(s.m, c);
  }
}
