/** What the tasks see of memory, and what each kernel operation does to it. */
module Views {
  import opened Mmu
  import opened PageTree
  import opened Memory
  import opened Teardown
  import opened Sharing

  /** One virtual page as its task sees it: contents, and whether the task may write it, at once or
      after a copy-on-write fault. */
  datatype Cell = Cell(data: seq<Word>, writable: bool, user: bool)

  function PageOf(m: Mem, p: nat): seq<Word> {
    if p < |m.phys| then m.phys[p] else []
  }

  function View(m: Mem, q: Path): Option<Cell> {
    var e := Pte(m, q);
    if e.p then Some(Cell(PageOf(m, e.ppn), e.w || e.cow, e.u)) else None
  }

  ghost predicate SameViews(m: Mem, m': Mem) {
    forall q: Path :: InTree(m, q) ==> View(m', q) == View(m, q)
  }

  /** Entries that differ at most in W and COW, over pages with the same contents, look alike. */
  lemma SameView(m: Mem, m': Mem, q: Path)
    requires Pte(m', q) == Pte(m, q) || Pte(m', q) == Shared(Pte(m, q))
    requires Pte(m, q).p ==> PageOf(m', Pte(m, q).ppn) == PageOf(m, Pte(m, q).ppn)
    ensures View(m', q) == View(m, q)
  {
  }

  lemma KeptPage(s: Sys, s': Sys, q: Path)
    requires Inv(s) && Kept(s, s') && InTree(s.m, q) && Pte(s.m, q).p
    ensures PageOf(s'.m, Pte(s.m, q).ppn) == PageOf(s.m, Pte(s.m, q).ppn)
  {
    hide Leaf, Cnt, Ent, Pte;
    PteTarget(s, q);
  }

  /** However far a fork has gone, nobody but the child sees a difference. */
  lemma ProgressView(s: Sys, s': Sys, t: nat, c: nat, q: Path)
    requires Inv(s) && Progress(s, s', t, c) && InTree(s.m, q) && q.t != c
    ensures View(s'.m, q) == View(s.m, q)
  {
    hide Leaf, Cnt, Ent, Inv, Pte, Node;
    if Pte(s.m, q).p { KeptPage(s, s', q); }
    SameView(s.m, s'.m, q);
  }

  /** After a complete walk the child sees what the parent sees. */
  lemma CopiedView(s: Sys, s': Sys, c: nat, q: Path)
    requires Inv(s) && Progress(s, s', q.t, c) && Copied(s.m, s'.m, c, q, 4, USER_SLOTS) && InTree(s.m, q)
    ensures View(s'.m, Path(c, q.v)) == View(s.m, q)
    ensures Pte(s'.m, Path(c, q.v)) == Pte(s'.m, q) == Shared(Pte(s.m, q))
  {
    hide Leaf, Cnt, Ent, Pte, Node, Exact, Forest, KernelHalf;
    assert Within(q, q.v, 4, USER_SLOTS);
    if Pte(s.m, q).p { KeptPage(s, s', q); }
  }

  lemma SamePagesView(s: Sys, s': Sys, q: Path)
    requires Inv(s) && SamePages(s, s') && InTree(s.m, q) && Pte(s'.m, q) == Pte(s.m, q)
    ensures View(s'.m, q) == View(s.m, q)
  {
    hide Leaf, Cnt, Ent, Pte, Forest, KernelHalf;
    if Pte(s.m, q).p { PteTarget(s, q); }
  }

  // ------------------------------------------------------------------------
  // sys_fork

  /** The task in slot `t` has begun to fork into the slot `c`, so far without an address space:
      nothing has changed for anybody else, and nothing has been freed. */
  ghost predicate Branched(s: Sys, s': Sys, t: nat, c: nat) {
    && t != c && c < |s.m.roots| && s.m.roots[c] < 0 && |s'.m.roots| == |s.m.roots|
    && s'.m.roots == s.m.roots[c := s'.m.roots[c]]
    && Kept(s, s')
    && (forall u: nat, p: int, leaf: bool :: u < |s.m.roots| && u != c ==>
          Slot(s'.m, u, p, leaf) == Slot(s.m, u, p, leaf))
    && (forall q: Path :: InTree(s.m, q) && q.t != c ==> View(s'.m, q) == View(s.m, q))
  }

  /** The fork is complete: parent and child have the same translations, the parent's writable
      pages have become copy-on-write in both, and the child sees the parent's memory. */
  ghost predicate Forked(s: Sys, s': Sys, t: nat, c: nat) {
    && Branched(s, s', t, c) && s'.m.roots[c] >= 0
    && (forall v: Vpage :: v.i4 < s.m.width ==>
          Pte(s'.m, Path(c, v)) == Pte(s'.m, Path(t, v)) == Shared(Pte(s.m, Path(t, v))))
    && (forall v: Vpage :: v.i4 < s.m.width ==> View(s'.m, Path(c, v)) == View(s.m, Path(t, v)))
  }

  lemma NewView(s: Sys, s': Sys, c: nat, q: Path)
    requires Inv(s) && NewSpace(s, s', c) && InTree(s.m, q)
    ensures View(s'.m, q) == View(s.m, q) && Pte(s'.m, q) == Pte(s.m, q)
  {
    hide Leaf, Cnt, Ent, Pte, Inv, View, Slot;
    SamePagesView(s, s', q);
  }

  lemma BranchedBy(s: Sys, s1: Sys, s2: Sys, t: nat, c: nat)
    requires Inv(s) && Inv(s1) && t != c && c < |s.m.roots| && s.m.roots[c] < 0 && NewSpace(s, s1, c)
    requires Progress(s1, s2, t, c)
    ensures Branched(s, s2, t, c) && s2.m.roots[c] >= 0
  {
    hide Leaf, Cnt, Ent, Pte, Inv, View, Slot, Kept;
    NewKept(s, s1, c);
    assert Kept(s1, s2);
    KeptTrans(s, s1, s2);
    forall q: Path | InTree(s.m, q) && q.t != c ensures View(s2.m, q) == View(s.m, q) {
      NewView(s, s1, c, q);
      ProgressView(s1, s2, t, c, q);
    }
  }

  lemma ForkedBy(s: Sys, s1: Sys, s2: Sys, t: nat, c: nat, v0: Vpage)
    requires Inv(s) && Inv(s1) && t != c && t < |s.m.roots| && c < |s.m.roots| && s.m.roots[c] < 0 && NewSpace(s, s1, c)
    requires Progress(s1, s2, t, c) && Copied(s1.m, s2.m, c, Path(t, v0), 4, USER_SLOTS)
    ensures Forked(s, s2, t, c)
  {
    hide Leaf, Cnt, Ent, Pte, Inv, View, Slot, Kept, NewSpace, Progress, Branched, Copied;
    BranchedBy(s, s1, s2, t, c);
    NewShape(s, s1, c);
    forall v: Vpage | v.i4 < s.m.width
      ensures Pte(s2.m, Path(c, v)) == Pte(s2.m, Path(t, v)) == Shared(Pte(s.m, Path(t, v)))
      ensures View(s2.m, Path(c, v)) == View(s.m, Path(t, v))
    {
      CopiedFrom(s1.m, s2.m, c, Path(t, v0), Path(t, v));
      CopiedView(s1, s2, c, Path(t, v));
      NewView(s, s1, c, Path(t, v));
    }
  }

  lemma NewShape(s: Sys, s1: Sys, c: nat)
    requires NewSpace(s, s1, c)
    ensures SameShape(s.m, s1.m)
  {
  }

  /** At the top level it does not matter along which page the walk is described. */
  lemma CopiedFrom(m: Mem, m': Mem, c: nat, q: Path, r: Path)
    requires Copied(m, m', c, q, 4, USER_SLOTS) && q.t == r.t
    ensures Copied(m, m', c, r, 4, USER_SLOTS)
  {
    hide Pte;
    forall v: Vpage ensures Within(q, v, 4, USER_SLOTS) <==> Within(r, v, 4, USER_SLOTS) {}
  }

  /** Destroying the child, after a fork that failed or one that succeeded, gives everything back. */
  lemma ForkUndone(s: Sys, s': Sys, s'': Sys, t: nat, c: nat)
    requires Inv(s) && Inv(s') && Inv(s'') && Branched(s, s', t, c) && Destroyed(s', s'', c)
    requires s.m.roots[c] == -1
    ensures Restored(s, s'') && SameViews(s.m, s''.m)
  {
    hide Leaf, Cnt, Ent, Pte, Inv, View, Slot, Tables, Maps;
    forall u: nat, p: int, leaf: bool | u < |s.m.roots| ensures Slot(s''.m, u, p, leaf) == Slot(s.m, u, p, leaf) {
      if u == c { EmptySlot(s.m, c, p, leaf); EmptySlot(s''.m, c, p, leaf); }
    }
    forall p: int ensures Limbo(s'', p) <==> Limbo(s, p) {
      DestroyedUse(s', s'', c, p);
    }
    UndoneTemp(s, s', s'', c);
    assert s''.m.roots == s.m.roots;
    SameSlotsRestore(s, s'');
    forall q: Path | InTree(s.m, q) ensures View(s''.m, q) == View(s.m, q) {
      DestroyedView(s', s'', c, q);
      if q.t == c { EmptyView(s.m, q); }
    }
  }

  lemma UndoneTemp(s: Sys, s': Sys, s'': Sys, c: nat)
    requires Inv(s) && Kept(s, s') && Destroyed(s', s'', c)
    ensures TempPte(s''.m, s.c) == TempPte(s.m, s.c)
  {
    hide Leaf, Cnt, Ent, Slot, Tables, Maps, Exact, Forest;
    assert s.c.kpt in s.c.boot;
  }

  lemma EmptySlot(m: Mem, t: nat, p: int, leaf: bool)
    requires t < |m.roots| && m.roots[t] < 0
    ensures Slot(m, t, p, leaf) == 0
  {
  }

  lemma EmptyView(m: Mem, q: Path)
    requires q.t < |m.roots| && m.roots[q.t] < 0
    ensures View(m, q) == None
  {
  }

  /** Nobody but the destroyed task sees a difference. */
  lemma DestroyedView(s: Sys, s': Sys, t: nat, q: Path)
    requires Inv(s) && Destroyed(s, s', t) && InTree(s.m, q)
    ensures View(s'.m, q) == if q.t == t then None else View(s.m, q)
  {
    hide Leaf, Cnt, Ent, Pte, Inv, Slot, Tables, Maps;
    if q.t != t { SamePagesView(s, s', q); }
  }

  /** Destroying a task cannot give a writable page a second mapping. */
  lemma DestroyedSole(s: Sys, s': Sys, t: nat)
    requires Fine(s) && Inv(s') && Destroyed(s, s', t)
    ensures Fine(s')
  {
    hide Leaf, Cnt, Ent, Slot, Tables, Exact, Forest, KernelHalf, Maps;
    forall q: Path | InTree(s'.m, q) && Pte(s'.m, q).p && Pte(s'.m, q).w ensures Maps(s'.m, Pte(s'.m, q).ppn) == 1 {
      assert Pte(s'.m, q) == Pte(s.m, q);
      PteTarget(s', q);
    }
  }
}
