/** The eager machine: memory as the tasks would have it if fork copied every page at once. */
module Effects {
  import opened Mmu
  import opened PageTree
  import opened Memory
  import opened Teardown
  import opened Sharing
  import opened Views
  import opened CopyOnWrite

  /** What one step of the system means to the tasks. */
  datatype Effect =
    | Quiet
    | Cloned(parent: nat, child: nat)
    | Ended(slot: nat)
    | Poked(slot: nat, v: Vpage, off: Index, word: Word)

  /** The step on the eager machine: fork copies, exit erases, a store changes one word of one page
      of one task. */
  function Eager(mem: Path -> Option<Cell>, e: Effect): Path -> Option<Cell> {
    match e
    case Quiet => mem
    case Cloned(t, c) => (q: Path) => if q.t == c then mem(Path(t, q.v)) else mem(q)
    case Ended(t) => (q: Path) => if q.t == t then None else mem(q)
    case Poked(t, v, off, word) => (q: Path) => if q == Path(t, v) then Poke(mem(q), off, word) else mem(q)
  }

  function Poke(c: Option<Cell>, off: Index, word: Word): Option<Cell> {
    if c.Some? && off < |c.value.data| then Some(c.value.(data := c.value.data[off := word])) else c
  }

  function Seen(m: Mem): Path -> Option<Cell> { (q: Path) => View(m, q) }

  /** Memory has changed for the tasks exactly as the eager machine says. */
  ghost predicate Means(m: Mem, m': Mem, e: Effect) {
    && SameShape(m, m')
    && forall q: Path :: InTree(m, q) ==> View(m', q) == Eager(Seen(m), e)(q)
  }

  lemma QuietMeans(m: Mem, m': Mem)
    requires SameShape(m, m') && SameViews(m, m')
    ensures Means(m, m', Quiet)
  {
    hide View;
  }

  lemma ForkedMeans(s: Sys, s': Sys, t: nat, c: nat)
    requires Inv(s) && Forked(s, s', t, c)
    ensures Means(s.m, s'.m, Cloned(t, c))
  {
    hide View, Pte, Inv, Slot, Tables;
    forall q: Path | InTree(s.m, q) ensures View(s'.m, q) == Eager(Seen(s.m), Cloned(t, c))(q) {
      if q.t == c { assert View(s'.m, Path(c, q.v)) == View(s.m, Path(t, q.v)); }
    }
  }

  lemma DestroyedMeans(s: Sys, s': Sys, t: nat)
    requires Inv(s) && Destroyed(s, s', t)
    ensures Means(s.m, s'.m, Ended(t))
  {
    hide View, Pte, Inv, Slot, Tables, Maps;
    forall q: Path | InTree(s.m, q) ensures View(s'.m, q) == if q.t == t then None else View(s.m, q) {
      DestroyedView(s, s', t, q);
    }
  }

  /** A store through a writable entry is seen by nobody else: the page is mapped only there. */
  lemma StoreMeans(s: Sys, q: Path, off: Index, word: Word)
    requires Fine(s) && InTree(s.m, q) && Pte(s.m, q).p && Pte(s.m, q).w
    ensures var p := Pte(s.m, q).ppn; p < |s.m.phys| && |s.m.phys[p]| == TABLE_SIZE
    ensures var s' := s.(m := SetWord(s.m, Pte(s.m, q).ppn, off, word));
            && Fine(s') && Means(s.m, s'.m, Poked(q.t, q.v, off, word)) && TempPte(s'.m, s.c) == TempPte(s.m, s.c)
  {
    hide Leaf, Cnt, Ent, Slot, Maps, Once, Tables, Pte, KernelHalf, Forest;
    PteTarget(s, q);
    var p := Pte(s.m, q).ppn;
    var m' := SetWord(s.m, p, off, word);
    assert m' == SetPage(s.m, p, s.m.phys[p][off := word]);
    DataInv(s, p, s.m.phys[p][off := word]);
    forall r: Path | InTree(s.m, r)
      ensures View(m', r) == if r == q then Poke(View(s.m, q), off, word) else View(s.m, r)
    {
      assert Pte(m', r) == Pte(s.m, r);
      if r != q && Pte(s.m, r).p { StoreElsewhere(s, q, r); }
    }
    assert Path(q.t, q.v) == q;
    assert s.c.kpt in s.c.boot by { BootTemp(s); }
  }

  lemma BootTemp(s: Sys)
    requires Inv(s)
    ensures s.c.kpt in s.c.boot
  {
  }

  lemma StoreElsewhere(s: Sys, q: Path, r: Path)
    requires Fine(s) && InTree(s.m, q) && Pte(s.m, q).p && Pte(s.m, q).w && InTree(s.m, r) && r != q && Pte(s.m, r).p
    ensures Pte(s.m, r).ppn != Pte(s.m, q).ppn
  {
    if Pte(s.m, r).ppn == Pte(s.m, q).ppn {
      MeetIsEqual(q, r);
      TwoLeavesCounted(s.m, 5, TOP, q, r);
    }
  }
}
