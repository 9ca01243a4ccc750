/** src/kernel/syscall.c */
module Syscall {
  import opened Mmu
  import opened PageTree
  import opened Queue
  import opened Memory
  import opened Machine
  import opened Teardown
  import opened Sharing
  import opened Views
  import opened Scheduling
  import opened Effects
  import opened Radix
  import opened Growth
  import opened Map
  import opened Task

  /** Shares the page mapped at `va` in slot `t` with slot `c`; `perm` are the flags of its entry. */
  method SharePage(k: Machine, c: nat, t: nat, va: nat, perm: Word, ghost F: nat) returns (ok: bool)
    requires k.Valid() && Fine(k.S()) && t < TASK_MAX_CNT && c < TASK_MAX_CNT && t != c && k.pml4[t] >= 0
    requires k.pml4[c] >= 0
    requires PageOfAddr(va).i4 < USER_SLOTS && perm == Pte(k.S().m, PathOf(t, va)) && perm.p
    requires Pte(k.S().m, PathOf(c, va)) == ZERO && Sharable(k.S(), t, c, F)
    modifies k`phys, k`ref, k.free.Repr()
    ensures k.Valid() && Fine(k.S()) && Progress(old(k.S()), k.S(), t, c)
    ensures ok ==> SharedOne(old(k.S().m), k.S().m, t, c, PageOfAddr(va)) && Sharable(k.S(), t, c, F)
    ensures !ok ==> F < TablesFor(MappedPages(old(k.S().m), t))
  {
    hide Inv, Sole, Progress, Retargeted, Grown, Node, Leaf, Pte, Linked, StoredAt, SharedOne, Exact, PageOfAddr;
    hide Sharable, TablesFor, MappedPages, Sprouted, Missing;
    ghost var s, q := k.S(), PathOf(t, va);
    RootLeaf(s.m, k.pml4[t], q);
    ShareTarget(s, q);
    var p, _ := PageLookup(k, k.pml4[t], va, t);
    assert p != NULL;
    if perm.w || perm.cow {
      var perm' := perm.(cow := true, w := false);
      ok := PageInsert(k, k.pml4[t], p, va, perm', t);
      assert ok;
      assert perm'.(ppn := p, p := true) == Shared(perm);
      ghost var s1 := k.S();
      ShareRemap(s, s1, k.pml4[t], q, c);
      RemapBudget(s, s1, k.pml4[t], q, c, F);
      ProgressShape(s, s1, t, c);
      RootLeaf(s1.m, k.pml4[c], PathOf(c, va));
      ok := PageInsert(k, k.pml4[c], p, va, perm', c);
      ShareOutcome(s, s1, k.S(), t, c, PageOfAddr(va), ok);
      ShareBudget(s1, k.S(), k.pml4[c], t, PathOf(c, va), Shared(perm), F, ok);
    } else {
      ProgressRefl(s, t, c);
      RootLeaf(s.m, k.pml4[c], PathOf(c, va));
      ok := PageInsert(k, k.pml4[c], p, va, perm, c);
      ShareOutcome(s, s, k.S(), t, c, PageOfAddr(va), ok);
      ShareBudget(s, k.S(), k.pml4[c], t, PathOf(c, va), Shared(perm), F, ok);
    }
  }

  /** What is mapped in the child is mapped in the parent, and the pages the child has taken for its
      tables are exactly those it needs; `F` were free when it had only its PML4. */
  ghost predicate Sharable(s: Sys, t: nat, c: nat, F: nat) {
    Budget(s, c, F) && MappedPages(s.m, c) <= MappedPages(s.m, t)
  }

  /** Changing the flags of the parent's entry does not concern the child. */
  lemma RemapBudget(s: Sys, s1: Sys, r: int, q: Path, c: nat, F: nat)
    requires Fine(s) && Root(s, r, q) && !KernelPath(q) && c != q.t && c < |s.m.roots| && Pte(s.m, q).p
    requires StoredAt(s, s1, r, q, Shared(Pte(s.m, q))) && Sharable(s, q.t, c, F)
    requires forall w: Path :: InTree(s.m, w) ==> Pte(s1.m, w) == if w == q then Shared(Pte(s.m, q)) else Pte(s.m, w)
    ensures Sharable(s1, q.t, c, F) && MappedPages(s1.m, q.t) == MappedPages(s.m, q.t)
  {
    hide Cnt, Ent, Leaf, Node, Pte, KernelHalf, Exact, Budget;
    var N, e := Node(s.m, 4, r, q, 1).value, Shared(Pte(s.m, q));
    RootLeaf(s.m, r, q);
    WalkHolds(s, r, q);
    assert s1 == s.(m := SetWord(s.m, N, q.v.i1, e));
    SetWordWrote(s.m, N, q.v.i1, e);
    forall v: Vpage, l: nat | v.i4 < s.m.width && 1 <= l <= 3
      ensures Node(s1.m, 5, TOP, Path(c, v), l) == Node(s.m, 5, TOP, Path(c, v), l)
    {
      LeafWriteNode(s.m, s1.m, q, N, e, Path(c, v), l);
    }
    forall v: Vpage | v.i4 < s.m.width
      ensures Pte(s1.m, Path(c, v)) == Pte(s.m, Path(c, v)) && Pte(s1.m, Path(q.t, v)).p == Pte(s.m, Path(q.t, v)).p
    {
      assert InTree(s.m, Path(c, v)) && InTree(s.m, Path(q.t, v));
    }
    BudgetSame(s, s1, c, F);
    assert MappedPages(s1.m, q.t) == MappedPages(s.m, q.t);
  }

  /** The child's entry takes exactly the tables it needs, and fails only if they are too many. */
  lemma ShareBudget(s: Sys, s': Sys, r: int, t: nat, q: Path, e: Word, F: nat, ok: bool)
    requires Inv(s) && Root(s, r, q) && InTree(s.m, q) && t != q.t && t < |s.m.roots| && e.p
    requires Sharable(s, t, q.t, F) && !Pte(s.m, q).p && Pte(s.m, Path(t, q.v)).p
    requires ok <==> |s.free| >= Missing(s.m, r, q)
    requires ok ==> Retargeted(s, s', q, e) && Sprouted(s.m, s'.m, q, 1) && |s'.free| == |s.free| - Missing(s.m, r, q)
    ensures ok ==> Sharable(s', t, q.t, F)
    ensures !ok ==> F < TablesFor(MappedPages(s.m, t))
  {
    hide Inv, Node, Pte, Tight, Sprouted, Missing, TablesFor, New, Slot, Maps, Tables;
    MissingIsNew(s.m, r, q);
    var P, Q := MappedPages(s.m, q.t), MappedPages(s.m, t);
    assert q.v in Q;
    if ok {
      BudgetAdd(s, s', q, e, F);
      forall v: Vpage | v in Q ensures v in MappedPages(s'.m, t) { assert InTree(s.m, Path(t, v)); }
    } else {
      TablesAdd(P, q.v);
      TablesMonotone(P + iset{q.v}, Q);
    }
  }

  lemma ProgressMapped(s: Sys, s': Sys, t: nat, c: nat)
    requires Progress(s, s', t, c) && t < |s.m.roots|
    ensures MappedPages(s'.m, t) == MappedPages(s.m, t)
  {
    hide Node, Pte, Slot, Kept;
    assert s'.m.width == s.m.width by { ProgressShape(s, s', t, c); }
    forall v: Vpage | v.i4 < s.m.width ensures Pte(s'.m, Path(t, v)).p == Pte(s.m, Path(t, v)).p {
      assert InTree(s.m, Path(t, v));
    }
    assert MappedPages(s'.m, t) == MappedPages(s.m, t);
  }

  lemma ShareTarget(s: Sys, q: Path)
    requires Fine(s) && InTree(s.m, q) && Pte(s.m, q).p
    ensures InUse(s, Pte(s.m, q).ppn) && Tables(s.m, Pte(s.m, q).ppn) == 0 && s.m.width == USER_SLOTS
    ensures forall r: int :: Root(s, r, q) ==> Node(s.m, 4, r, q, 1).Some?
  {
    PteTarget(s, q);
    forall r: int | Root(s, r, q) ensures Node(s.m, 4, r, q, 1).Some? {
      if Node(s.m, 4, r, q, 1).None? { NoNodeNoLeaf(s.m, 4, r, q); RootLeaf(s.m, r, q); }
    }
  }

  /** The nested loops of sys_fork, one level at a time: everything mapped below the table `T` of
      level `lvl`, which the parent has on the way to `v`, is shared with the child. */
  method ShareTable(k: Machine, c: nat, t: nat, lvl: nat, T: nat, v: Vpage, ghost F: nat) returns (ok: bool)
    requires k.Valid() && Fine(k.S()) && t < TASK_MAX_CNT && c < TASK_MAX_CNT && t != c && k.pml4[t] >= 0
    requires k.pml4[c] >= 0
    requires 1 <= lvl <= 4 && v.i4 < USER_SLOTS && Node(k.S().m, 5, TOP, Path(t, v), lvl) == Some(T)
    requires Vacant(k.S().m, c, Path(t, v), lvl) && Sharable(k.S(), t, c, F)
    modifies k`phys, k`ref, k.free.Repr()
    ensures k.Valid() && Fine(k.S()) && Progress(old(k.S()), k.S(), t, c)
    ensures ok ==> Copied(old(k.S().m), k.S().m, c, Path(t, v), lvl, if lvl == 4 then USER_SLOTS else TABLE_SIZE)
    ensures ok ==> Sharable(k.S(), t, c, F)
    ensures !ok ==> F < TablesFor(MappedPages(old(k.S().m), t))
    decreases lvl
  {
    hide Fine, Progress, Copying, Copied, Vacant, SharedOne, Node, Pte, Linked, At, PageOfAddr, AddrOfPage;
    hide Sharable, TablesFor, MappedPages;
    ghost var s0, q := k.S(), Path(t, v);
    CopyBegin(s0, c, q, lvl, T);
    var bound := if lvl == 4 then USER_SLOTS else TABLE_SIZE;
    var x := 0;
    while x < bound
      invariant x <= bound && k.Valid() && Copying(s0, k.S(), c, q, lvl, T, x) && Sharable(k.S(), t, c, F)
    {
      ghost var s := k.S();
      CopyingMapped(s0, s, c, q, lvl, T, x);
      CopyRead(s0, s, c, q, lvl, T, x);
      CopyRoots(s0, s, c, q, lvl, T, x);
      var e := k.phys[T][x];
      if !e.p {
        CopyOnSkip(s0, s, c, q, lvl, T, x);
      } else if lvl == 1 {
        AddrRoundTrip(SetIdx(v, 1, x));
        ok := SharePage(k, c, t, AddrOfPage(SetIdx(v, 1, x)), e, F);
        if !ok {
          CopyProgress(s0, s, k.S(), c, q, lvl, T, x);
          return;
        }
        CopyOnLeaf(s0, s, k.S(), c, q, T, x);
      } else {
        ok := ShareTable(k, c, t, lvl - 1, e.ppn, SetIdx(v, lvl, x), F);
        if !ok {
          CopyProgress(s0, s, k.S(), c, q, lvl, T, x);
          return;
        }
        CopyOnBelow(s0, s, k.S(), c, q, lvl, T, x);
      }
      x := x + 1;
    }
    SharedAll(s0, k.S(), c, q, lvl, T, bound);
    ok := true;
  }

  lemma CopyingMapped(s0: Sys, s: Sys, c: nat, q: Path, lvl: nat, T: int, x: nat)
    requires Copying(s0, s, c, q, lvl, T, x)
    ensures MappedPages(s.m, q.t) == MappedPages(s0.m, q.t)
  {
    hide Progress, Copied, Vacant, Node, Pte, Fine;
    ProgressMapped(s0, s, q.t, c);
  }

  lemma SharedAll(s0: Sys, s: Sys, c: nat, q: Path, lvl: nat, T: int, x: nat)
    requires Copying(s0, s, c, q, lvl, T, x)
    ensures Fine(s) && Progress(s0, s, q.t, c) && Copied(s0.m, s.m, c, q, lvl, x)
  {
  }

  /** The conversion of a task id to the `int` that sys_fork returns. */
  function ToInt(id: nat): int {
    if id < 0x8000_0000 then id else id - 0x1_0000_0000
  }

  /** The child's record after a successful fork. */
  ghost predicate ForkedProc(p: Proc, p': Proc, t: nat) {
    && |p.free| > 0 && p.free[0] < |p.state| == |p.id| == |p.ctx| && t < |p.ctx|
    && var c, n := p.free[0], (p.lastId + 1) % 0x1_0000_0000;
    p' == p.(free := p.free[1..], state := p.state[c := READY], id := p.id[c := n],
        ctx := p.ctx[c := p.ctx[t].(rax := 0)], lastId := n)
  }

  /** The records after a fork that was undone: only the id counter and the contents of the free
      slot show that it was tried. */
  ghost predicate UnforkedProc(p: Proc, p': Proc, t: nat) {
    && |p.free| > 0 && p.free[0] < |p.state| == |p.id| == |p.ctx| && t < |p.ctx|
    && var c, n := p.free[0], (p.lastId + 1) % 0x1_0000_0000;
    p' == p.(id := p.id[c := n], ctx := p.ctx[c := p.ctx[t].(rax := 0)], lastId := n)
  }

  /** How many pages a fork of slot `t` takes: a PML4, and a table for each of the parent's tables
      that holds a mapping. */
  ghost function ForkPages(m: Mem, t: nat): nat { 1 + TablesFor(MappedPages(m, t)) }

  /** The ways a fork can end, by what is free before it. Without a free slot nothing happens; without
      any page the slot is lost; with too few pages everything is given back and nobody sees a
      difference; otherwise the child, in the first free slot, sees the parent's memory. */
  ghost predicate ForkOutcome(s: Sys, p: Proc, s': Sys, p': Proc, t: nat, c: int) {
    if |p.free| == 0 then c == NULL && s' == s && p' == p
    else if |s.free| == 0 then c == NULL && s' == s && Claimed(p, p')
    else if |s.free| < ForkPages(s.m, t) then
      c == NULL && Restored(s, s') && SameViews(s.m, s'.m) && UnforkedProc(p, p', t)
    else
      c == p.free[0] && Forked(s, s', t, c) && ForkedProc(p, p', t) && |s'.free| == |s.free| - ForkPages(s.m, t)
  }

  /** Forks the running task in slot `t`; `c` is the child's slot or NULL. */
  method SysFork(k: Machine, t: nat) returns (ret: int, ghost c: int)
    requires k.Ok() && t < TASK_MAX_CNT && k.pml4[t] >= 0 && k.cr3 == k.pml4[t] && k.current == t
    modifies k`phys, k`ref, k.free.Repr(), k`pml4, k`state, k`id, k`ctx, k`lastId, k`current, k`cr3, k.freeTasks.Repr()
    ensures k.Ok()
    ensures ForkOutcome(old(k.S()), old(k.P()), k.S(), k.P(), t, c) && (c == NULL ==> ret == -1)
    ensures (c != NULL ==> 0 <= c < |k.id| && ret == ToInt(k.id[c]))
  {
    hide Inv, Sole, Linked, SlotsOk, Claimed, NewSpace, Restored, Forked, SameViews, ForkedProc, UnforkedProc;
    hide TempPte;
    ghost var s, p := k.S(), k.P();
    if |p.free| > 0 { FreeSlotRoot(k.pml4, p); }
    var child := TaskNew(k);
    if child == NULL {
      return -1, NULL;
    }
    ghost var p1 := k.P();
    ForkReady(s, k.S(), t, child);
    ForkProcs(p, p1, k.pml4, t);
    k.ctx := k.ctx[child := k.ctx[t].(rax := 0)];
    var ok := ForkInto(k, t, child, s);
    if !ok {
      UndoneProcs(p, p1, k.P(), t, k.img.kroot);
      return -1, NULL;
    }
    return ToInt(k.id[child]), child;
  }

  /** The walk over the parent's address space and what follows it; `s` is the state before the
      child had an address space. */
  method ForkInto(k: Machine, t: nat, child: nat, ghost s: Sys) returns (ok: bool)
    requires k.Ok() && t < TASK_MAX_CNT && child < TASK_MAX_CNT && t != child && k.pml4[t] >= 0 && k.pml4[child] >= 0
    requires k.cr3 == k.pml4[t] && k.current == t && k.cr3 != k.pml4[child] && k.state[child] == DONT_RUN
    requires Fine(s) && NewSpace(s, k.S(), child) && child < |s.m.roots| && t < |s.m.roots| && s.m.roots[child] == -1
    modifies k`phys, k`ref, k.free.Repr(), k`pml4, k`state, k`current, k`cr3, k.freeTasks.Repr()
    ensures k.Ok() && ok == (|s.free| >= ForkPages(s.m, t))
    ensures ok ==> Forked(s, k.S(), t, child) && |k.free.elems| == |s.free| - ForkPages(s.m, t)
    ensures ok ==> k.P() == old(k.P()).(state := old(k.state)[child := READY])
    ensures !ok ==> Restored(s, k.S()) && SameViews(s.m, k.S().m)
    ensures !ok ==>
              k.P() == old(k.P()).(state := old(k.state)[child := FREE], free := [child] + old(k.freeTasks.elems))
  {
    hide Inv, Sole, Linked, SlotsOk, NewSpace, Progress, Copied, Restored, Branched, Forked, SameViews, Destroyed;
    hide Vacant, Node, TempPte, Sharable, TablesFor, MappedPages;
    ghost var s1 := k.S();
    ForkVacant(s, s1, t, child);
    ghost var F := |s1.free|;
    ForkSharable(s, s1, t, child);
    ok := ShareTable(k, child, t, 4, k.pml4[t], Vpage(0, 0, 0, 0), F);
    ProgressTemp(s1, k.S(), t, child);
    if ok {
      ForkedBy(s, s1, k.S(), t, child, Vpage(0, 0, 0, 0));
      SameWidth(s, k.S());
      ForkSpent(s, k.S(), t, child, F);
      ReadySlot(k.pml4, k.P(), child);
      k.state := k.state[child := READY];
    } else {
      BranchedBy(s, s1, k.S(), t, child);
      ghost var s2 := k.S();
      TaskDestroy(k, child);
      ForkUndone(s, s2, k.S(), t, child);
    }
  }

  /** A child with nothing but its PML4. */
  lemma ForkSharable(s: Sys, s1: Sys, t: nat, c: nat)
    requires Inv(s) && Inv(s1) && NewSpace(s, s1, c) && t < |s.m.roots| && c < |s.m.roots|
    ensures Sharable(s1, t, c, |s1.free|) && |s1.free| == |s.free| - 1
    ensures MappedPages(s1.m, t) == MappedPages(s.m, t)
  {
    hide Inv, Pte, View, Slot, Tight, TablesFor, Node;
    NewTight(s, s1, c);
    NewShape(s, s1, c);
    forall v: Vpage | v.i4 < s.m.width ensures Pte(s1.m, Path(t, v)) == Pte(s.m, Path(t, v)) {
      NewView(s, s1, c, Path(t, v));
    }
    assert MappedPages(s1.m, t) == MappedPages(s.m, t);
  }

  /** A complete child has as many tables below its PML4 as the parent has with mappings. */
  lemma ForkSpent(s: Sys, s': Sys, t: nat, c: nat, F: nat)
    requires Forked(s, s', t, c) && Sharable(s', t, c, F) && s'.m.width == s.m.width
    ensures |s'.free| + TablesFor(MappedPages(s.m, t)) == F
  {
    hide Pte, View, Slot, Kept, Tight, TablesFor, Branched;
    forall v: Vpage | v.i4 < s.m.width ensures Pte(s'.m, Path(c, v)).p == Pte(s.m, Path(t, v)).p {
      assert Pte(s'.m, Path(c, v)) == Shared(Pte(s.m, Path(t, v)));
    }
    assert MappedPages(s'.m, c) == MappedPages(s.m, t);
  }

  lemma ReadySlot(roots: seq<int>, p: Proc, c: nat)
    requires SlotsOk(roots, p) && c < TASK_MAX_CNT && roots[c] >= 0
    ensures SlotsOk(roots, p.(state := p.state[c := READY]))
  {
  }

  lemma FreeSlotRoot(roots: seq<int>, p: Proc)
    requires SlotsOk(roots, p) && |p.free| > 0
    ensures p.free[0] < |roots| && roots[p.free[0]] == -1 && p.free[0] < |p.state| == |p.id| == |p.ctx|
    ensures p.state[p.free[0]] == FREE
  {
    assert p.free[0] in p.free;
  }

  /** The records the fork goes through on its way to success. */
  lemma ForkProcs(p: Proc, p1: Proc, roots: seq<int>, t: nat)
    requires SlotsOk(roots, p1) && Claimed(p, p1) && t < TASK_MAX_CNT && t != p.free[0]
    ensures var c := p.free[0]; var p2 := p1.(ctx := p1.ctx[c := p1.ctx[t].(rax := 0)]);
            && c < |p1.state| && SlotsOk(roots, p2) && p1.state[c] == DONT_RUN
            && ForkedProc(p, p2.(state := p2.state[c := READY]), t) && p1.current == p.current && p1.cr3 == p.cr3
  {
    var c := p.free[0];
    assert p.state[c := DONT_RUN][c := READY] == p.state[c := READY];
    assert p.ctx[c := Context(0, false, 0)][c := p.ctx[t].(rax := 0)] == p.ctx[c := p.ctx[t].(rax := 0)];
  }

  lemma UndoneProcs(p: Proc, p1: Proc, p3: Proc, t: nat, kroot: nat)
    requires Claimed(p, p1) && t < |p.ctx| && t != p.free[0] && p.state[p.free[0]] == FREE
    requires var c := p.free[0];
            p3 == p1.(ctx := p1.ctx[c := p1.ctx[t].(rax := 0)], state := p1.state[c := FREE], free := [c] + p1.free)
    ensures UnforkedProc(p, p3, t)
  {
    var c := p.free[0];
    assert [c] + p.free[1..] == p.free;
    assert p.state[c := DONT_RUN][c := FREE] == p.state;
    assert p.ctx[c := Context(0, false, 0)][c := p.ctx[t].(rax := 0)] == p.ctx[c := p.ctx[t].(rax := 0)];
  }

  /** A child that is destroyed as soon as it has been forked leaves only the id counter, and the
      contents of its slot, which is the first free one again. */
  lemma ForkReleased(roots: seq<int>, p: Proc, p1: Proc, t: nat, r: int, kroot: nat)
    requires SlotsOk(roots, p) && ForkedProc(p, p1, t) && p.current != p.free[0] && p.cr3 != r
    ensures p.free[0] < |p1.state| && UnforkedProc(p, Released(p1, p.free[0], r, kroot), t)
    ensures Released(p1, p.free[0], r, kroot).free == p.free
  {
    var c := p.free[0];
    assert c in p.free;
    assert [c] + p.free[1..] == p.free;
    assert p.state[c := READY][c := FREE] == p.state;
  }

  /** A fork and the destruction of its child, together: every count, free page, view and free slot is
      as before. */
  lemma ForkAndDestroy(s: Sys, p: Proc, s1: Sys, p1: Proc, s2: Sys, p2: Proc, t: nat, c: nat)
    requires Inv(s) && Inv(s1) && Inv(s2) && SlotsOk(s.m.roots, p) && Entered(s.m.roots, p, t)
    requires ForkOutcome(s, p, s1, p1, t, c) && s1.m.roots[c] >= 0 && Destroyed(s1, s2, c)
    requires Freed(p1, p2, c, s1.m.roots[c], s.c.kroot)
    ensures Restored(s, s2) && SameViews(s.m, s2.m) && UnforkedProc(p, p2, t)
  {
    hide Inv, Pte, View, Slot, Kept, Destroyed, Tables, Maps, TablesFor, Restored, SameViews;
    assert c in p.free;
    ForkUndone(s, s1, s2, t, c);
    ChildApart(s1, t, c);
    ForkReleased(s.m.roots, p, p1, t, s1.m.roots[c], s.c.kroot);
  }

  lemma ChildApart(s: Sys, t: nat, c: nat)
    requires Inv(s) && t < |s.m.roots| && c < |s.m.roots| && t != c && s.m.roots[c] >= 0
    ensures s.m.roots[t] != s.m.roots[c]
  {
    hide Cnt, Exact, KernelHalf;
    if s.m.roots[t] == s.m.roots[c] {
      var lo, hi := if t < c then t else c, if t < c then c else t;
      TwoEntsInCnt(s.m, 5, TOP, lo, hi, s.m.roots[c], false);
    }
  }

  lemma ForkReady(s: Sys, s1: Sys, t: nat, c: nat)
    requires Fine(s) && Fine(s1) && NewSpace(s, s1, c) && t < |s.m.roots| && s.m.roots[t] >= 0 && s.m.roots[c] == -1
    ensures t != c && s1.m.roots[t] == s.m.roots[t] && s1.m.roots[c] >= 0 && s1.m.roots[c] != s.m.roots[t]
  {
    SpawnApart(s, t);
  }

  lemma ForkVacant(s: Sys, s1: Sys, t: nat, c: nat)
    requires NewSpace(s, s1, c) && t < |s1.m.roots| && s1.m.roots[t] >= 0
    ensures Node(s1.m, 5, TOP, Path(t, Vpage(0, 0, 0, 0)), 4) == Some(s1.m.roots[t])
    ensures Vacant(s1.m, c, Path(t, Vpage(0, 0, 0, 0)), 4)
  {
  }

  /** A fork, however it ends, leaves the parent where it was and touches no other live task. */
  lemma ForkEntered(s: Sys, p: Proc, s': Sys, p': Proc, t: nat, c: int)
    requires SlotsOk(s.m.roots, p) && Entered(s.m.roots, p, t) && s.m.roots[t] >= 0 && ForkOutcome(s, p, s', p', t, c)
    ensures Entered(s'.m.roots, p', t) && s'.m.roots[t] >= 0 && |p'.ctx| == |p.ctx| && p'.next == p.next
    ensures forall i: nat :: Alive(p, i) ==> Alive(p', i)
    ensures c != NULL ==> 0 <= c < |p'.ctx| && c != t && p'.ctx[c] == p.ctx[t].(rax := 0) && p'.ctx[t] == p.ctx[t]
    ensures c != NULL ==> p'.state[c] == READY
  {
    hide Kept, Slot, View, Pte, SameViews;
    if |p.free| > 0 { FreeSlotRoot(s.m.roots, p); }
  }

  lemma ForkMeans(s: Sys, p: Proc, s': Sys, p': Proc, t: nat, c: int)
    requires Inv(s) && ForkOutcome(s, p, s', p', t, c) && s'.m.width == s.m.width
    ensures Means(s.m, s'.m, if c == NULL then Quiet else Cloned(t, c))
  {
    hide Inv, Kept, Slot, View, Pte, Means, Forked;
    if c == NULL {
      QuietMeans(s.m, s'.m);
    } else {
      ForkedMeans(s, s', t, c);
    }
  }

  /** The task in slot `t` goes on with the value `ret` in rax. */
  ghost predicate Answered(p: Proc, p': Proc, t: nat, ret: int, o: Outcome) {
    o == Resumed && t < |p.ctx| == |p.state|
        && p' == p.(ctx := p.ctx[t := p.ctx[t].(rax := ret)], state := p.state[t := RUN])
  }

  /** Gives the interrupted task the value `ret` and runs it again. */
  method Return(k: Machine, t: nat, ret: int)
    requires k.Ok() && Entered(k.pml4, k.P(), t) && k.pml4[t] >= 0
    modifies k`ctx, k`state
    ensures k.Ok() && Running(k.pml4, k.P()) && Answered(old(k.P()), k.P(), t, ret, Resumed)
  {
    hide Fine, Linked, TempPte;
    k.ctx := k.ctx[t := k.ctx[t].(rax := ret)];
    TaskRun(k, t);
  }

  function SlotOf(e: Effect): int { if e.Cloned? then e.child else NULL }

  /** A fork ended in one of its ways, with the records `p1`, and the parent goes on with the id of
      the child or with -1. */
  ghost predicate ForkReturns(s: Sys, p: Proc, s': Sys, p': Proc, t: nat, e: Effect, o: Outcome) {
    && (e == Quiet || (e.Cloned? && e.parent == t && e.child < |p'.id|))
    && exists p1: Proc :: ForkOutcome(s, p, s', p1, t, SlotOf(e))
         && Answered(p1, p', t, if e == Quiet then -1 else ToInt(p'.id[e.child]), o)
  }

  /** What the two tasks get to know after a fork: the child 0, and the parent the child's new id, as
      far as 32 bits go, or -1. */
  lemma ForkAnswers(s: Sys, p: Proc, s': Sys, p': Proc, t: nat, e: Effect, o: Outcome)
    requires SlotsOk(s.m.roots, p) && Entered(s.m.roots, p, t) && ForkReturns(s, p, s', p', t, e, o)
    ensures t < |p'.ctx| && (e == Quiet ==> p'.ctx[t].rax == -1)
    ensures e.Cloned? ==>
              && e.child < |p'.ctx| && p'.id[e.child] == (p.lastId + 1) % 0x1_0000_0000 == p'.lastId
              && p'.ctx[e.child].rax == 0 && p'.ctx[t].rax % 0x1_0000_0000 == p'.id[e.child]
              && -0x8000_0000 <= p'.ctx[t].rax < 0x8000_0000
              && (p'.id[e.child] != 0 ==> p'.ctx[t].rax != p'.ctx[e.child].rax)
  {
    hide Forked, Restored, SameViews, TablesFor, SlotsOk;
    var p1: Proc :| ForkOutcome(s, p, s', p1, t, SlotOf(e))
      && Answered(p1, p', t, if e == Quiet then -1 else ToInt(p'.id[e.child]), o);
    if e.Cloned? { FreeSlotApart(s.m.roots, p, t); }
  }

  lemma FreeSlotApart(roots: seq<int>, p: Proc, t: nat)
    requires SlotsOk(roots, p) && |p.free| > 0 && t < |p.state| && p.state[t] == READY
    ensures p.free[0] != t
  {
    assert p.free[0] in p.free;
  }

  /** What the system call of the interrupted task `t`, numbered by the low half of its rax, does to
      memory and to the records; `bad` has the kernel's registers at the read fault that puts runs into
      if it cannot read its string to the end. */
  ghost predicate SyscallDone(s: Sys, p: Proc, s': Sys, p': Proc, t: nat, bad: Option<Context>, e: Effect, o: Outcome) {
    && t < |p.ctx| == |p.state| == |s.m.roots| && p.current == t
    && match p.ctx[t].rax % 0x1_0000_0000
       case 0 =>
         if bad.None? then e == Quiet && s' == s && Answered(p, p', t, 0, o)
         else
           && e == Ended(t) && Destroyed(s, s', t)
           && Turn(s'.m.roots, Released(Saved(p, bad.value), t, s.m.roots[t], s.c.kroot), p', o)
       case 1 => e == Ended(t) && Destroyed(s, s', t)
           && Turn(s'.m.roots, Released(p, t, s.m.roots[t], s.c.kroot), p', o)
       case 2 => ForkReturns(s, p, s', p', t, e, o)
       case 3 => e == Quiet && s' == s && Turn(s'.m.roots, p, p', o)
       case _ => e == Quiet && s' == s && p' == p && o == UnknownSyscall
  }

  /** The fork system call. */
  method ForkAndReturn(k: Machine, t: nat) returns (ghost e: Effect)
    requires k.Ok() && Entered(k.pml4, k.P(), t) && k.pml4[t] >= 0
    modifies k`phys, k`ref, k.free.Repr(), k`pml4, k`state, k`id, k`ctx, k`lastId, k`current, k`cr3, k.freeTasks.Repr()
    ensures k.Ok() && Running(k.pml4, k.P()) && ForkReturns(old(k.S()), old(k.P()), k.S(), k.P(), t, e, Resumed)
  {
    hide Inv, Sole, Linked, TempPte, SlotsOk, InSpace, ForkOutcome;
    ghost var s, p := k.S(), k.P();
    var ret; ghost var c;
    ret, c := SysFork(k, t);
    ghost var p1 := k.P();
    ForkEntered(s, p, k.S(), p1, t, c);
    Return(k, t, ret);
    e := if c == NULL then Quiet else Cloned(t, c);
    assert ForkOutcome(s, p, k.S(), p1, t, SlotOf(e)) && Answered(p1, k.P(), t, ret, Resumed);
  }

  /** A read fault in the kernel, on behalf of the task `t`: never cured, so the task ends. */
  method FaultInKernel(k: Machine, t: nat, ctx: Context) returns (o: Outcome)
    requires k.Ok() && Entered(k.pml4, k.P(), t) && k.pml4[t] >= 0
    modifies k`phys, k`ref, k.free.Repr(), k`pml4, k`state, k`next, k`current, k`cr3, k`ctx, k.freeTasks.Repr()
    ensures k.Ok() && (o == Resumed ==> Running(k.pml4, k.P())) && Destroyed(old(k.S()), k.S(), t)
    ensures Turn(k.pml4, Released(Saved(old(k.P()), ctx), t, old(k.pml4[t]), k.img.kroot), k.P(), o)
  {
    hide Fine, Linked, TempPte, Destroyed, Running, Turn, Released;
    k.ctx := k.ctx[t := ctx];
    k.state := k.state[t := READY];
    o := EndAndSchedule(k, t);
  }

  /** The system call of the interrupted task `t`. */
  method SyscallHandler(k: Machine, t: nat, bad: Option<Context>) returns (o: Outcome, ghost e: Effect)
    requires k.Ok() && Entered(k.pml4, k.P(), t) && k.pml4[t] >= 0
    modifies k, k.free.Repr(), k.freeTasks.Repr()
    ensures k.Ok() && k.img == old(k.img) && (o == Resumed ==> Running(k.pml4, k.P()))
    ensures SyscallDone(old(k.S()), old(k.P()), k.S(), k.P(), t, bad, e, o)
  {
    hide Inv, Sole, Linked, TempPte, SlotsOk, InSpace, ForkReturns, Turn, Destroyed;
    e := Quiet;
    match k.ctx[t].rax % 0x1_0000_0000 {
      case 0 =>
        if bad.Some? {
          o := FaultInKernel(k, t, bad.value);
          e := Ended(t);
        } else {
          Return(k, t, 0);
          o := Resumed;
        }
      case 1 =>
        o := EndAndSchedule(k, t);
        e := Ended(t);
      case 2 =>
        e := ForkAndReturn(k, t);
        o := Resumed;
      case 3 =>
        o := Yield(k);
      case _ =>
        o := UnknownSyscall;
    }
  }

  /** The system calls by their numbers: puts, exit, fork and yield. */
  lemma SyscallEnds(s: Sys, p: Proc, s': Sys, p': Proc, t: nat, bad: Option<Context>, e: Effect, o: Outcome)
    requires SlotsOk(s.m.roots, p) && Entered(s.m.roots, p, t) && SyscallDone(s, p, s', p', t, bad, e, o)
    ensures var n := p.ctx[t].rax % 0x1_0000_0000;
            && (n == 0 && bad.None? ==> s' == s && p'.current == t && p'.ctx == p.ctx[t := p.ctx[t].(rax := 0)])
            && (n == 1 || (n == 0 && bad.Some?) ==>
                t < |s'.m.roots| && s'.m.roots[t] == -1 && t < |p'.state| && p'.state[t] == FREE && p'.current != t)
            && (n == 2 ==> p'.current == t && o == Resumed)
            && (n == 3 ==> s' == s && p'.ctx == p.ctx && o == Resumed)
            && (n > 3 <==> o == UnknownSyscall)
  {
    hide Destroyed, ForkOutcome, SlotsOk;
    var n := p.ctx[t].rax % 0x1_0000_0000;
    if n == 2 {
      var p1: Proc :| ForkOutcome(s, p, s', p1, t, SlotOf(e))
        && Answered(p1, p', t, if e == Quiet then -1 else ToInt(p'.id[e.child]), o);
      ForkCurrent(s, p, s', p1, t, SlotOf(e));
    } else if e.Ended? {
      RazedRoots(s, s', t);
    }
  }

  lemma ForkCurrent(s: Sys, p: Proc, s': Sys, p': Proc, t: nat, c: int)
    requires ForkOutcome(s, p, s', p', t, c)
    ensures p'.current == p.current
  {
    hide Forked, Restored, SameViews, TablesFor;
  }

  /** What a system call means to the tasks. */
  lemma SyscallMeans(s: Sys, p: Proc, s': Sys, p': Proc, t: nat, bad: Option<Context>, e: Effect, o: Outcome)
    requires Inv(s) && Inv(s') && SyscallDone(s, p, s', p', t, bad, e, o)
    ensures Means(s.m, s'.m, e)
  {
    hide Inv, Means, Turn, Destroyed, ForkOutcome;
    MeansRefl(s.m);
    var n := p.ctx[t].rax % 0x1_0000_0000;
    if n == 2 {
      var p1: Proc :| ForkOutcome(s, p, s', p1, t, SlotOf(e));
      SameWidth(s, s');
      ForkMeans(s, p, s', p1, t, SlotOf(e));
    } else if e.Ended? {
      DestroyedMeans(s, s', t);
    }
  }

  lemma SameWidth(s: Sys, s': Sys)
    requires Inv(s) && Inv(s')
    ensures s'.m.width == s.m.width
  {
  }

  lemma MeansRefl(m: Mem)
    ensures Means(m, m, Quiet)
  {
  }
}
