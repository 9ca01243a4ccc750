/** The creation of tasks and kernel threads: task_load_segment and task_create of src/kernel/task.c
    and src/kernel/thread.c. */
module Create {
  import opened Mmu
  import opened PageTree
  import opened Queue
  import opened Memory
  import opened Machine
  import opened Teardown
  import opened Sharing
  import opened Views
  import opened Scheduling
  import opened Map
  import opened Growth
  import opened Supply
  import opened Task

  /** Pages allocated for slot `t` and mapped there; nobody else is concerned. */
  ghost predicate Built(s: Sys, s': Sys, t: nat) {
    && s'.c == s.c && s'.m.roots == s.m.roots && s'.m.width == s.m.width && |s'.ref| == |s.ref|
    && (forall u: nat, p: int, leaf: bool :: u < |s.m.roots| && u != t ==>
          Slot(s'.m, u, p, leaf) == Slot(s.m, u, p, leaf))
    && (forall q: Path :: InTree(s.m, q) && q.t != t ==> View(s'.m, q) == View(s.m, q))
    && TempPte(s'.m, s.c) == TempPte(s.m, s.c)
  }

  /** The entries of slot `t` after the pages `vs` have been mapped. */
  ghost predicate Has(m: Mem, m': Mem, t: nat, vs: seq<Vpage>) {
    forall v: Vpage :: v.i4 < m.width ==>
      if v in vs then Pte(m', Path(t, v)) == USER_PAGE.(ppn := Pte(m', Path(t, v)).ppn)
      else Pte(m', Path(t, v)) == Pte(m, Path(t, v))
  }

  /** The address space of slot `t` maps the pages `vs`, present, writable and open to user code, and
      nothing else. */
  ghost predicate MapsExactly(m: Mem, t: nat, vs: seq<Vpage>) {
    forall v: Vpage :: v.i4 < USER_SLOTS ==>
      Pte(m, Path(t, v)) == if v in vs then Word(Pte(m, Path(t, v)).ppn, true, true, true, false, 0) else ZERO
  }

  /** Mapping a page that was mapped nowhere makes it, and keeps others, mapped once. */
  lemma FreshSole(s: Sys, s': Sys, q: Path, e: Word)
    requires Sole(s.m) && Retargeted(s, s', q, e) && InTree(s.m, q) && e.p && e.u && Maps(s.m, e.ppn) == 0
    ensures Sole(s'.m)
  {
    hide Cnt, Ent, Leaf, Slot, Tables;
    if Pte(s.m, q).p {
      LeafCounted(s.m, 5, TOP, q);
      EntInCnt(s.m, 5, TOP, 0, q.t, Pte(s.m, q).ppn, true);
    }
    forall r: Path | InTree(s'.m, r) && Pte(s'.m, r).p && Pte(s'.m, r).w ensures Maps(s'.m, Pte(s'.m, r).ppn) == 1 {
      if r != q {
        LeafCounted(s.m, 5, TOP, r);
        EntInCnt(s.m, 5, TOP, 0, r.t, Pte(s.m, r).ppn, true);
        if Pte(s.m, q).p && Pte(s.m, q).ppn == Pte(s.m, r).ppn {
          MeetIsEqual(q, r);
          TwoLeavesCounted(s.m, 5, TOP, q, r);
        }
      }
    }
  }

  lemma BuiltRefl(s: Sys, t: nat)
    ensures Built(s, s, t) && Has(s.m, s.m, t, [])
  {
  }

  lemma BuiltTrans(s: Sys, s1: Sys, s2: Sys, t: nat)
    requires Built(s, s1, t) && Built(s1, s2, t)
    ensures Built(s, s2, t)
  {
  }

  /** Work on slot `t` alone is not seen by the others. */
  lemma OnlyBuilt(s: Sys, s': Sys, t: nat)
    requires Inv(s) && Only(s, s', t)
    ensures Built(s, s', t)
  {
    hide Cnt, Ent, Leaf, Slot, Pte, Forest, Exact;
    forall q: Path | InTree(s.m, q) && q.t != t ensures View(s'.m, q) == View(s.m, q) {
      SamePagesView(s, s', q);
    }
    SameTemp(s, s');
  }

  /** page_alloc and page_insert of the new page at `v`, one round of the loop. */
  lemma RoundBuilt(s: Sys, s2: Sys, t: nat, v: Vpage, ok: bool)
    requires Fine(s) && |s.free| > 0 && s.free[0] < |s.ref| && Inv(s2) && InTree(s.m, Path(t, v))
    requires var e := USER_PAGE.(ppn := s.free[0]);
            if ok then Retargeted(Popped(s), s2, Path(t, v), e) else Grown(Popped(s), s2, t)
    ensures Fine(s2) && Built(s, s2, t)
    ensures ok ==> Has(s.m, s2.m, t, [v]) && forall p: int :: Limbo(s2, p) <==> Limbo(s, p)
    ensures !ok ==> !Limbo(s, s.free[0]) && forall p: int :: Limbo(s2, p) <==> Limbo(s, p) || p == s.free[0]
  {
    hide Cnt, Ent, Leaf, Slot, Pte, Forest, Exact, KernelHalf, Tables, Maps;
    var s1, q, n := Popped(s), Path(t, v), s.free[0];
    AllocInv(s);
    RefsNone(s, n);
    assert Built(s, s1, t);
    assert SamePages(s1, s2);
    OnlyBuilt(s1, s2, t);
    BuiltTrans(s, s1, s2, t);
    if ok {
      assert !InUse(s, n);
      if Pte(s.m, q).p { PteTarget(s, q); }
      FreshSole(s1, s2, q, USER_PAGE.(ppn := n));
    } else {
      GrownSole(s1, s2, t);
    }
    forall p: int ensures Limbo(s1, p) <==> Limbo(s, p) || p == n { PoppedInUse(s, p); }
    assert !Limbo(s, n);
  }

  lemma HasMore(m: Mem, m1: Mem, m2: Mem, t: nat, vs: seq<Vpage>, v: Vpage)
    requires SameShape(m, m1) && Has(m, m1, t, vs) && Has(m1, m2, t, [v])
    ensures Has(m, m2, t, vs + [v])
  {
  }

  /** Exactly the page `x`, if not NULL, has been allocated and lost. */
  ghost predicate Lost(s: Sys, s': Sys, x: int) {
    && (x == NULL || (x >= 0 && !Limbo(s, x)))
    && forall p: int :: Limbo(s', p) <==> Limbo(s, p) || (x != NULL && p == x)
  }

  /** A new page mapped at `va`, after `vs` out of `F` pages; the page `x`, the first on the list, is
      lost when it can be had but a table for it cannot be made. */
  method MapNew(k: Machine, t: nat, va: nat, ghost F: nat, ghost vs: seq<Vpage>) returns (ok: bool, ghost x: int)
    requires k.Ok() && t < TASK_MAX_CNT && k.pml4[t] >= 0 && PageOfAddr(va).i4 < USER_SLOTS && Loading(k.S(), t, F, vs)
    modifies k`phys, k`ref, k.free.Repr()
    ensures k.Ok() && Built(old(k.S()), k.S(), t) && Lost(old(k.S()), k.S(), x)
    ensures ok ==> x == NULL && Has(old(k.S().m), k.S().m, t, [PageOfAddr(va)])
    ensures ok ==> Loading(k.S(), t, F, vs + [PageOfAddr(va)])
    ensures !ok ==> x == if |old(k.free.elems)| > 0 then old(k.free.elems[0]) else NULL
    ensures ok <==> |old(k.free.elems)| > Missing(old(k.S().m), old(k.pml4[t]), PathOf(t, va))
    ensures ok <==> Left(F, vs + [PageOfAddr(va)]).Some?
    ensures Stuck(F, vs + [PageOfAddr(va)]) == |old(k.free.elems)|
  {
    hide Inv, Sole, Linked, TempPte, SlotsOk, InSpace, Built, Has, Retargeted, Grown, StoredAt, Tables, PageOfAddr;
    hide Loading, Left, Stuck, Missing, Sprouted, Displaced;
    ghost var s := k.S();
    BuiltRefl(s, t);
    LostNone(s);
    var page := PageAlloc(k);
    if page == NULL {
      LoadingEmpty(s, t, F, vs, PageOfAddr(va));
      return false, NULL;
    }
    NewPage(s);
    ok := PageInsert(k, k.pml4[t], page, va, USER_PAGE, t);
    RoundBuilt(s, k.S(), t, PageOfAddr(va), ok);
    LoadingStep(s, k.S(), k.pml4[t], PathOf(t, va), F, vs, ok);
    BuiltTemp(s, k.S(), t);
    x := if ok then NULL else page;
  }

  lemma NewPage(s: Sys)
    requires Fine(s) && |s.free| > 0
    ensures Inv(Popped(s)) && InUse(Popped(s), s.free[0]) && Tables(s.m, s.free[0]) == 0
  {
    AllocInv(s);
    RefsNone(s, s.free[0]);
  }

  lemma BuiltTemp(s: Sys, s': Sys, t: nat)
    requires Built(s, s', t)
    ensures TempPte(s'.m, s.c) == TempPte(s.m, s.c) && SameShape(s.m, s'.m) && s'.m.roots == s.m.roots
  {
  }

  /** A loadable program header; `whole`: its bytes lie inside the binary. */
  datatype Segment = Segment(va: nat, size: nat, whole: bool)

  /** The segment, rounded to pages, lies below USER_TOP. */
  predicate Low(g: Segment) { RoundDown(g.va) + RoundUp(g.size) <= USER_TOP }

  /** The first `n` pages of a segment. */
  function PagesTo(g: Segment, n: nat): seq<Vpage> {
    if n == 0 then [] else PagesTo(g, n - 1) + [PageOfAddr(RoundDown(g.va) + (n - 1) * PAGE_SIZE)]
  }

  function Pages(g: Segment): seq<Vpage> { PagesTo(g, Count(g.size)) }

  /** The pages of a segment by their numbers. */
  lemma {:induction false} PagesAre(g: Segment, n: nat, v: Vpage)
    ensures v in PagesTo(g, n) <==> exists j: nat :: g.va / PAGE_SIZE <= j < g.va / PAGE_SIZE + n && v == Nth(j)
  {
    hide Nth;
    if n > 0 {
      PagesAre(g, n - 1, v);
      var base, last := g.va / PAGE_SIZE, n - 1;
      assert (RoundDown(g.va) + last * PAGE_SIZE) / PAGE_SIZE == base + last;
      assert PagesTo(g, n)[n - 1] == Nth(base + last) by { PagesPrefix(g, n - 1, n); }
      assert v in PagesTo(g, n) <==> v in PagesTo(g, n - 1) || v == Nth(base + last);
    }
  }

  /** Every page that task_load_segment maps holds a byte of the segment. */
  lemma SegmentPages(g: Segment, v: Vpage)
    requires v in Pages(g)
    ensures exists a: nat :: g.va <= a < g.va + g.size && PageOfAddr(a) == v
  {
    hide Nth, Count;
    PagesAre(g, Count(g.size), v);
    var j: nat :| g.va / PAGE_SIZE <= j < g.va / PAGE_SIZE + Count(g.size) && v == Nth(j);
    var i := j - g.va / PAGE_SIZE;
    CountIs(g.size, i);
    var a := g.va + i * PAGE_SIZE;
    assert a / 4096 == g.va / PAGE_SIZE + i;
    assert g.va <= a < g.va + g.size && PageOfAddr(a) == v;
  }

  /** Every byte of the segment lies in a page that is mapped. */
  ghost predicate AllMapped(g: Segment) {
    forall a: nat :: g.va <= a < g.va + g.size ==> PageOfAddr(a) in Pages(g)
  }

  /** Address and size are rounded separately, so the end of a segment is left out exactly if it
      crosses one page boundary more than a segment of that size at the start of a page would. */
  lemma SegmentCovered(g: Segment)
    requires Low(g)
    ensures AllMapped(g) <==> g.size == 0 || g.va % PAGE_SIZE + (g.size - 1) % PAGE_SIZE < PAGE_SIZE
  {
    hide Nth, Pages, Count;
    if g.size == 0 {
    } else if g.va % PAGE_SIZE + (g.size - 1) % PAGE_SIZE < PAGE_SIZE {
      forall a: nat | g.va <= a < g.va + g.size ensures PageOfAddr(a) in Pages(g) { ByteCovered(g, a); }
    } else {
      EndLeftOut(g);
    }
  }

  lemma ByteCovered(g: Segment, a: nat)
    requires g.va <= a < g.va + g.size && g.va % PAGE_SIZE + (g.size - 1) % PAGE_SIZE < PAGE_SIZE
    ensures PageOfAddr(a) in Pages(g)
  {
    hide Nth, Count, PagesTo;
    var i := a / PAGE_SIZE - g.va / PAGE_SIZE;
    var d := g.va % PAGE_SIZE + (a - g.va);
    assert i == d / PAGE_SIZE && d / PAGE_SIZE <= (g.size - 1) / PAGE_SIZE;
    CountIs(g.size, i);
    PagesAre(g, Count(g.size), PageOfAddr(a));
    assert PageOfAddr(a) == Nth(g.va / PAGE_SIZE + i);
  }

  lemma EndLeftOut(g: Segment)
    requires Low(g) && g.size > 0 && g.va % PAGE_SIZE + (g.size - 1) % PAGE_SIZE >= PAGE_SIZE
    ensures PageOfAddr(g.va + g.size - 1) !in Pages(g)
  {
    hide Nth, Count, PagesTo;
    var last, n := g.va + g.size - 1, Count(g.size);
    CountIs(g.size, 0);
    assert n == (g.size - 1) / PAGE_SIZE + 1 by {
      CountIs(g.size, (g.size - 1) / PAGE_SIZE);
      CountIs(g.size, (g.size - 1) / PAGE_SIZE + 1);
    }
    assert last / PAGE_SIZE == g.va / PAGE_SIZE + n;
    PagesAre(g, n, PageOfAddr(last));
    if PageOfAddr(last) in Pages(g) {
      var j: nat :| g.va / PAGE_SIZE <= j < g.va / PAGE_SIZE + n && PageOfAddr(last) == Nth(j);
      NthInjective(g.va / PAGE_SIZE + n, j);
    }
  }

  /** Two bytes across a page boundary: one page is mapped, and the second byte is not in it. */
  lemma EndLeftOutExample()
    ensures var g := Segment(0x40_0FFF, 2, true);
            Low(g) && |Pages(g)| == 1 && PageOfAddr(g.va) in Pages(g) && PageOfAddr(g.va + 1) !in Pages(g)
  {
    var g := Segment(0x40_0FFF, 2, true);
    assert Pages(g) == PagesTo(g, 0) + [PageOfAddr(0x40_0000)];
    assert PageOfAddr(0x40_0000) == Nth(0x400) && PageOfAddr(0x40_1000) == Nth(0x401);
  }

  /** Every byte of every segment that is covered can be reached in the new task. */
  lemma {:induction false} ProgramMapped(m: Mem, t: nat, segments: seq<Segment>, g: Segment, a: nat)
    requires MapsExactly(m, t, Flat(segments) + [STACK]) && g in segments && Low(g) && AllMapped(g)
    requires g.va <= a < g.va + g.size
    ensures var e := Pte(m, PathOf(t, a)); e.p && e.w && e.u
  {
    hide Pte, Pages, PageOfAddr, Count, RoundUp;
    FlatHas(segments, g, PageOfAddr(a));
    SegmentLow(g, a);
    Layout();
  }

  lemma SegmentLow(g: Segment, a: nat)
    requires Low(g) && AllMapped(g) && g.va <= a < g.va + g.size
    ensures a < USER_TOP
  {
    hide Nth, Pages, Count, RoundUp;
    SegmentCovered(g);
    var n := (g.size - 1) / PAGE_SIZE;
    CountIs(g.size, n);
    assert a < RoundDown(g.va) + (n + 1) * PAGE_SIZE <= RoundDown(g.va) + RoundUp(g.size);
  }

  lemma {:induction false} FlatHas(segments: seq<Segment>, g: Segment, v: Vpage)
    requires g in segments && v in Pages(g)
    ensures v in Flat(segments)
  {
    hide Pages;
    var n := |segments| - 1;
    if g != segments[n] { FlatHas(segments[..n], g, v); }
  }

  /** task_load_segment: new pages, readable and writable for the task, from the rounded address on.
      When the pages run out, one is lost exactly if there was one left where they did. */
  method LoadSegment(k: Machine, t: nat, g: Segment, ghost F: nat, ghost vs: seq<Vpage>)
    returns (ok: bool, ghost x: int)
    requires k.Ok() && t < TASK_MAX_CNT && k.pml4[t] >= 0 && Low(g) && Loading(k.S(), t, F, vs)
    modifies k`phys, k`ref, k.free.Repr()
    ensures k.Ok() && Built(old(k.S()), k.S(), t) && Lost(old(k.S()), k.S(), x)
    ensures ok ==> x == NULL && Has(old(k.S().m), k.S().m, t, Pages(g)) && Loading(k.S(), t, F, vs + Pages(g))
    ensures ok <==> Left(F, vs + Pages(g)).Some?
    ensures !ok ==> (x != NULL <==> Stuck(F, vs + Pages(g)) > 0)
  {
    hide Inv, Sole, Linked, TempPte, SlotsOk, InSpace, Built, Has, Lost, PageOfAddr, Missing, Loading, Left, Stuck;
    hide Pages, PagesTo;
    ghost var s, n := k.S(), 0;
    SegmentStart(vs, g);
    BuiltRefl(s, t);
    LostNone(s);
    Layout();
    x := NULL;
    var va, size, i := RoundDown(g.va), RoundUp(g.size), 0;
    while i < size
      invariant 0 <= n <= Count(g.size) && i == n * PAGE_SIZE && Loading(k.S(), t, F, vs + PagesTo(g, n))
      invariant k.Ok() && Built(s, k.S(), t) && Lost(s, k.S(), NULL) && Has(s.m, k.S().m, t, PagesTo(g, n))
    {
      ghost var s1, v := k.S(), PageOfAddr(va + i);
      SegmentStep(vs, g, n);
      ok, x := MapNew(k, t, va + i, F, vs + PagesTo(g, n));
      BuiltTrans(s, s1, k.S(), t);
      LostTrans(s, s1, k.S(), x);
      if !ok {
        SegmentStop(vs, g, n + 1, F);
        return;
      }
      BuiltTemp(s, s1, t);
      HasMore(s.m, s1.m, k.S().m, t, PagesTo(g, n), v);
      n, i := n + 1, i + PAGE_SIZE;
    }
    LoadingLeft(k.S(), t, F, vs + Pages(g));
    return true, NULL;
  }

  lemma SegmentStart(vs: seq<Vpage>, g: Segment)
    ensures PagesTo(g, 0) == [] && vs + PagesTo(g, 0) == vs && Pages(g) == PagesTo(g, Count(g.size))
  {
  }

  lemma SegmentStep(vs: seq<Vpage>, g: Segment, n: nat)
    ensures var v := PageOfAddr(RoundDown(g.va) + n * PAGE_SIZE);
            vs + PagesTo(g, n) + [v] == vs + PagesTo(g, n + 1) && PagesTo(g, n) + [v] == PagesTo(g, n + 1)
  {
  }

  lemma SegmentStop(vs: seq<Vpage>, g: Segment, n: nat, F: nat)
    requires n <= Count(g.size) && Left(F, vs + PagesTo(g, n)).None?
    ensures Left(F, vs + Pages(g)).None? && Stuck(F, vs + Pages(g)) == Stuck(F, vs + PagesTo(g, n))
  {
    hide Left, Stuck, PagesTo;
    PagesPrefix(g, n, Count(g.size));
    LeftNone(F, vs + PagesTo(g, n), Pages(g)[n..]);
    assert vs + PagesTo(g, n) + Pages(g)[n..] == vs + Pages(g);
  }

  lemma {:induction false} PagesPrefix(g: Segment, n: nat, m: nat)
    requires n <= m
    ensures |PagesTo(g, m)| == m && PagesTo(g, m)[..n] == PagesTo(g, n)
  {
    if m > 0 { PagesPrefix(g, if n < m then n else m - 1, m - 1); }
    if n == m { assert PagesTo(g, m)[..n] == PagesTo(g, m); }
  }

  lemma LoadingLeft(s: Sys, t: nat, F: nat, vs: seq<Vpage>)
    requires Loading(s, t, F, vs)
    ensures Left(F, vs) == Some(|s.free|)
  {
  }

  /** Nobody but slot `t`, empty before, is concerned; the records differ in that slot at most. */
  ghost predicate Apart(s: Sys, p: Proc, s': Sys, p': Proc, t: int) {
    && SameShape(s.m, s'.m) && |p'.state| == |p.state| && |p'.ctx| == |p.ctx|
    && (forall q: Path :: InTree(s.m, q) && q.t != t ==> View(s'.m, q) == View(s.m, q))
    && (forall i: nat :: i < |p.state| && i < |p.ctx| && i != t ==> p'.state[i] == p.state[i] && p'.ctx[i] == p.ctx[i])
  }

  lemma NewApart(s: Sys, p: Proc, s': Sys, p': Proc)
    requires Inv(s) && Claimed(p, p') && (s' == s || NewSpace(s, s', p.free[0]))
    ensures Apart(s, p, s', p', p.free[0])
  {
    hide View, Slot, Inv, Pte;
    forall q: Path | InTree(s.m, q) && q.t != p.free[0] ensures View(s'.m, q) == View(s.m, q) {
      if s' != s { NewView(s, s', p.free[0], q); }
    }
  }

  lemma BuiltApart(s: Sys, p: Proc, s1: Sys, p1: Proc, s2: Sys, p2: Proc, t: nat)
    requires Apart(s, p, s1, p1, t) && Built(s1, s2, t) && p2 == p1.(cr3 := p2.cr3)
    ensures Apart(s, p, s2, p2, t)
  {
  }

  lemma DestroyedApart(s: Sys, p: Proc, s1: Sys, p1: Proc, s2: Sys, p2: Proc, t: nat, r: int, kroot: nat)
    requires Apart(s, p, s1, p1, t) && Inv(s1) && Destroyed(s1, s2, t) && Freed(p1, p2, t, r, kroot)
    ensures Apart(s, p, s2, p2, t)
  {
    hide View, Slot, Inv, Pte, Tables, Maps;
    forall q: Path | InTree(s.m, q) && q.t != t ensures View(s2.m, q) == View(s.m, q) {
      DestroyedView(s1, s2, t, q);
    }
  }

  /** The claimed slot, while it is being built. */
  lemma ClaimedState(roots: seq<int>, p: Proc, p1: Proc)
    requires SlotsOk(roots, p) && |p.free| > 0 && Claimed(p, p1)
    ensures p.free[0] < TASK_MAX_CNT && p.state[p.free[0]] == FREE && p1.state[p.free[0]] == DONT_RUN
    ensures roots[p.free[0]] == -1
  {
    assert p.free[0] in p.free;
  }

  function Flat(segments: seq<Segment>): seq<Vpage> {
    if |segments| == 0 then [] else Flat(segments[..|segments| - 1]) + Pages(segments[|segments| - 1])
  }

  /** The number of the first segment that reaches beyond the binary, if any. */
  function FirstBad(segments: seq<Segment>): (i: nat)
    ensures i <= |segments| && (i < |segments| ==> !segments[i].whole) && forall j :: 0 <= j < i ==> segments[j].whole
  {
    if |segments| == 0 || !segments[0].whole then 0 else 1 + FirstBad(segments[1..])
  }

  /** The pages that task_create tries to map, as long as there are enough free ones. */
  function Attempt(segments: seq<Segment>): seq<Vpage> {
    var i := FirstBad(segments);
    Flat(segments[..i]) + if i == |segments| then [STACK] else []
  }

  lemma {:induction false} FlatPrefix(segments: seq<Segment>, i: nat, j: nat)
    requires i <= j <= |segments|
    ensures Flat(segments[..i]) <= Flat(segments[..j])
  {
    hide Pages;
    if i < j {
      FlatPrefix(segments, i, j - 1);
      assert segments[..j][..j - 1] == segments[..j - 1];
    }
  }

  /** Pages that run out among the first segments run out for good. */
  lemma Exhausted(segments: seq<Segment>, i: nat, F: nat)
    requires i <= FirstBad(segments) && Left(F, Flat(segments[..i])).None?
    ensures Left(F, Attempt(segments)).None? && Stuck(F, Attempt(segments)) == Stuck(F, Flat(segments[..i]))
  {
    hide Left, Stuck, FirstBad, Flat;
    var a, b := Flat(segments[..i]), Attempt(segments);
    FlatPrefix(segments, i, FirstBad(segments));
    LeftNone(F, a, b[|a|..]);
    assert a + b[|a|..] == b;
  }

  lemma HasAll(m: Mem, m1: Mem, m2: Mem, t: nat, vs: seq<Vpage>, ws: seq<Vpage>)
    requires SameShape(m, m1) && Has(m, m1, t, vs) && Has(m1, m2, t, ws)
    ensures Has(m, m2, t, vs + ws)
  {
  }

  lemma LostTrans(s: Sys, s1: Sys, s2: Sys, x: int)
    requires Lost(s, s1, NULL) && Lost(s1, s2, x)
    ensures Lost(s, s2, x)
  {
  }

  /** task_load and the user stack, in the address space of the new task, out of `F` free pages. */
  method TaskLoad(k: Machine, t: nat, magic: bool, segments: seq<Segment>, ghost F: nat)
    returns (ok: bool, ghost x: int)
    requires k.Ok() && t < TASK_MAX_CNT && k.pml4[t] >= 0 && (forall g :: g in segments ==> Low(g))
    requires Loading(k.S(), t, F, [])
    modifies k`phys, k`ref, k.free.Repr(), k`cr3
    ensures k.Ok() && Built(old(k.S()), k.S(), t) && Lost(old(k.S()), k.S(), x)
    ensures ok ==> x == NULL && Has(old(k.S().m), k.S().m, t, Flat(segments) + [STACK])
    ensures ok ==> Left(F, Flat(segments) + [STACK]) == Some(|k.free.elems|)
    ensures ok <==> magic && FirstBad(segments) == |segments| && Left(F, Attempt(segments)).Some?
    ensures x != NULL <==> magic && Left(F, Attempt(segments)).None? && Stuck(F, Attempt(segments)) > 0
  {
    hide Inv, Sole, Linked, TempPte, SlotsOk, InSpace, Built, Has, Lost, Pages, Low, PageOfAddr, Missing, Loading, Left;
    hide Stuck, FirstBad, Attempt, InSpace;
    ghost var s := k.S();
    BuiltRefl(s, t);
    LostNone(s);
    if !magic {
      return false, NULL;
    }
    ok, x := LoadSegments(k, t, segments, F);
    if !ok {
      return;
    }
    ghost var s1 := k.S();
    Layout();
    AttemptAll(segments);
    ok, x := MapNew(k, t, USER_STACK_TOP - PAGE_SIZE, F, Flat(segments));
    BuiltTrans(s, s1, k.S(), t);
    LostTrans(s, s1, k.S(), x);
    if ok {
      BuiltTemp(s, s1, t);
      LoadingLeft(k.S(), t, F, Flat(segments) + [STACK]);
      HasAll(s.m, s1.m, k.S().m, t, Flat(segments), [STACK]);
    }
  }

  /** The loop of task_load, in the address space of the new task. */
  method LoadSegments(k: Machine, t: nat, segments: seq<Segment>, ghost F: nat) returns (ok: bool, ghost x: int)
    requires k.Ok() && t < TASK_MAX_CNT && k.pml4[t] >= 0 && (forall g :: g in segments ==> Low(g))
    requires Loading(k.S(), t, F, [])
    modifies k`phys, k`ref, k.free.Repr(), k`cr3
    ensures k.Ok() && Built(old(k.S()), k.S(), t) && Lost(old(k.S()), k.S(), x)
    ensures ok ==> x == NULL && Has(old(k.S().m), k.S().m, t, Flat(segments)) && FirstBad(segments) == |segments|
    ensures ok ==> Loading(k.S(), t, F, Flat(segments)) && k.cr3 == k.pml4[t]
    ensures !ok ==> FirstBad(segments) < |segments| || Left(F, Attempt(segments)).None?
    ensures !ok ==> (x != NULL <==> Left(F, Attempt(segments)).None? && Stuck(F, Attempt(segments)) > 0)
    ensures !ok ==> k.cr3 == k.kernelPml4
  {
    hide Inv, Sole, Linked, TempPte, SlotsOk, InSpace, Built, Has, Lost, Pages, Low, PageOfAddr, Missing, Loading, Left;
    hide Stuck, FirstBad, InSpace, Attempt, Flat, SegmentsTo;
    ghost var s := k.S();
    SegmentsStart(s, t, F, segments);
    k.cr3 := k.pml4[t];
    SetUp(k.pml4, old(k.P()), k.P(), t);
    InSpaceOf(k.pml4, t, k.img.kroot);
    for i := 0 to |segments|
      invariant k.Ok() && SegmentsTo(s, k.S(), t, F, segments, i) && k.cr3 == k.pml4[t]
    {
      ghost var s1 := k.S();
      SegmentsAre(s, s1, t, F, segments, i);
      ok, x := false, NULL;
      if segments[i].whole {
        ok, x := LoadSegment(k, t, segments[i], F, Flat(segments[..i]));
        SegmentsNext(s, s1, k.S(), t, F, segments, i, ok, x);
      } else {
        SegmentsBad(s1, t, F, segments, i);
      }
      if !ok {
        ghost var p1 := k.P();
        k.cr3 := k.kernelPml4;
        SetUp(k.pml4, p1, k.P(), t);
        return;
      }
    }
    SegmentsAre(s, k.S(), t, F, segments, |segments|);
    return true, NULL;
  }

  /** The first `i` segments are mapped. */
  ghost predicate SegmentsTo(s: Sys, s': Sys, t: nat, F: nat, segments: seq<Segment>, i: nat) {
    && i <= FirstBad(segments) && Built(s, s', t) && Lost(s, s', NULL)
    && Has(s.m, s'.m, t, Flat(segments[..i])) && Loading(s', t, F, Flat(segments[..i]))
  }

  lemma SegmentsStart(s: Sys, t: nat, F: nat, segments: seq<Segment>)
    requires Loading(s, t, F, [])
    ensures SegmentsTo(s, s, t, F, segments, 0)
  {
    hide Built, Has, Lost, Loading, FirstBad;
    BuiltRefl(s, t);
    LostNone(s);
    assert segments[..0] == [];
  }

  lemma SegmentsAre(s: Sys, s': Sys, t: nat, F: nat, segments: seq<Segment>, i: nat)
    requires SegmentsTo(s, s', t, F, segments, i)
    ensures i <= FirstBad(segments) && Built(s, s', t) && Lost(s, s', NULL) && Loading(s', t, F, Flat(segments[..i]))
    ensures i == |segments| ==>
              && FirstBad(segments) == |segments| && Has(s.m, s'.m, t, Flat(segments))
              && Loading(s', t, F, Flat(segments))
  {
    hide Built, Has, Lost, Loading;
    assert segments[..|segments|] == segments;
  }

  lemma SegmentsNext(s: Sys, s1: Sys, s2: Sys, t: nat, F: nat, segments: seq<Segment>, i: nat, ok: bool, x: int)
    requires i < |segments| && segments[i].whole && SegmentsTo(s, s1, t, F, segments, i)
    requires Built(s1, s2, t) && Lost(s1, s2, x)
    requires var vs, g := Flat(segments[..i]), Pages(segments[i]);
            && (ok ==> x == NULL && Has(s1.m, s2.m, t, g) && Loading(s2, t, F, vs + g))
            && (ok <==> Left(F, vs + g).Some?) && (!ok ==> (x != NULL <==> Stuck(F, vs + g) > 0))
    ensures Built(s, s2, t) && Lost(s, s2, x)
    ensures ok ==> SegmentsTo(s, s2, t, F, segments, i + 1)
    ensures !ok ==> Left(F, Attempt(segments)).None? && (x != NULL <==> Stuck(F, Attempt(segments)) > 0)
  {
    hide Built, Has, Lost, Loading, Left, Stuck, FirstBad, Pages;
    assert segments[..i + 1][..i] == segments[..i];
    BuiltTrans(s, s1, s2, t);
    LostTrans(s, s1, s2, x);
    assert i < FirstBad(segments) by { BadLater(segments, i); }
    if ok {
      BuiltTemp(s, s1, t);
      HasAll(s.m, s1.m, s2.m, t, Flat(segments[..i]), Pages(segments[i]));
    } else {
      Exhausted(segments, i + 1, F);
    }
  }

  lemma BadLater(segments: seq<Segment>, i: nat)
    requires i < |segments| && i <= FirstBad(segments) && segments[i].whole
    ensures i < FirstBad(segments)
  {
  }

  /** A segment beyond the end of the binary is where the attempt ends. */
  lemma SegmentsBad(s1: Sys, t: nat, F: nat, segments: seq<Segment>, i: nat)
    requires i < |segments| && !segments[i].whole && i <= FirstBad(segments) && Loading(s1, t, F, Flat(segments[..i]))
    ensures FirstBad(segments) == i && Left(F, Attempt(segments)).Some?
  {
    hide Loading, Left, Flat;
    LoadingLeft(s1, t, F, Flat(segments[..i]));
    assert Attempt(segments) == Flat(segments[..i]);
  }

  lemma LostNone(s: Sys)
    ensures Lost(s, s, NULL)
  {
  }

  /** Anything that may be done to the record of slot `t` while it is being set up. */
  lemma RecordApart(s: Sys, p: Proc, s': Sys, p1: Proc, p2: Proc, t: nat)
    requires Apart(s, p, s', p1, t) && t < |p1.state| && t < |p1.ctx|
    requires |p2.state| == |p1.state| && |p2.ctx| == |p1.ctx| && p2.state == p1.state[t := p2.state[t]]
    requires p2.ctx == p1.ctx[t := p2.ctx[t]]
    ensures Apart(s, p, s', p2, t)
  {
  }

  /** What creating a task, in the first free slot if any, does to the rest of the system. */
  ghost predicate CreateOutcome(s: Sys, p: Proc, s': Sys, p': Proc, t: int) {
    if |p.free| == 0 then t == NULL && s' == s && p' == p
    else
      && p.free[0] < |p.state| && (t == NULL || t == p.free[0]) && Apart(s, p, s', p', p.free[0])
      && p.state[p.free[0]] == FREE && p.free[0] < |p'.state| && p'.state[p.free[0]] != RUN
      && (t == NULL ==> p'.state[p.free[0]] != READY)
  }

  /** The first free slot, if any, got the next id. */
  ghost predicate IdTaken(p: Proc, id: seq<nat>, last: nat) {
    if |p.free| == 0 then id == p.id && last == p.lastId
    else p.free[0] < |p.id| && last == (p.lastId + 1) % 0x1_0000_0000 && id == p.id[p.free[0] := last]
  }

  lemma ClaimedId(p: Proc, p1: Proc)
    requires Claimed(p, p1)
    ensures IdTaken(p, p1.id, p1.lastId)
  {
  }

  /** Creating a task keeps the ids apart, as long as the counter does not wrap around. */
  lemma CreatedIds(s: Sys, p: Proc, s': Sys, p': Proc, t: int)
    requires CreateOutcome(s, p, s', p', t) && IdTaken(p, p'.id, p'.lastId) && |p.ctx| == |p.state|
    requires IdsApart(p) && p.lastId + 1 < 0x1_0000_0000
    ensures IdsApart(p') && p'.lastId <= p.lastId + 1
  {
    hide View;
  }

  /** With `free` pages, task_create can make the task. */
  ghost predicate Suffices(free: nat, magic: bool, segments: seq<Segment>) {
    free > 0 && magic && FirstBad(segments) == |segments| && Left(free - 1, Attempt(segments)).Some?
  }

  /** With `free` pages, task_create fails and loses a page: the pages run out where one is still left,
      but not enough of them for the tables missing there. */
  ghost predicate Wastes(free: nat, magic: bool, segments: seq<Segment>) {
    free > 0 && magic && Left(free - 1, Attempt(segments)).None? && Stuck(free - 1, Attempt(segments)) > 0
  }

  /** The pages free after task_create. */
  ghost function FreeAfter(free: nat, magic: bool, segments: seq<Segment>): nat {
    if Suffices(free, magic, segments) then Left(free - 1, Attempt(segments)).value
    else free - if Wastes(free, magic, segments) then 1 else 0
  }

  /** task_new, and what it leaves of the rest of the system. */
  method Begin(k: Machine) returns (t: int)
    requires k.Ok()
    modifies k`phys, k`ref, k.free.Repr(), k`pml4, k`state, k`id, k`ctx, k`lastId, k.freeTasks.Repr()
    ensures k.Ok() && CreateOutcome(old(k.S()), old(k.P()), k.S(), k.P(), t) && k.current == old(k.current)
    ensures t != NULL <==> |old(k.freeTasks.elems)| > 0 && |old(k.free.elems)| > 0
    ensures Lost(old(k.S()), k.S(), NULL) && IdTaken(old(k.P()), k.id, k.lastId)
    ensures t != NULL ==> NewSpace(old(k.S()), k.S(), t) && k.pml4[t] >= 0 && k.state[t] == DONT_RUN
    ensures t == NULL ==> |k.free.elems| == |old(k.free.elems)|
    ensures |k.freeTasks.elems| == |old(k.freeTasks.elems)| - if |old(k.freeTasks.elems)| > 0 then 1 else 0
    ensures t != NULL ==> t < |old(k.pml4)| && old(k.pml4[t]) == -1 && k.ctx[t].rax == 0
  {
    hide Inv, Sole, Linked, TempPte, SlotsOk, InSpace, Apart, NewSpace, Claimed;
    ghost var s, p := k.S(), k.P();
    LostNone(s);
    t := TaskNew(k);
    if |p.free| > 0 {
      NewApart(s, p, k.S(), k.P());
      ClaimedState(old(k.pml4), p, k.P());
      ClaimedKeeps(p, k.P());
      ClaimedId(p, k.P());
    }
    if t != NULL { NewIs(s, k.S(), t); }
  }

  /** task_destroy on a task that could not be completed; `s` and `p` are from before it, `s1` from
      when it had nothing but its PML4. */
  method Discard(k: Machine, t: nat, ghost s: Sys, ghost p: Proc, ghost s1: Sys, ghost x: int)
    requires k.Ok() && t < TASK_MAX_CNT && k.pml4[t] >= 0 && Apart(s, p, k.S(), k.P(), t)
    requires Inv(s) && NewSpace(s, s1, t) && t < |s.m.roots| && s.m.roots[t] == -1 && Built(s1, k.S(), t)
    requires Lost(s, k.S(), x)
    modifies k`phys, k`ref, k.free.Repr(), k`pml4, k`state, k`current, k`cr3, k.freeTasks.Repr()
    ensures k.Ok() && Apart(s, p, k.S(), k.P(), t) && Lost(s, k.S(), x)
    ensures k.state[t] == FREE && (old(k.current) == -1 ==> k.current == -1)
    ensures |k.freeTasks.elems| == |old(k.freeTasks.elems)| + 1
    ensures |k.free.elems| == |s.free| - if x != NULL then 1 else 0
  {
    hide Inv, Sole, Linked, TempPte, SlotsOk, InSpace, Apart, Destroyed, Freed, Built, NewSpace;
    ghost var s2, p2 := k.S(), k.P();
    TaskDestroy(k, t);
    DestroyedApart(s, p, s2, p2, k.S(), k.P(), t, s2.m.roots[t], k.img.kroot);
    FreedKeeps(p2, k.P(), t, s2.m.roots[t], k.img.kroot);
    forall p: int ensures Limbo(k.S(), p) <==> Limbo(s2, p) { DestroyedUse(s2, k.S(), t, p); }
    GivenBack(s, s1, s2, k.S(), t, x);
  }

  /** Destroying an unfinished task gives everything back but the lost page. */
  lemma GivenBack(s: Sys, s1: Sys, s2: Sys, s3: Sys, t: nat, x: int)
    requires Inv(s) && Inv(s2) && Inv(s3) && NewSpace(s, s1, t) && t < |s.m.roots| && s.m.roots[t] == -1
    requires Built(s1, s2, t) && Destroyed(s2, s3, t) && Lost(s, s3, x)
    ensures |s3.free| == |s.free| - if x != NULL then 1 else 0
  {
    hide Cnt, Ent, Slot, Pte, View, Exact, Forest, KernelHalf, Lost;
    forall u: nat, p: int, leaf: bool | u < |s.m.roots| ensures Slot(s3.m, u, p, leaf) == Slot(s.m, u, p, leaf) {
      if u == t { EmptySlot(s.m, t, p, leaf); EmptySlot(s3.m, t, p, leaf); }
    }
    assert x >= NULL by { LostFrom(s, s3, x); }
    DestroyedTemp(s2, s3, t);
    NewTempSame(s, s1, t);
    forall p: int ensures Refs(s3, p) == Refs(s, p) { SlotsRefs(s, s3, p); }
    forall p: nat ensures p in s3.free <==> p in s.free && p != x { BackPage(s, s3, x, p); }
    if x >= 0 { BackPage(s, s3, x, x); }
    OneLess(s.free, s3.free, x);
  }

  lemma LostFrom(s: Sys, s': Sys, x: int)
    requires Lost(s, s', x)
    ensures x >= NULL
  {
  }

  lemma NewTempSame(s: Sys, s1: Sys, t: nat)
    requires Inv(s) && NewSpace(s, s1, t)
    ensures TempPte(s1.m, s.c) == TempPte(s.m, s.c)
  {
    SameTemp(s, s1);
  }

  lemma SlotsRefs(s: Sys, s': Sys, p: int)
    requires SameShape(s.m, s'.m) && s'.c == s.c && TempPte(s'.m, s.c) == TempPte(s.m, s.c)
    requires forall u: nat, leaf: bool :: u < |s.m.roots| ==> Slot(s'.m, u, p, leaf) == Slot(s.m, u, p, leaf)
    ensures Refs(s', p) == Refs(s, p)
  {
    hide Cnt, Ent, Slot;
    SlotTail(s.m, s'.m, p, false, 0);
    SlotTail(s.m, s'.m, p, true, 0);
  }

  /** A page is free again unless it is lost. */
  lemma BackPage(s: Sys, s': Sys, x: int, p: nat)
    requires Inv(s) && Inv(s') && s'.c == s.c && |s'.ref| == |s.ref| && Refs(s', p) == Refs(s, p) && Lost(s, s', x)
    ensures p in s'.free <==> p in s.free && p != x
    ensures p == x ==> p in s.free
  {
    hide Refs, KernelHalf, Forest, Tables;
    assert Limbo(s', p) <==> Limbo(s, p) || (x != NULL && p == x);
    assert InUse(s, p) <==> Refs(s, p) > 0 || Limbo(s, p);
    assert InUse(s', p) <==> Refs(s', p) > 0 || Limbo(s', p);
    assert Limbo(s', p) ==> Refs(s', p) == 0;
  }

  /** task_create: a user task with the given pages and a stack, READY; NULL if anything fails, and
      then the page `x`, if any, is lost. */
  method TaskCreate(k: Machine, magic: bool, segments: seq<Segment>) returns (t: int, ghost x: int)
    requires k.Ok() && forall g :: g in segments ==> Low(g)
    modifies k`phys, k`ref, k.free.Repr(), k`pml4, k`state, k`id, k`ctx, k`lastId, k`current, k`cr3, k.freeTasks.Repr()
    ensures k.Ok() && CreateOutcome(old(k.S()), old(k.P()), k.S(), k.P(), t) && Lost(old(k.S()), k.S(), x)
    ensures t != NULL <==> |old(k.freeTasks.elems)| > 0 && Suffices(|old(k.free.elems)|, magic, segments)
    ensures x != NULL <==> |old(k.freeTasks.elems)| > 0 && Wastes(|old(k.free.elems)|, magic, segments)
    ensures |old(k.freeTasks.elems)| > 0 ==> |k.free.elems| == FreeAfter(|old(k.free.elems)|, magic, segments)
    ensures |k.freeTasks.elems| >= |old(k.freeTasks.elems)| - 1
    ensures IdTaken(old(k.P()), k.id, k.lastId)
    ensures t != NULL ==> 0 <= t < TASK_MAX_CNT && k.state[t] == READY && k.ctx[t].user && k.ctx[t].rax == 0
    ensures t != NULL ==> MapsExactly(k.S().m, t, Flat(segments) + [STACK])
    ensures old(k.current) == -1 ==> k.current == -1
  {
    hide Inv, Sole, Linked, TempPte, SlotsOk, InSpace, Built, Has, Apart, NewSpace, Claimed, Destroyed, Freed, Pte;
    hide MapsExactly, Lost, Flat, NoDup, Left, Stuck, FirstBad, Loading, Low, Attempt, IdTaken;
    ghost var s, p := k.S(), k.P();
    t := Begin(k);
    x := NULL;
    if t == NULL {
      return;
    }
    ghost var s1, p1 := k.S(), k.P();
    ghost var F := |s1.free|;
    LoadingNew(s, s1, t);
    var ok;
    ok, x := TaskLoad(k, t, magic, segments, F);
    ghost var s2 := k.S();
    BuiltTemp(s1, s2, t);
    BuiltApart(s, p, s1, p1, s2, k.P(), t);
    LostTrans(s, s1, s2, x);
    if !ok {
      Discard(k, t, s, p, s1, x);
      return NULL, x;
    }
    AttemptAll(segments);
    HasExactly(s, s1, s2, t, Flat(segments) + [STACK]);
    MakeReady(k, t, s, p);
  }

  lemma AttemptAll(segments: seq<Segment>)
    requires FirstBad(segments) == |segments|
    ensures Attempt(segments) == Flat(segments) + [STACK]
  {
    hide FirstBad, Flat;
    assert segments[..|segments|] == segments;
  }

  /** The record of a user task that is complete. */
  method MakeReady(k: Machine, t: nat, ghost s: Sys, ghost p: Proc)
    requires k.Ok() && t < TASK_MAX_CNT && k.pml4[t] >= 0 && Apart(s, p, k.S(), k.P(), t)
    modifies k`ctx, k`state
    ensures k.Ok() && Apart(s, p, k.S(), k.P(), t) && k.state[t] == READY
    ensures k.ctx[t] == old(k.ctx[t]).(user := true)
  {
    hide Inv, Sole, Linked, TempPte, SlotsOk, InSpace, Apart;
    ghost var p2 := k.P();
    k.ctx := k.ctx[t := k.ctx[t].(user := true)];
    k.state := k.state[t := READY];
    SetUp(k.pml4, p2, k.P(), t);
    RecordApart(s, p, k.S(), p2, k.P(), t);
  }

  lemma ClaimedKeeps(p: Proc, p1: Proc)
    requires Claimed(p, p1)
    ensures p.free[0] < |p1.ctx| && p1.ctx[p.free[0]].rax == 0
    ensures p1.current == p.current && |p1.state| == |p.state| == |p1.ctx| && |p1.free| == |p.free| - 1
  {
  }

  lemma FreedKeeps(p: Proc, p1: Proc, t: nat, r: int, kroot: nat)
    requires Freed(p, p1, t, r, kroot)
    ensures t < |p1.state| && p1.state[t] == FREE && (p.current == -1 ==> p1.current == -1)
    ensures |p1.free| == |p.free| + 1
  {
  }

  lemma NewIs(s: Sys, s1: Sys, t: nat)
    requires NewSpace(s, s1, t)
    ensures t < |s1.m.roots| && s1.m.roots[t] >= 0 && |s1.free| == |s.free| - 1 && Lost(s, s1, NULL)
  {
  }

  /** Which contexts are saved and which space is in use does not matter to the slots. */
  lemma SetUp(roots: seq<int>, p: Proc, p': Proc, t: nat)
    requires SlotsOk(roots, p) && t < TASK_MAX_CNT && roots[t] >= 0 && |p'.ctx| == |p.ctx|
    requires p' == p.(ctx := p'.ctx, cr3 := p'.cr3, state := p'.state)
    requires (p'.state == p.state || p'.state == p.state[t := READY])
    ensures SlotsOk(roots, p')
  {
  }

  lemma HasExactly(s: Sys, s1: Sys, s2: Sys, t: nat, vs: seq<Vpage>)
    requires NewSpace(s, s1, t) && s.m.width == USER_SLOTS && Has(s1.m, s2.m, t, vs)
    ensures MapsExactly(s2.m, t, vs)
  {
    hide Pte, Slot;
  }

  /** thread_create: a kernel task with a stack, not yet runnable; NULL if anything fails, and then
      the page `x`, if any, is lost. */
  method ThreadCreate(k: Machine) returns (t: int, ghost x: int)
    requires k.Ok()
    modifies k`phys, k`ref, k.free.Repr(), k`pml4, k`state, k`id, k`ctx, k`lastId, k`current, k`cr3, k.freeTasks.Repr()
    ensures k.Ok() && CreateOutcome(old(k.S()), old(k.P()), k.S(), k.P(), t) && Lost(old(k.S()), k.S(), x)
    ensures t != NULL ==> x == NULL && 0 <= t < TASK_MAX_CNT && k.state[t] == DONT_RUN && !k.ctx[t].user
    ensures t != NULL ==> k.pml4[t] >= 0 && MapsExactly(k.S().m, t, [STACK])
    ensures t != NULL <==> |old(k.freeTasks.elems)| > 0 && |old(k.free.elems)| >= 5
    ensures t != NULL ==> |k.free.elems| == |old(k.free.elems)| - 5
    ensures t == NULL ==> |k.free.elems| == |old(k.free.elems)| - if x != NULL then 1 else 0
    ensures IdTaken(old(k.P()), k.id, k.lastId)
    ensures x != NULL <==> |old(k.freeTasks.elems)| > 0 && 2 <= |old(k.free.elems)| < 5
    ensures old(k.current) == -1 ==> k.current == -1
  {
    hide Inv, Sole, Linked, TempPte, SlotsOk, InSpace, Built, Has, Apart, NewSpace, Claimed, Destroyed, Freed, Pte;
    hide MapsExactly, Lost, PageOfAddr, Loading, Left, Stuck, IdTaken;
    ghost var s, p := k.S(), k.P();
    t := Begin(k);
    x := NULL;
    if t == NULL {
      return;
    }
    ghost var s1, p1 := k.S(), k.P();
    Layout();
    NewNoTables(s, s1, t, STACK);
    RootLeaf(s1.m, k.pml4[t], Path(t, STACK));
    var ok;
    LoadingNew(s, s1, t);
    ok, x := MapNew(k, t, USER_STACK_TOP - PAGE_SIZE, |s1.free|, []);
    ghost var s2, p2 := k.S(), k.P();
    BuiltTemp(s1, s2, t);
    BuiltApart(s, p, s1, p1, s2, p2, t);
    LostTrans(s, s1, s2, x);
    if !ok {
      Discard(k, t, s, p, s1, x);
      return NULL, x;
    }
    LoadedFirst(s2, t, |s1.free|, STACK);
    HasExactly(s, s1, s2, t, [STACK]);
    MakeThread(k, t, s, p);
  }

  /** The record of a kernel task that is complete. */
  method MakeThread(k: Machine, t: nat, ghost s: Sys, ghost p: Proc)
    requires k.Ok() && t < TASK_MAX_CNT && k.pml4[t] >= 0 && Apart(s, p, k.S(), k.P(), t)
    modifies k`ctx
    ensures k.Ok() && Apart(s, p, k.S(), k.P(), t) && k.ctx[t] == old(k.ctx[t]).(user := false)
  {
    hide Inv, Sole, Linked, TempPte, SlotsOk, InSpace, Apart;
    ghost var p2 := k.P();
    k.ctx := k.ctx[t := k.ctx[t].(user := false)];
    SetUp(k.pml4, p2, k.P(), t);
    RecordApart(s, p, k.S(), p2, k.P(), t);
  }

  /** thread_run */
  method ThreadRun(k: Machine, t: nat)
    requires k.Ok() && t < TASK_MAX_CNT && k.state[t] == DONT_RUN && k.pml4[t] >= 0
    modifies k`state
    ensures k.Ok() && k.state == old(k.state)[t := READY]
  {
    hide Fine, Linked, TempPte;
    k.state := k.state[t := READY];
  }

  /** The last part of kernel_main: one user task, the kernel thread that yields for ever, and the
      first schedule. The user task is made exactly if the pages suffice for it, the thread exactly if
      five are left then. With the thread, task code runs, and these two are the only tasks that this
      has made active: that is where the runs of the system start from. */
  method KernelMain(k: Machine, magic: bool, segments: seq<Segment>) returns (user: int, idle: int)
    requires k.Ok() && k.current == -1 && NoneRuns(k.state) && forall g :: g in segments ==> Low(g)
    requires |k.freeTasks.elems| >= 2
    modifies k, k.free.Repr(), k.freeTasks.Repr()
    ensures k.Ok() && k.img == old(k.img)
    ensures user != NULL <==> Suffices(|old(k.free.elems)|, magic, segments)
    ensures idle != NULL <==> FreeAfter(|old(k.free.elems)|, magic, segments) >= 5
    ensures idle != NULL ==> |k.free.elems| == FreeAfter(|old(k.free.elems)|, magic, segments) - 5
    ensures idle != NULL ==> Running(k.pml4, k.P()) && idle >= 0 && Alive(k.P(), idle)
    ensures idle != NULL ==> FirstTasks(k.S().m, k.P(), user, idle, segments)
    ensures idle != NULL ==> OthersSame(old(k.P()), k.P(), user, idle) && Ahead(k.P())
    ensures IdsApart(old(k.P())) && old(k.lastId) + 2 < 0x1_0000_0000 ==>
              IdsApart(k.P()) && k.lastId <= old(k.lastId) + 2
  {
    hide Fine, Linked, TempPte, SlotsOk, InSpace, Apart, Running, FreeAfter, Suffices, Wastes, Lost, Low, Flat, Pte;
    hide CreateOutcome, MapsExactly, FirstTasks, OthersSame, IdTaken, IdsApart;
    ghost var s, p := k.S(), k.P();
    var first, _ := TaskCreate(k, magic, segments);
    user := first;
    CreatedNoneRuns(s, p, k.S(), k.P(), user);
    ghost var s1, p1 := k.S(), k.P();
    var thread, _ := ThreadCreate(k);
    idle := thread;
    CreatedNoneRuns(s1, p1, k.S(), k.P(), idle);
    if IdsApart(p) && p.lastId + 2 < 0x1_0000_0000 {
      CreatedIds(s, p, s1, p1, user);
      CreatedIds(s1, p1, k.S(), k.P(), idle);
    }
    if idle == NULL {
      return user, NULL;
    }
    ghost var p2 := k.P();
    RunThread(k, idle);
    FirstAre(s, p, s1, p1, k.S(), p2, k.P(), user, idle, segments);
  }

  /** thread_run and the first schedule, which cannot fail. */
  method RunThread(k: Machine, idle: nat)
    requires k.Ok() && NoneRuns(k.state) && idle < TASK_MAX_CNT && k.state[idle] == DONT_RUN && k.pml4[idle] >= 0
    requires !k.ctx[idle].user
    modifies k`state, k`next, k`current, k`cr3
    ensures k.Ok() && Running(k.pml4, k.P()) && Alive(k.P(), idle) && Ahead(k.P())
    ensures IdsApart(old(k.P())) ==> IdsApart(k.P())
    ensures Turn(k.pml4, old(k.P()).(state := old(k.state)[idle := READY]), k.P(), Resumed)
  {
    hide Fine, Linked, TempPte, SlotsOk, InSpace, Running;
    ThreadRun(k, idle);
    ghost var p := k.P();
    var o := Yield(k);
    TurnSpares(k.pml4, p, k.P(), o);
    assert Alive(p, idle);
  }

  /** The task sees the pages `vs`, which it may write, and nothing else. */
  ghost predicate Sees(m: Mem, t: nat, vs: seq<Vpage>) {
    forall v: Vpage :: v.i4 < USER_SLOTS ==>
      var c := View(m, Path(t, v));
      if v in vs then c.Some? && c.value.writable && c.value.user else c == None
  }

  predicate Runnable(p: Proc, t: nat) { t < |p.state| && (p.state[t] == READY || p.state[t] == RUN) }

  /** The idle thread is active with a stack, and the user task, if there is one, with its segments
      and a stack. */
  ghost predicate FirstTasks(m: Mem, p: Proc, user: int, idle: int, segments: seq<Segment>) {
    && idle >= 0 && Runnable(p, idle) && Sees(m, idle, [STACK]) && idle < |p.ctx| && !p.ctx[idle].user
    && (user != NULL ==>
        && user >= 0 && user != idle && Runnable(p, user) && Sees(m, user, Flat(segments) + [STACK])
        && user < |p.ctx| && p.ctx[user].user)
  }

  /** All other slots are as active as before. */
  ghost predicate OthersSame(p: Proc, p': Proc, user: int, idle: int) {
    forall t: nat :: t != user && t != idle ==> (Runnable(p', t) <==> Runnable(p, t))
  }

  lemma MappedSees(m: Mem, t: nat, vs: seq<Vpage>)
    requires MapsExactly(m, t, vs)
    ensures Sees(m, t, vs)
  {
    hide Pte;
  }

  /** What a task sees does not change when another one is made. */
  lemma ApartSees(s: Sys, p: Proc, s': Sys, p': Proc, c: int, t: nat, vs: seq<Vpage>)
    requires Apart(s, p, s', p', c) && t != c && t < |s.m.roots| && s.m.width == USER_SLOTS && Sees(s.m, t, vs)
    ensures Sees(s'.m, t, vs)
  {
    hide View;
    forall v: Vpage | v.i4 < USER_SLOTS ensures View(s'.m, Path(t, v)) == View(s.m, Path(t, v)) {
      assert InTree(s.m, Path(t, v));
    }
  }

  lemma FirstAre(s: Sys, p: Proc, s1: Sys, p1: Proc, s2: Sys, p2: Proc, p4: Proc, user: int, idle: int,
          segments: seq<Segment>)
    requires CreateOutcome(s, p, s1, p1, user) && CreateOutcome(s1, p1, s2, p2, idle)
    requires SlotsOk(s.m.roots, p) && SlotsOk(s1.m.roots, p1) && s1.m.width == USER_SLOTS
    requires user != NULL ==> 0 <= user < TASK_MAX_CNT && p1.state[user] == READY && p1.ctx[user].user
    requires user != NULL ==> MapsExactly(s1.m, user, Flat(segments) + [STACK])
    requires 0 <= idle < |p2.state| == |p2.ctx| && !p2.ctx[idle].user && MapsExactly(s2.m, idle, [STACK])
    requires Turn(s2.m.roots, p2.(state := p2.state[idle := READY]), p4, Resumed)
    ensures FirstTasks(s2.m, p4, user, idle, segments) && OthersSame(p, p4, user, idle)
  {
    hide Apart, View, Pte, Flat, MapsExactly, Sees;
    var c, d := if |p.free| > 0 then p.free[0] else 0, p1.free[0];
    MappedSees(s2.m, idle, [STACK]);
    ApartRecords(s1, p1, s2, p2, d);
    if |p.free| > 0 { ApartRecords(s, p, s1, p1, c); }
    if user != NULL {
      MappedSees(s1.m, user, Flat(segments) + [STACK]);
      ApartSees(s1, p1, s2, p2, idle, user, Flat(segments) + [STACK]);
    }
  }

  lemma ApartRecords(s: Sys, p: Proc, s': Sys, p': Proc, t: int)
    requires Apart(s, p, s', p', t)
    ensures |p'.state| == |p.state| && |p'.ctx| == |p.ctx|
    ensures forall i: nat :: i < |p.state| && i < |p.ctx| && i != t ==>
              p'.state[i] == p.state[i] && p'.ctx[i] == p.ctx[i]
  {
  }

  lemma CreatedNoneRuns(s: Sys, p: Proc, s': Sys, p': Proc, t: int)
    requires CreateOutcome(s, p, s', p', t) && NoneRuns(p.state) && |p.ctx| == |p.state|
    ensures NoneRuns(p'.state)
  {
    hide View;
  }
}
