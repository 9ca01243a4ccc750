/** The whole way: from the loader's inputs to every run of the system. */
module Whole {
  import opened Mmu
  import opened PageTree
  import opened Queue
  import opened Memory
  import opened Machine
  import opened Sharing
  import opened Scheduling
  import opened Effects
  import opened Create
  import opened Task
  import opened Runs
  import opened Start
  import opened Loader
  import opened Sections
  import opened LoaderInit
  import opened Handover
  import opened Mappings
  import Boot

  // ------------------------------------------------------------------------
  // The page array changes hands

  /** The loader's page records as 32-bit words, with room for them to grow. */
  method Spell(k: Loader, l: Place32) returns (w: array<nat>)
    requires k.Valid() && |k.ref| == k.free.next.Length == k.free.prev.Length
    ensures fresh(w) && w.Length == 6 * |k.ref|
    ensures Boot.Unread(w[..], Records(l, k.ref, k.free.next[..], k.free.prev[..]), |k.ref|)
    ensures forall j: nat :: j < |k.ref| ==>
              && w[3 * j] == k.ref[j]
              && w[3 * j + 1] == Elem32(l, k.free.next[j]) && w[3 * j + 2] == Back32(l, k.free.prev[j])
  {
    hide Linked, OffListZero, Marked, Elem32, Back32;
    var n := |k.ref|;
    w := new nat[6 * n](_ => 0);
    for i := 0 to n
      invariant fresh(w) && w.Length == 6 * n
      invariant forall j: nat :: j < i ==>
        w[3 * j] == k.ref[j] && w[3 * j + 1] == Elem32(l, k.free.next[j]) && w[3 * j + 2] == Back32(l, k.free.prev[j])
    {
      w[3 * i], w[3 * i + 1], w[3 * i + 2] := k.ref[i], Elem32(l, k.free.next[i]), Back32(l, k.free.prev[i]);
    }
  }

  /** The list head lies outside the page array. */
  predicate HeadOutside(l: Boot.Place, n: nat) {
    l.base > 0 && l.head > 0 && (l.head < l.base || l.head >= l.base + 24 * n)
  }

  function ElemOf(l: Boot.Place, a: nat): int
    requires a == 0 || a >= l.base
  {
    if a == 0 then NULL else (a - l.base) / 24
  }

  function BackOf(l: Boot.Place, a: nat): Back
    requires a == 0 || a == l.head || a >= l.base + 8
  {
    if a == 0 then Nil else if a == l.head then Head else NextOf((a - l.base - 8) / 24)
  }

  lemma ElemBack(l: Boot.Place, x: int, b: Back, n: nat)
    requires HeadOutside(l, n) && x >= -1 && (b.NextOf? ==> b.i < n)
    ensures var a := Boot.ElemAddr(l, x); (a == 0 || a >= l.base) && ElemOf(l, a) == x
    ensures var a := Boot.BackAddr(l, b); (a == 0 || a == l.head || a >= l.base + 8) && BackOf(l, a) == b
  {
  }

  lemma PrevInside(next: seq<int>, prev: seq<Back>, first: int, f: seq<nat>, i: nat)
    requires Linked(next, prev, first, f) && i < |next| && (i !in f ==> prev[i] == Nil)
    ensures |prev| == |next| && (prev[i].NextOf? ==> prev[i].i < |next|)
  {
    if i in f {
      var j :| 0 <= j < |f| && f[j] == i;
      assert prev[f[j]] == Before(f, j);
    }
  }

  /** A widened record gives back its count and its links. */
  lemma WideBack(ws: seq<nat>, l: Boot.Place, rs: seq<Boot.Narrow>, next: seq<int>, prev: seq<Back>, first: int, i: nat)
    requires Boot.Done(ws, l, rs, 0, next, prev, first) && HeadOutside(l, |rs|) && i < |rs|
    ensures |next| == |prev| == |rs| && 6 * i + 5 < |ws| && ws[6 * i] == rs[i].ref && next[i] >= -1
    ensures Boot.Get64(ws, 6 * i + 2) == Boot.ElemAddr(l, next[i])
    ensures Boot.Get64(ws, 6 * i + 4) == Boot.BackAddr(l, prev[i])
    ensures prev[i].NextOf? ==> prev[i].i < |rs|
  {
    hide Boot.FreeFrom, Linked, Boot.Get64, Boot.ElemAddr, Boot.BackAddr;
    assert Boot.WideAt(ws, i) == Boot.Wide(rs[i].ref, Boot.ElemAddr(l, next[i]), Boot.BackAddr(l, prev[i]));
    FreeHas(rs, i);
    PrevInside(next, prev, first, Boot.FreeFrom(rs, 0), i);
  }

  lemma FreeHas(rs: seq<Boot.Narrow>, i: nat)
    requires i < |rs|
    ensures i !in Boot.FreeFrom(rs, 0) ==> rs[i].links == 0
  {
  }

  /** The kernel's page array as counts and links. */
  method ReadBack(w: array<nat>, l: Boot.Place, n: nat, head: nat, ghost rs: seq<Boot.Narrow>, ghost next: seq<int>,
          ghost prev: seq<Back>, ghost first: int)
    returns (ref: seq<nat>, list: List)
    requires Boot.Done(w[..], l, rs, 0, next, prev, first) && HeadOutside(l, n) && n == |rs| && first >= -1
    requires head == Boot.ElemAddr(l, first)
    ensures list.Valid() && list.elems == Boot.FreeFrom(rs, 0) && list.next.Length == |ref| == n
    ensures forall i :: 0 <= i < n ==> ref[i] == rs[i].ref
    ensures fresh(list) && fresh(list.next) && fresh(list.prev)
  {
    hide Boot.Done, Boot.FreeFrom, Linked, Boot.ElemAddr, Boot.BackAddr, ElemOf, BackOf, HeadOutside;
    var nx: seq<int>, pv: seq<Back> := [], [];
    ref := [];
    DoneLinks(w[..], l, rs, next, prev, first);
    for i := 0 to n
      invariant |nx| == |pv| == |ref| == i && nx == next[..i] && pv == prev[..i]
      invariant forall j :: 0 <= j < i ==> ref[j] == rs[j].ref
    {
      WideBack(w[..], l, rs, next, prev, first, i);
      ElemBack(l, next[i], prev[i], n);
      var a, b := w[6 * i + 2] + Boot.WORD * w[6 * i + 3], w[6 * i + 4] + Boot.WORD * w[6 * i + 5];
      assert a == Boot.Get64(w[..], 6 * i + 2) && b == Boot.Get64(w[..], 6 * i + 4);
      nx, pv, ref := nx + [ElemOf(l, a)], pv + [BackOf(l, b)], ref + [w[6 * i]];
    }
    ElemBack(l, first, Nil, n);
    assert nx == next && pv == prev;
    list := new List.FromLinks(nx, pv, ElemOf(l, head), Boot.FreeFrom(rs, 0));
  }

  lemma DoneLinks(ws: seq<nat>, l: Boot.Place, rs: seq<Boot.Narrow>, next: seq<int>, prev: seq<Back>, first: int)
    requires Boot.Done(ws, l, rs, 0, next, prev, first)
    ensures |next| == |prev| == |rs| && Linked(next, prev, first, Boot.FreeFrom(rs, 0)) && 6 * |rs| <= |ws|
  {
    hide Linked, Boot.FreeFrom;
  }

  // ------------------------------------------------------------------------
  // From power on

  /** kernel_init_mmap on what the loader left, and the kernel's state made of it. */
  method Assemble(k: Loader, l: Place32, place: Boot.Place, ghost b: Plan, ghost top: nat) returns (m: Machine)
    requires k.Valid() && Fitting(b) && b.n > 0 && Stage(k.L(false), b, 6, top) && 0 !in k.free.elems
    requires l.base > 0 && l.head > 0 && HeadOutside(place, b.n)
    modifies k`phys
    ensures fresh(m) && fresh(m.free.Repr()) && fresh(m.freeTasks.Repr())
    ensures m.Valid() && Fresh(m.S()) && NoStacks(m.S()) && m.free.elems == Backwards(k.free.elems)
    ensures m.freeTasks.elems == [] && forall t: nat :: t < TASK_MAX_CNT ==> m.pml4[t] == -1
    ensures m.lastId == 0 && |m.ref| == b.n && m.img.kroot == k.pml4 == m.cr3 && k.free.elems == old(k.free.elems)
    ensures forall p: nat :: p < b.n && p !in k.free.elems ==> p in m.img.boot
  {
    hide Stage, Linked, OffListZero, Marked, Looked, Fresh, NoStacks, Boot.Done, Boot.FreeFrom, Kernel, Sound;
    ghost var x := k.L(false);
    StageSound(x, b, top);
    RootThere(x);
    LinkedNoDup(k.free.next[..], k.free.prev[..], k.free.first, k.free.elems);
    var w := Spell(k, l);
    ghost var rs, f := Records(l, k.ref, k.free.next[..], k.free.prev[..]), Backwards(k.free.elems);
    ListReversed(l, x, k.free.next[..], k.free.prev[..], k.free.first);
    var head, used; ghost var next, prev, first, kpt;
    head, used, next, prev, first, kpt := TakeOver(k, w, l, place, b, top);
    var ref, list := ReadBack(w, place, |k.ref|, head, rs, next, prev, first);
    ghost var s := Kernel(x, f, kpt);
    KernelIs(x, f, kpt);
    assert ref == k.ref;
    m := new Machine(k.phys, ref, list, k.pml4, s.c);
    assert m.S() == s;
  }

  lemma KernelIs(x: Load, f: seq<nat>, kpt: nat)
    requires Sound(x, 1)
    ensures var s := Kernel(x, f, kpt);
            && s.ref == x.ref && s.free == f && s.c.kroot == x.m.roots[0] && |s.m.phys| == |x.m.phys|
            && forall p: nat :: p < |x.ref| && p !in f ==> p in s.c.boot
    ensures var s := Kernel(x, f, kpt); s.m == Mem(s.m.phys, seq(TASK_MAX_CNT, _ => -1), USER_SLOTS)
  {
    RootThere(x);
  }

  /** kernel_main: the tasks, the stacks, one user task, the idle thread and the first schedule. The
      idle thread, and with it the running system, is there exactly if the pages suffice for the four
      stacks and, after the user task, for the thread; no other task but the user task is active. */
  method EnterKernel(m: Machine, magic: bool, segments: seq<Segment>) returns (user: int, idle: int)
    requires m.Valid() && Fresh(m.S()) && NoStacks(m.S()) && m.freeTasks.elems == []
    requires (forall t: nat :: t < TASK_MAX_CNT ==> m.pml4[t] == -1) && m.cr3 == m.img.kroot
    requires forall g :: g in segments ==> Low(g)
    modifies m, m.free.Repr(), m.freeTasks.Repr()
    ensures m.Ok() && m.img.kroot == old(m.img.kroot) && old(m.img.boot) <= m.img.boot
    ensures idle != NULL <==> Starts(|old(m.free.elems)|, magic, segments)
    ensures idle != NULL ==> |m.free.elems| == FreeAfter(|old(m.free.elems)| - 4, magic, segments) - 5
    ensures idle != NULL ==> idle >= 0 && Running(m.pml4, m.P()) && Alive(m.P(), idle)
    ensures idle != NULL ==> (user != NULL <==> Suffices(|old(m.free.elems)| - 4, magic, segments))
    ensures idle != NULL ==> FirstTasks(m.S().m, m.P(), user, idle, segments) && OnlyActive(m.P(), user, idle)
    ensures idle != NULL ==> Ahead(m.P())
    ensures old(m.lastId) + 2 < 0x1_0000_0000 ==> IdsApart(m.P()) && m.lastId <= old(m.lastId) + 2
  {
    hide Fresh, NoStacks, Linked, Fine, TempPte, SlotsOk, Running, Low, FreeAfter, Suffices, FirstTasks;
    TaskInit(m);
    var ok := InterruptInit(m);
    if !ok {
      return NULL, NULL;
    }
    user, idle := KernelMain(m, magic, segments);
  }

  /** No slot but these two is READY or RUN. */
  ghost predicate OnlyActive(p: Proc, user: int, idle: int) {
    forall t: nat :: Runnable(p, t) ==> t == user || t == idle
  }

  /** With `free` pages kernel_main gets the system running. */
  ghost predicate Starts(free: nat, magic: bool, segments: seq<Segment>) {
    free >= 4 && FreeAfter(free - 4, magic, segments) >= 5
  }

  /** A page is lost: in the smallest kernel with two free pages, kernel_main's thread_create takes one
      for the PML4 and one for the stack, finds none for a table, and gives back only the first. */
  method LosePage() returns (k: Machine, ghost x: int)
    ensures k.Ok() && |k.free.elems| == 1 && forall p: int :: Limbo(k.S(), p) <==> p == x
  {
    hide Fresh, Fine, TempPte, SlotsOk, Linked, CreateOutcome, SlotsFrom, SmallPage;
    ghost var s := SmallKernel(2);
    SmallKernelFresh(2);
    SmallList();
    var list := new List(9);
    list.InsertHead(8);
    list.InsertHead(7);
    k := new Machine(SmallKernel(2).m.phys, seq(9, _ => 1), list, 1, s.c);
    assert k.S() == s;
    NoneLost(s);
    TaskInit(k);
    var _, y := ThreadCreate(k);
    x := y;
  }

  /** A task slot is lost: without a free page, task_new keeps the first slot for good. */
  method LoseSlot() returns (k: Machine)
    ensures k.Ok() && Gone(k.state, k.pml4, 0) && k.freeTasks.elems == SlotsFrom(1)
  {
    hide Fresh, Fine, TempPte, SlotsOk, Linked, SlotsFrom, SmallPage;
    ghost var s := SmallKernel(0);
    SmallKernelFresh(0);
    var list := new List(7);
    k := new Machine(SmallKernel(0).m.phys, seq(7, _ => 1), list, 1, s.c);
    assert k.S() == s;
    TaskInit(k);
    SlotsAre(0);
    var _ := TaskNew(k);
  }

  lemma SmallList()
    ensures SmallKernel(2).free == [7, 8]
  {
    var f := SmallKernel(2).free;
    assert f[0] == 7 && f[1] == 8;
  }

  lemma NoneLost(s: Sys)
    requires Fresh(s)
    ensures forall p: int :: !Limbo(s, p)
  {
  }

  // ------------------------------------------------------------------------
  // What a run has to do with the memory it was started on

  /** Pages that are not to be handed out. */
  predicate Reserved(b: Plan, avail: seq<bool>, p: nat) {
    p < |avail| &&
    (!avail[p] || p < b.low || b.stack <= p < b.stack + 8 || p == b.config || p == APIC || p == IOAPIC)
  }

  /** The kernel's tables start at `pml4`, and the reserved pages of memory are boot's. */
  ghost predicate Booted(s: Sys, b: Plan, avail: seq<bool>, pml4: nat) {
    && |s.ref| == b.n && s.c.kroot == pml4
    && forall p: nat :: p < b.n && Reserved(b, avail, p) ==> p in s.c.boot
  }

  /** All pages of memory have records, no reserved page is free, and from CR3 the processor finds
      every page of memory in the direct mapping, for the kernel to write. */
  ghost predicate Grounded(x: Snap, b: Plan, avail: seq<bool>) {
    && |x.s.ref| == |x.s.m.phys| == b.n
    && (forall p: nat :: p in x.s.free ==> p < b.n && !Reserved(b, avail, p))
    && x.p.current >= 0
    && (forall v: Vpage :: Direct(v, b.n) ==>
          && Names(Leaf(x.s.m, 4, x.p.cr3, Path(x.p.current, v)), Physical(v))
          && KernelMay(x.s.m, 4, x.p.cr3, Path(x.p.current, v)))
  }

  lemma BootedGrounded(x: Snap, b: Plan, avail: seq<bool>, pml4: nat)
    requires Good(x) && Booted(x.s, b, avail, pml4)
    ensures Grounded(x, b, avail)
  {
    hide Leaf, KernelMay, KernelHalf, Exact, Forest, Sole, Direct, Physical, Reserved;
    forall v: Vpage | Direct(v, b.n)
      ensures Names(Leaf(x.s.m, 4, x.p.cr3, Path(x.p.current, v)), Physical(v))
      ensures KernelMay(x.s.m, 4, x.p.cr3, Path(x.p.current, v))
    {
      DirectIntact(x.s, x.p.current, v);
    }
    forall p: nat | p in x.s.free ensures p < b.n && p !in x.s.c.boot {
      var i :| 0 <= i < |x.s.free| && x.s.free[i] == p;
    }
  }

  /** kernel_main, and then any number of steps. */
  method Launch(m: Machine, magic: bool, segments: seq<Segment>, env: (nat, int) -> Input, steps: nat, ghost b: Plan,
          ghost avail: seq<bool>)
    returns (user: int, idle: int, o: Outcome, ghost xs: seq<Snap>, ghost log: seq<Effect>)
    requires m.Valid() && Fresh(m.S()) && NoStacks(m.S()) && m.freeTasks.elems == []
    requires (forall t: nat :: t < TASK_MAX_CNT ==> m.pml4[t] == -1) && m.cr3 == m.img.kroot
    requires forall g :: g in segments ==> Low(g)
    requires Booted(m.S(), b, avail, m.img.kroot) && m.lastId == 0
    modifies m, m.free.Repr(), m.freeTasks.Repr()
    ensures idle != NULL <==> Starts(|old(m.free.elems)|, magic, segments)
    ensures idle != NULL ==> idle >= 0 && Run(env, xs, log) && (o == Resumed ==> |log| == steps)
    ensures idle != NULL && o != Resumed ==> |log| < steps && Stops(env, xs, log, o)
    ensures idle != NULL ==> (user != NULL <==> Suffices(|old(m.free.elems)| - 4, magic, segments))
    ensures idle != NULL ==> FirstTasks(xs[0].s.m, xs[0].p, user, idle, segments) && OnlyActive(xs[0].p, user, idle)
    ensures idle != NULL ==> Ahead(xs[0].p) && IdsApart(xs[0].p) && xs[0].p.lastId <= 2
    ensures idle != NULL ==> |xs[0].s.free| == FreeAfter(|old(m.free.elems)| - 4, magic, segments) - 5
    ensures idle != NULL ==> Alive(xs[0].p, idle) && (Gentle(env, idle) ==> o != NoTasks)
    ensures idle != NULL ==>
              forall n: nat :: n < |xs| ==> xs[n].s.c.kroot == old(m.img.kroot) && Grounded(xs[n], b, avail)
    ensures idle != NULL ==> Agrees(xs[0].s.m, xs[|log|].s.m, log)
    ensures idle != NULL ==> forall n: nat, p: int :: n < |xs| ==> (Limbo(xs[n].s, p) <==> Limbo(xs[0].s, p))
  {
    hide Agrees, Gentle, Limbo, Fresh, NoStacks, Linked, Fine, TempPte, SlotsOk, Running;
    hide Low, FreeAfter, Reserved, Step, Alive, Grounded, Starts, Suffices, FirstTasks, OnlyActive;
    o, xs, log := NoTasks, [], [];
    user, idle := EnterKernel(m, magic, segments);
    if idle == NULL {
      return;
    }
    ghost var e;
    o, xs, log, e := RunMachine(m, env, steps, idle);
    assert o != Resumed ==> Step(xs[|log|], env(|log|, xs[|log|].p.current), Snap(m.S(), m.P()), e, o);
    forall n: nat | n < |xs| ensures Grounded(xs[n], b, avail) {
      BootedGrounded(xs[n], b, avail, m.img.kroot);
    }
  }

  /** Everything, from the loader's inputs to any number of steps of the running system. It starts
      exactly if the processor can follow the loader's tables and the available pages last for those
      and for the kernel's first tasks. Then it goes on for all the steps unless one of them panics,
      every state of the run is good and rests on the memory the loader was given, memory looks to every
      task as if fork had copied it, no page is lost, and a gentle idle thread rules out the panic for
      want of tasks. */
  method BootAndRun(phys: seq<seq<Word>>, pml4: nat, avail: seq<bool>, stack: nat, config: nat, freeMemory: nat,
          memory: nat, l: Place32, place: Boot.Place, magic: bool, segments: seq<Segment>, env: (nat, int) -> Input,
          steps: nat)
    returns (user: int, idle: int, o: Outcome, ghost xs: seq<Snap>, ghost log: seq<Effect>)
    requires |phys| == |avail| == memory / PAGE_SIZE && (forall p :: 0 <= p < |phys| ==> |phys[p]| == TABLE_SIZE)
    requires pml4 < |phys| && pml4 < 0x10_0000 && !avail[pml4] && !avail[0] && AvailBelow(avail, 0x10_0000)
    requires Fitting(Planned(stack, config, freeMemory, memory))
    requires l.base > 0 && l.head > 0 && HeadOutside(place, memory / PAGE_SIZE) && forall g :: g in segments ==> Low(g)
    ensures var f := ListAfter(Down(avail, |avail|), Planned(stack, config, freeMemory, memory), 6);
            && (idle != NULL <==> AvailBelow(avail, 0x8_0000) && f.Some? && Starts(|f.value|, magic, segments))
            && (idle != NULL ==> Run(env, xs, log) && |xs[0].s.free| == FreeAfter(|f.value| - 4, magic, segments) - 5)
            && (idle != NULL ==> (user != NULL <==> Suffices(|f.value| - 4, magic, segments)))
    ensures idle != NULL ==> idle >= 0 && Alive(xs[0].p, idle) && (o == Resumed ==> |log| == steps)
    ensures idle != NULL && o != Resumed ==> |log| < steps && Stops(env, xs, log, o)
    ensures idle != NULL ==> FirstTasks(xs[0].s.m, xs[0].p, user, idle, segments) && OnlyActive(xs[0].p, user, idle)
    ensures idle != NULL ==> Ahead(xs[0].p) && IdsApart(xs[0].p) && xs[0].p.lastId <= 2
    ensures idle != NULL ==>
              forall n: nat :: n < |xs| ==>
                  && xs[n].s.c.kroot == pml4
                  && Grounded(xs[n], Planned(stack, config, freeMemory, memory), avail)
    ensures idle != NULL ==> Agrees(xs[0].s.m, xs[|log|].s.m, log)
    ensures idle != NULL ==> forall n: nat, p: int :: n < |xs| ==> (Limbo(xs[n].s, p) <==> Limbo(xs[0].s, p))
    ensures idle != NULL && Gentle(env, idle) ==> o != NoTasks
  {
    hide Stage, Run, Agrees, Gentle, Limbo, Fresh, NoStacks, Linked, Marked, Looked, OffListZero, Fitting;
    hide AvailBelow, DirectMap, Entry, Low, HeadOutside, Down, ListAfter, FreeAfter, Reserved, Alive, Grounded;
    hide Starts, Suffices, FirstTasks, OnlyActive, Stops;
    user, idle, o, xs, log := NULL, NULL, NoTasks, [], [];
    var r, k; ghost var b, top;
    r, k, b, top := InitMemory(phys, pml4, avail, stack, config, freeMemory, memory);
    if r != Done {
      return;
    }
    FirstKernelPage(k.L(false).m, b, AvailBelow(avail, 0x8_0000));
    if !Entry(Mem(k.phys, [k.pml4], TABLE_SIZE), BASE).p {
      return;
    }
    forall p: nat | p < b.n && Reserved(b, avail, p) ensures p !in k.free.elems {
      ReservedKept(k.L(false), b, top, avail, p);
    }
    var m := Assemble(k, l, place, b, top);
    user, idle, o, xs, log := Launch(m, magic, segments, env, steps, b, avail);
  }

  lemma ReservedKept(x: Load, b: Plan, top: nat, avail: seq<bool>, p: nat)
    requires Stage(x, b, 6, top) && p < b.n && Reserved(b, avail, p)
    requires forall r: nat :: r in x.free ==> r < |avail| && avail[r]
    ensures p !in x.free
  {
    hide Stage;
    if avail[p] { KeptPages(x, b, top, p); }
  }

  /** With paging on, the processor finds the kernel at KERNEL_BASE or nothing at all. */
  lemma FirstKernelPage(m: Mem, b: Plan, low: bool)
    requires Fitting(b) && (DirectMap(m, b.n) <==> low)
    requires !low ==> forall i: nat :: BASE <= i < LIMIT ==> Entry(m, i) == ZERO
    ensures b.n > 0 && (Entry(m, BASE).p <==> low)
  {
    hide Entry;
    assert low ==> Entry(m, BASE + 0) == Frame(0);
  }
}
