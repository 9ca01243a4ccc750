/** src/kernel/interrupt/interrupt.c */
module Interrupt {
  import opened Mmu
  import opened PageTree
  import opened Queue
  import opened Memory
  import opened Machine
  import opened Teardown
  import opened Sharing
  import opened Views
  import opened CopyOnWrite
  import opened Scheduling
  import opened Effects
  import opened Radix
  import opened Map
  import opened Task
  import opened Syscall

  /** memcpy of one page through the virtual addresses of the address space in CR3. */
  method CopyPage(k: Machine, dst: nat, src: nat, ghost t: nat)
    requires k.Valid() && dst % PAGE_SIZE == 0 && src % PAGE_SIZE == 0
    requires var e := Leaf(k.S().m, 4, k.cr3, PathOf(t, dst)); e.p && e.ppn < |k.phys|
    requires var e := Leaf(k.S().m, 4, k.cr3, PathOf(t, src)); e.p && e.ppn < |k.phys|
    modifies k`phys
    ensures k.Valid()
    ensures var m := old(k.S().m);
            var to, from := Leaf(m, 4, k.cr3, PathOf(t, dst)).ppn, Leaf(m, 4, k.cr3, PathOf(t, src)).ppn;
            k.phys == old(k.phys)[to := old(k.phys)[from]]
  {
    var m := Mem(k.phys, k.pml4, USER_SLOTS);
    var to, from := Leaf(m, 4, k.cr3, PathOf(0, dst)).ppn, Leaf(m, 4, k.cr3, PathOf(0, src)).ppn;
    SlotIgnored(m, k.cr3, 0, t, PageOfAddr(dst));
    SlotIgnored(m, k.cr3, 0, t, PageOfAddr(src));
    k.phys := k.phys[to := k.phys[from]];
  }

  /** A walk from a PML4 does not depend on the slot it belongs to. */
  lemma SlotIgnored(m: Mem, r: int, t: nat, u: nat, v: Vpage)
    ensures Leaf(m, 4, r, Path(t, v)) == Leaf(m, 4, r, Path(u, v))
  {
    SlotIgnoredBelow(m, 4, r, t, u, v);
  }

  lemma {:induction false} SlotIgnoredBelow(m: Mem, lvl: nat, r: int, t: nat, u: nat, v: Vpage)
    requires lvl <= 4
    ensures Leaf(m, lvl, r, Path(t, v)) == Leaf(m, lvl, r, Path(u, v))
  {
    if lvl > 1 && At(m, r, Idx(Path(t, v), lvl)).p {
      SlotIgnoredBelow(m, lvl - 1, At(m, r, Idx(Path(t, v), lvl)).ppn, t, u, v);
    }
  }

  /** The new page is mapped at KERNEL_TEMP and filled with the contents of the page at `va`. */
  method FillTemp(k: Machine, t: nat, va: nat, n: nat, perm: Word, ghost s: Sys, ghost N: nat)
    requires k.Valid() && t < TASK_MAX_CNT && k.cr3 == k.pml4[t] && perm.p
    requires Faulting(s, PathOf(t, va), N) && n == s.free[0] < |s.ref| && k.S() == Popped(s)
    modifies k`phys, k`ref, k.free.Repr()
    ensures k.Valid() && FaultFits(s, PathOf(t, va), N) && k.S() == Filled(s, PathOf(t, va), perm.(ppn := n))
  {
    hide Inv, Sole, Leaf, Node, Pte, Linked, Grown, Retargeted, StoredAt, Tables, Maps, Exact, Forest;
    hide KernelHalf, PageOfAddr, RoundDown;
    ghost var q := PathOf(t, va);
    Layout();
    RoundDownSamePage(va);
    StagedInv(s, q, N, perm.(ppn := n));
    var ok := PageInsert(k, k.pml4[t], n, KERNEL_TEMP, perm, t);
    assert ok;
    assert k.S() == Staged(s, perm.(ppn := n));
    TempNode(k.S(), k.pml4[t], t);
    RootLeaf(k.S().m, k.pml4[t], q);
    FaultPages(s, q, N);
    RoundDownIs(va);
    CopyPage(k, KERNEL_TEMP, RoundDown(va), t);
  }

  /** The copy-on-write part of page_fault_handler, for an entry in the page table `T` and a page `n`
      just taken from the free list. Neither page_insert can fail: both page tables are there. */
  method CopyOnWriteFault(k: Machine, t: nat, va: nat, T: nat, n: nat, ghost s: Sys)
    requires k.Valid() && t < TASK_MAX_CNT && k.cr3 == k.pml4[t]
    requires Faulting(s, PathOf(t, va), T) && n == s.free[0] < |s.ref| && k.S() == Popped(s)
    modifies k`phys, k`ref, k.free.Repr()
    ensures k.Valid() && FaultFits(s, PathOf(t, va), T) && k.S() == Copy(s, PathOf(t, va), T) && Inv(k.S())
  {
    hide Inv, Sole, Leaf, Node, Pte, Linked, Grown, Retargeted, Tables, Maps, Exact, Forest, KernelHalf, Copy;
    hide Filled, Stored;
    hide PageOfAddr, RoundDown;
    var i1 := PageOfAddr(va).i1;
    ghost var q := PathOf(t, va);
    Layout();
    RoundDownSamePage(va);
    FaultPages(s, q, T);
    FaultWord(s, q, T);
    var perm := k.phys[T][i1].(w := true);
    FillTemp(k, t, va, n, perm, s, T);
    FilledInv(s, q, T, perm.(ppn := n));
    FilledThenStored(s, q, T, perm.(ppn := n));
    RootLeaf(k.S().m, k.pml4[t], q);
    assert k.phys[T][i1] == Pte(s.m, q);
    var ok := PageInsert(k, k.pml4[t], n, RoundDown(va), k.phys[T][i1].(w := true), t);
    assert ok;
    TempNode(k.S(), k.pml4[t], t);
    PageRemove(k, k.pml4[t], KERNEL_TEMP, t);
  }

  lemma FaultWord(s: Sys, q: Path, N: nat)
    requires Faulting(s, q, N)
    ensures N < |s.m.phys| && q.v.i1 < |s.m.phys[N]| && s.m.phys[N][q.v.i1] == Pte(s.m, q)
  {
  }

  /** The fault can be handled: a write to a copy-on-write page while a page is free. */
  ghost predicate Curable(s: Sys, q: Path, write: bool) {
    write && !KernelPath(q) && InTree(s.m, q) && Pte(s.m, q).cow && |s.free| > 0
  }

  /** What a fault of the task `t` at the address `va` does to memory and to the records. */
  ghost predicate FaultDone(s: Sys, p: Proc, s': Sys, p': Proc, t: nat, va: nat, write: bool, e: Effect, o: Outcome) {
    && t < |p.state| == |s.m.roots| && p.current == t
    && if Curable(s, PathOf(t, va), write) then e == Quiet && Handled(s, s', PathOf(t, va)) && Again(p, p', o)
       else
         && e == Ended(t) && Destroyed(s, s', t)
         && Turn(s'.m.roots, Released(p, t, s.m.roots[t], s.c.kroot), p', o)
  }

  /** A fault of the task `t` at any address `va`. */
  method PageFaultHandler(k: Machine, t: nat, va: nat, write: bool) returns (o: Outcome, ghost e: Effect)
    requires k.Ok() && Entered(k.pml4, k.P(), t) && k.pml4[t] >= 0
    modifies k, k.free.Repr(), k.freeTasks.Repr()
    ensures k.Ok() && k.img == old(k.img) && (o == Resumed ==> Running(k.pml4, k.P()))
    ensures FaultDone(old(k.S()), old(k.P()), k.S(), k.P(), t, va, write, e, o)
  {
    hide Inv, Sole, Linked, Leaf, Node, Pte, SlotsOk, Handled, Curable, TempPte, Turn, Destroyed, PageOfAddr;
    ghost var s, q := k.S(), PathOf(t, va);
    var p, T := PageLookup(k, k.pml4[t], va, t);
    CurableWhen(s, k.pml4[t], q, write);
    if write && T != NULL && k.phys[T][PageOfAddr(va).i1].cow {
      var done := TryCopy(k, t, va, T);
      if done {
        TaskRun(k, t);
        return Resumed, Quiet;
      }
    }
    o := EndAndSchedule(k, t);
    e := Ended(t);
  }

  /** A write to the copy-on-write entry for `va` in the page table `T`; false without a free page. */
  method TryCopy(k: Machine, t: nat, va: nat, T: nat) returns (done: bool)
    requires k.Ok() && t < TASK_MAX_CNT && k.cr3 == k.pml4[t]
    requires Node(k.S().m, 4, k.pml4[t], PathOf(t, va), 1) == Some(T) && Leaf(k.S().m, 4, k.pml4[t], PathOf(t, va)).cow
    modifies k`phys, k`ref, k.free.Repr()
    ensures k.Ok() && done == (|old(k.free.elems)| > 0)
    ensures !done ==> k.S() == old(k.S())
    ensures done ==> Handled(old(k.S()), k.S(), PathOf(t, va))
  {
    hide Inv, Sole, Linked, Leaf, Node, Pte, SlotsOk, Handled, Faulting, FaultFits, Copy, PageOfAddr;
    ghost var s, q := k.S(), PathOf(t, va);
    FaultIs(s, k.pml4[t], q);
    assert Leaf(s.m, 4, k.pml4[t], q).p;
    var n := PageAlloc(k);
    done := n != NULL;
    if done {
      CopyOnWriteFault(k, t, va, T, n, s);
      CopyDone(s, q, T);
    }
  }

  lemma CurableWhen(s: Sys, r: int, q: Path, write: bool)
    requires Fine(s) && TempPte(s.m, s.c) == ZERO && Root(s, r, q) && s.m.width == USER_SLOTS
    ensures Curable(s, q, write) <==> write && Node(s.m, 4, r, q, 1).Some? && Leaf(s.m, 4, r, q).cow && |s.free| > 0
  {
    hide Inv, Sole, Leaf, Node, Pte;
    RootLeaf(s.m, r, q);
    if Leaf(s.m, 4, r, q).cow { CowIsUser(s, r, q); }
    if Node(s.m, 4, r, q, 1).None? { NoNodeNoLeaf(s.m, 4, r, q); }
  }

  /** A copy-on-write entry is present, and its page table is the one page_lookup found. */
  lemma FaultIs(s: Sys, r: int, q: Path)
    requires Fine(s) && TempPte(s.m, s.c) == ZERO && Root(s, r, q) && s.m.width == USER_SLOTS
    requires Node(s.m, 4, r, q, 1).Some? && Leaf(s.m, 4, r, q).cow
    ensures Leaf(s.m, 4, r, q).p && Node(s.m, 4, r, q, 1).value >= 0
    ensures |s.free| > 0 ==> Faulting(s, q, Node(s.m, 4, r, q, 1).value)
  {
    hide Inv, Sole, Leaf, Node, Pte;
    CowIsUser(s, r, q);
    WalkHolds(s, r, q);
  }

  lemma CopyDone(s: Sys, q: Path, N: nat)
    requires Faulting(s, q, N) && Inv(s) && FaultFits(s, q, N) && Inv(Copy(s, q, N))
    ensures var s' := Copy(s, q, N); Fine(s') && Handled(s, s', q) && TempPte(s'.m, s.c) == ZERO
  {
    hide Inv, Sole, Leaf, Node, Pte;
    CopySole(s, q, N);
    CopyHandled(s, q, N);
  }

  /** Two live tasks have different PML4s. */
  lemma RootsDiffer(s: Sys, t: nat, u: nat)
    requires Inv(s) && t < |s.m.roots| && u < |s.m.roots| && t != u && s.m.roots[t] >= 0 && s.m.roots[u] >= 0
    ensures s.m.roots[t] != s.m.roots[u]
  {
    RootIsTable(s.m, t);
    RootIsTable(s.m, u);
    if s.m.roots[t] == s.m.roots[u] { OneOwner(s.m, t, u, s.m.roots[t]); }
  }

  /** What a key press, which may complete a kill command, does to the records: the interrupted
      task goes on, or another one if it was the victim. */
  ghost predicate KeyDone(s: Sys, p: Proc, s': Sys, p': Proc, t: nat, kill: Option<nat>, e: Effect, o: Outcome) {
    && t < |p.state| == |s.m.roots| && p.current == t
    && (e == Quiet || e.Ended?)
    && (e == Quiet ==> (kill.Some? ==> forall i: nat :: !Victim(p, kill.value, i)) && s' == s && Again(p, p', o))
    && (e.Ended? ==> kill.Some? && e.slot < |p.state| && Victim(p, kill.value, e.slot) && Destroyed(s, s', e.slot))
    && (e.Ended? ==>
          if e.slot == t then Turn(s'.m.roots, Released(p, t, s.m.roots[t], s.c.kroot), p', o)
          else Again(Released(p, e.slot, s.m.roots[e.slot], s.c.kroot), p', o))
  }

  /** After the kill the interrupted task is either untouched or gone. */
  lemma KilledProc(roots: seq<int>, p: Proc, t: nat, x: nat, kroot: nat)
    requires Entered(roots, p, t) && x < |roots| && (x != t ==> roots[x] != roots[t])
    ensures var p1 := Released(p, x, roots[x], kroot); NoneRuns(p1.state) && (p1.state[t] == READY <==> x != t)
    ensures x != t ==> Entered(roots[x := -1], Released(p, x, roots[x], kroot), t)
  {
  }

  /** A key press, which may complete a kill command. */
  method KeyboardHandler(k: Machine, t: nat, kill: Option<nat>) returns (o: Outcome, ghost e: Effect)
    requires k.Ok() && Entered(k.pml4, k.P(), t) && k.pml4[t] >= 0
    modifies k`phys, k`ref, k.free.Repr(), k`pml4, k`state, k`next, k`current, k`cr3, k.freeTasks.Repr()
    ensures k.Ok() && (o == Resumed ==> Running(k.pml4, k.P()))
    ensures KeyDone(old(k.S()), old(k.P()), k.S(), k.P(), t, kill, e, o)
  {
    hide Inv, Sole, Linked, TempPte, SlotsOk, InSpace, Destroyed, Running, Dispatched, Victim;
    ghost var s, p := k.S(), k.P();
    e := Quiet;
    if kill.Some? {
      ghost var x := TaskKill(k, kill.value);
      if x != NULL {
        if x != t { RootsDiffer(s, t, x); }
        KilledProc(s.m.roots, p, t, x, k.img.kroot);
        RazedRoots(s, k.S(), x);
        e := Ended(x);
      }
    }
    if k.state[t] == READY {
      ghost var p1 := k.P();
      TaskRun(k, t);
      RunAgain(k.pml4, p1, k.P(), t);
      o := Resumed;
    } else {
      o := Yield(k);
    }
  }

  lemma RunAgain(roots: seq<int>, p: Proc, p': Proc, t: nat)
    requires Entered(roots, p, t) && p' == p.(state := p.state[t := RUN])
    ensures Running(roots, p') && Again(p, p', Resumed)
  {
  }

  // ------------------------------------------------------------------------
  // interrupt_handler

  /** `bad`: the kernel's registers at the fault of a puts that cannot read its string. */
  datatype Event =
    | Breakpoint
    | PageFault(va: nat, write: bool)
    | Exception
    | Syscall(bad: Option<Context>)
    | Timer
    | Keyboard(kill: Option<nat>)

  /** What an interrupt does, from the records `p` with the interrupted task's context saved. */
  ghost predicate Handles(s: Sys, p: Proc, s': Sys, p': Proc, ev: Event, e: Effect, o: Outcome) {
    && 0 <= p.current < |p.state| == |p.ctx| == |s.m.roots|
    && match ev
       case Breakpoint =>
         e == Quiet && s' == s && if p.ctx[p.current].user then Again(p, p', o) else Turn(s.m.roots, p, p', o)
       case PageFault(va, write) => FaultDone(s, p, s', p', p.current, va, write, e, o)
       case Exception =>
         && e == Ended(p.current) && Destroyed(s, s', p.current)
         && Turn(s'.m.roots, Released(p, p.current, s.m.roots[p.current], s.c.kroot), p', o)
       case Syscall(bad) => SyscallDone(s, p, s', p', p.current, bad, e, o)
       case Timer => e == Quiet && s' == s && Turn(s.m.roots, p, p', o)
       case Keyboard(kill) => KeyDone(s, p, s', p', p.current, kill, e, o)
  }

  /** Whom a key press kills, told from the records alone: the first slot that is RUN or READY and has
      the id, if it is a user task, and otherwise nobody. */
  lemma KillExact(s: Sys, p: Proc, s': Sys, p': Proc, kill: Option<nat>, e: Effect, o: Outcome)
    requires SlotsOk(s.m.roots, p) && Handles(s, p, s', p', Keyboard(kill), e, o)
    ensures e.Ended? ==>
              && kill.Some? && e.slot < |p.state| && (p.state[e.slot] == RUN || p.state[e.slot] == READY)
              && p.id[e.slot] == kill.value && p.ctx[e.slot].user
              && forall j: nat :: j < e.slot && (p.state[j] == RUN || p.state[j] == READY) ==> p.id[j] != kill.value
    ensures !e.Ended? ==> e == Quiet && s' == s
    ensures !e.Ended? && kill.Some? ==>
              forall i: nat ::
                  && i < |p.state| && (p.state[i] == RUN || p.state[i] == READY) && p.id[i] == kill.value
                  && (forall j: nat :: j < i && (p.state[j] == RUN || p.state[j] == READY) ==> p.id[j] != kill.value)
                  ==> !p.ctx[i].user
  {
    hide Destroyed, Turn, Again;
    if e.Ended? {
      forall j: nat | j < e.slot && (p.state[j] == RUN || p.state[j] == READY) ensures p.id[j] != kill.value {
        assert !Active(p, kill.value, j);
      }
    } else if kill.Some? {
      forall i: nat |
        && i < |p.state| && (p.state[i] == RUN || p.state[i] == READY) && p.id[i] == kill.value
        && (forall j: nat :: j < i && (p.state[j] == RUN || p.state[j] == READY) ==> p.id[j] != kill.value)
        ensures !p.ctx[i].user
      {
        assert !Victim(p, kill.value, i);
      }
    }
  }

  /** A fault that is no write, or not in the task's own part, ends the task. */
  lemma OtherFaultsEnd(s: Sys, p: Proc, s': Sys, p': Proc, va: nat, write: bool, e: Effect, o: Outcome)
    requires Handles(s, p, s', p', PageFault(va, write), e, o)
    requires !write || PageOfAddr(va).i4 >= USER_SLOTS || !Pte(s.m, PathOf(p.current, va)).p
    requires Inv(s)
    ensures e == Ended(p.current) && p'.current != p.current
  {
    hide PageOfAddr, Destroyed, Pte;
    var q := PathOf(p.current, va);
    if InTree(s.m, q) { AbsentPlain(s, q); }
  }

  lemma AbsentPlain(s: Sys, q: Path)
    requires Inv(s) && InTree(s.m, q)
    ensures !Pte(s.m, q).p ==> !Pte(s.m, q).cow
  {
    hide Exact, KernelHalf, Once;
  }

  /** One interrupt: from task code, through the kernel, back to task code or into a panic. */
  method InterruptHandler(k: Machine, ctx: Context, ev: Event) returns (o: Outcome, ghost e: Effect)
    requires k.Ok() && Running(k.pml4, k.P())
    modifies k, k.free.Repr(), k.freeTasks.Repr()
    ensures k.Ok() && k.img == old(k.img) && (o == Resumed ==> Running(k.pml4, k.P()))
    ensures Handles(old(k.S()), Saved(old(k.P()), ctx), k.S(), k.P(), ev, e, o)
  {
    hide Inv, Sole, Linked, TempPte, SlotsOk, InSpace, Running, FaultDone, SyscallDone, KeyDone, Turn, Destroyed;
    var t := Enter(k, ctx);
    e := Quiet;
    match ev {
      case Breakpoint =>
        if ctx.user {
          ghost var p1 := k.P();
          TaskRun(k, t);
          RunAgain(k.pml4, p1, k.P(), t);
          o := Resumed;
        } else {
          o := Yield(k);
        }
      case PageFault(va, write) =>
        o, e := PageFaultHandler(k, t, va, write);
      case Exception =>
        o := EndAndSchedule(k, t);
        e := Ended(t);
      case Syscall(bad) =>
        o, e := SyscallHandler(k, t, bad);
      case Timer =>
        o := Yield(k);
      case Keyboard(kill) =>
        o, e := KeyboardHandler(k, t, kill);
    }
  }

  /** The entry of interrupt_handler: the context is saved and the interrupted task is READY. */
  method Enter(k: Machine, ctx: Context) returns (t: nat)
    requires k.Ok() && Running(k.pml4, k.P())
    modifies k`ctx, k`state
    ensures k.Ok() && t == k.current && Entered(k.pml4, k.P(), t) && k.pml4[t] >= 0 && k.P() == Saved(old(k.P()), ctx)
  {
    hide Fine, Linked, TempPte;
    t := k.current;
    k.ctx := k.ctx[t := ctx];
    k.state := k.state[t := READY];
  }

  // ------------------------------------------------------------------------
  // What follows for the tasks

  /** What an interrupt means to the tasks: exactly its effect on the eager machine. */
  lemma HandlesMeans(s: Sys, p: Proc, s': Sys, p': Proc, ev: Event, e: Effect, o: Outcome)
    requires Inv(s) && Inv(s') && Handles(s, p, s', p', ev, e, o)
    ensures Means(s.m, s'.m, e)
  {
    hide Inv, Means, Turn, Again, Destroyed, Handled, SyscallDone, Victim, Pte;
    MeansRefl(s.m);
    if ev.Syscall? {
      SyscallMeans(s, p, s', p', p.current, ev.bad, e, o);
    } else if e.Ended? {
      DestroyedMeans(s, s', e.slot);
    } else if ev.PageFault? {
      CowPresent(s, PathOf(p.current, ev.va));
      HandledViews(s, s', PathOf(p.current, ev.va));
      QuietMeans(s.m, s'.m);
    }
  }

  lemma CowPresent(s: Sys, q: Path)
    requires Inv(s) && InTree(s.m, q) && Pte(s.m, q).cow
    ensures Pte(s.m, q).p
  {
  }

  /** No interrupt loses a page or finds a lost one. */
  lemma HandlesLimbo(s: Sys, p: Proc, s': Sys, p': Proc, ev: Event, e: Effect, o: Outcome, x: int)
    requires Inv(s) && Inv(s') && Handles(s, p, s', p', ev, e, o)
    ensures Limbo(s', x) <==> Limbo(s, x)
  {
    hide Inv, Turn, Again, Destroyed, Handled, Victim, Pte, ForkOutcome, Curable, Limbo;
    if e.Ended? {
      DestroyedUse(s, s', e.slot, x);
    } else if ev.PageFault? {
      HandledLimbo(s, s', PathOf(p.current, ev.va), x);
    } else if ev.Syscall? && p.ctx[p.current].rax % 0x1_0000_0000 == 2 {
      var p1: Proc :| ForkOutcome(s, p, s', p1, p.current, SlotOf(e));
      ForkLimbo(s, p, s', p1, p.current, SlotOf(e), x);
    }
  }

  lemma ForkLimbo(s: Sys, p: Proc, s': Sys, p': Proc, t: nat, c: int, x: int)
    requires ForkOutcome(s, p, s', p', t, c)
    ensures Limbo(s', x) <==> Limbo(s, x)
  {
    hide Slot, View, Pte, SameViews, Tables, TablesFor;
  }

  /** The interrupted task, if it is kernel task `i`, has only broken or been interrupted from
      outside. */
  predicate Calm(p: Proc, ctx: Context, ev: Event, i: nat) {
    p.current == i ==> !ctx.user && (ev.Breakpoint? || ev.Timer? || ev.Keyboard?)
  }

  /** Kernel tasks that behave calmly stay alive, and with one of them there is always a task to run. */
  lemma IdleSaves(s: Sys, p: Proc, ctx: Context, s': Sys, p': Proc, ev: Event, e: Effect, o: Outcome, i: nat)
    requires SlotsOk(s.m.roots, p) && Running(s.m.roots, p) && Handles(s, Saved(p, ctx), s', p', ev, e, o)
    requires Alive(p, i) && Calm(p, ctx, ev, i)
    ensures Alive(p', i) && o != NoTasks
  {
    hide Curable, Handled, ForkReturns, Turn, Again, SlotsOk, Destroyed;
    SavedIs(s.m.roots, p, ctx);
    var p1, t := Saved(p, ctx), p.current;
    assert Alive(p1, i);
    TurnsSpare(s, p1, t, s', p', o, i);
    if Again(p1, p', o) { AgainSpares(p1, p', o); }
    if ev.Keyboard? && e.Ended? {
      ReleasedSpares(p1, e.slot, s.m.roots[e.slot], s.c.kroot);
      var p2 := Released(p1, e.slot, s.m.roots[e.slot], s.c.kroot);
      if Again(p2, p', o) { AgainSpares(p2, p', o); }
    }
    if ev.Syscall? && ctx.rax % 0x1_0000_0000 == 2 { ForkSpares(s, p1, s', p', t, e, o); }
    if ev.Syscall? && ev.bad.Some? {
      SavedTwice(p, ctx, ev.bad.value);
      SavedIs(s.m.roots, p, ev.bad.value);
      TurnsSpare(s, Saved(p, ev.bad.value), t, s', p', o, i);
    }
  }

  /** A schedule, after the end of the task `t` or without it, spares every other kernel task. */
  lemma TurnsSpare(s: Sys, p: Proc, t: nat, s': Sys, p': Proc, o: Outcome, i: nat)
    requires NoneRuns(p.state) && t < |p.state| && t < |s.m.roots| && (Alive(p, i) || i == t)
    ensures Turn(s'.m.roots, Released(p, t, s.m.roots[t], s.c.kroot), p', o) && i != t ==> Alive(p', i) && o != NoTasks
    ensures Turn(s'.m.roots, p, p', o) && Alive(p, i) ==> Alive(p', i) && o != NoTasks
  {
    hide Turn;
    var gone := Released(p, t, s.m.roots[t], s.c.kroot);
    ReleasedSpares(p, t, s.m.roots[t], s.c.kroot);
    if Turn(s'.m.roots, gone, p', o) { TurnSpares(s'.m.roots, gone, p', o); }
    if Turn(s'.m.roots, p, p', o) { TurnSpares(s'.m.roots, p, p', o); }
  }

  lemma SavedTwice(p: Proc, ctx: Context, inner: Context)
    requires 0 <= p.current < |p.state| == |p.ctx|
    ensures Saved(Saved(p, ctx), inner) == Saved(p, inner)
  {
  }

  lemma SavedIs(roots: seq<int>, p: Proc, ctx: Context)
    requires SlotsOk(roots, p) && Running(roots, p)
    ensures |p.ctx| == |p.state| && Entered(roots, Saved(p, ctx), p.current) && SlotsOk(roots, Saved(p, ctx))
    ensures roots[p.current] >= 0
  {
  }

  lemma ForkSpares(s: Sys, p: Proc, s': Sys, p': Proc, t: nat, e: Effect, o: Outcome)
    requires SlotsOk(s.m.roots, p) && Entered(s.m.roots, p, t) && s.m.roots[t] >= 0
    requires ForkReturns(s, p, s', p', t, e, o)
    ensures Spares(p, p', o, t) && p'.next == p.next && o == Resumed && !e.Ended?
  {
    hide SlotsOk, ForkOutcome;
    var p1: Proc :| ForkOutcome(s, p, s', p1, t, SlotOf(e))
        && Answered(p1, p', t, if e == Quiet then -1 else ToInt(p'.id[e.child]), o);
    ForkEntered(s, p, s', p1, t, SlotOf(e));
  }
}
