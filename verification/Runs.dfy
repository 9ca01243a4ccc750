/** Whole runs of the system: task code stores to memory and is interrupted, in any order. */
module Runs {
  import opened Mmu
  import opened PageTree
  import opened Queue
  import opened Memory
  import opened Machine
  import opened Teardown
  import opened Sharing
  import opened Views
  import opened CopyOnWrite
  import opened Scheduling
  import opened Effects
  import opened Radix
  import opened Task
  import opened Syscall
  import opened Interrupt

  /** The eager machine over a whole run. */
  function EagerRun(mem: Path -> Option<Cell>, log: seq<Effect>): Path -> Option<Cell> {
    if |log| == 0 then mem else Eager(EagerRun(mem, log[..|log| - 1]), log[|log| - 1])
  }

  /** The parent of every fork is a slot of the task array. */
  ghost predicate Proper(m: Mem, e: Effect) {
    e.Cloned? ==> e.parent < |m.roots|
  }

  /** Memory looks as the eager machine says after `log`. */
  ghost predicate Agrees(m0: Mem, m: Mem, log: seq<Effect>) {
    && SameShape(m0, m)
    && forall q: Path :: InTree(m0, q) ==> View(m, q) == EagerRun(Seen(m0), log)(q)
  }

  lemma AgreesStart(m: Mem)
    ensures Agrees(m, m, [])
  {
  }

  /** One more step of the kernel is one more step of the eager machine. */
  lemma AgreesStep(m0: Mem, m: Mem, m': Mem, log: seq<Effect>, e: Effect)
    requires Agrees(m0, m, log) && Means(m, m', e) && Proper(m, e)
    ensures Agrees(m0, m', log + [e])
  {
    hide View;
    assert (log + [e])[..|log|] == log;
    var a, b := Seen(m), EagerRun(Seen(m0), log);
    forall q: Path | InTree(m0, q) ensures View(m', q) == EagerRun(Seen(m0), log + [e])(q) {
      assert a(q) == b(q);
      if e.Cloned? { assert InTree(m0, Path(e.parent, q.v)) && a(Path(e.parent, q.v)) == b(Path(e.parent, q.v)); }
      assert Eager(a, e)(q) == Eager(b, e)(q);
    }
  }

  /** Copy-on-write refines eager copying: along every sequence of memory states in which each step
      means what its effect says, every task sees what the eager machine computes. */
  lemma {:induction false} RefinesEager(ms: seq<Mem>, log: seq<Effect>)
    requires |ms| == |log| + 1
    requires forall i :: 0 <= i < |log| ==> Means(ms[i], ms[i + 1], log[i]) && Proper(ms[i], log[i])
    ensures Agrees(ms[0], ms[|log|], log)
  {
    var n := |log|;
    if n == 0 {
      AgreesStart(ms[0]);
    } else {
      RefinesEager(ms[..n], log[..n - 1]);
      AgreesStep(ms[0], ms[n - 1], ms[n], log[..n - 1], log[n - 1]);
      assert log[..n - 1] + [log[n - 1]] == log;
    }
  }

  // ------------------------------------------------------------------------
  // A store by user code

  /** A task may read exactly what it sees, by the flags of every entry of the walk. */
  lemma ReadsWhatItSees(s: Sys, r: int, q: Path)
    requires Fine(s) && TempPte(s.m, s.c) == ZERO && Root(s, r, q) && s.m.width == USER_SLOTS
    ensures UserMay(s.m, 4, r, q, false) <==> InTree(s.m, q) && View(s.m, q).Some?
  {
    hide Inv, Leaf, Pte, PageOf, UserMay;
    UserMayIs(s, r, q, false);
  }

  /** In a private part the page table entry decides what user code may do, and elsewhere it may do
      nothing. */
  lemma UserMayIs(s: Sys, r: int, q: Path, write: bool)
    requires Fine(s) && TempPte(s.m, s.c) == ZERO && Root(s, r, q) && s.m.width == USER_SLOTS
    ensures UserMay(s.m, 4, r, q, write) <==> InTree(s.m, q) && Pte(s.m, q).p && (write ==> Pte(s.m, q).w)
    ensures InTree(s.m, q) ==> Leaf(s.m, 4, r, q) == Pte(s.m, q)
  {
    hide Leaf, Pte, PageOf, UserMay, KernelHalf, Forest;
    if InTree(s.m, q) {
      RootLeaf(s.m, r, q);
      NothingShut(s, q.t);
      OpenWalk(s.m, 4, r, q, write);
    } else if UserMay(s.m, 4, r, q, write) {
      UserMayLeaf(s.m, 4, r, q, write);
      KernelPlain(s, r, q);
    }
  }

  /** No entry of a task's tables keeps user code out. */
  lemma NothingShut(s: Sys, t: nat)
    requires Inv(s) && t < |s.m.roots| && s.m.roots[t] >= 0
    ensures Cnt(s.m, 4, s.m.roots[t], 0, SHUT, false) == 0
  {
    hide KernelHalf, Forest;
    assert Refs(s, SHUT) == 0;
    EntInCnt(s.m, 5, TOP, 0, t, SHUT, false);
  }

  /** The page is the task's to write, at once or after a copy. */
  ghost predicate Writable(s: Sys, q: Path) {
    InTree(s.m, q) && View(s.m, q).Some? && View(s.m, q).value.writable
  }

  /** One word of the page mapped at `q` has been set, and nothing else has changed. */
  ghost predicate WordSet(s: Sys, s': Sys, q: Path, off: Index, word: Word) {
    && Pte(s.m, q).p && Pte(s.m, q).w && Pte(s.m, q).ppn < |s.m.phys| && off < |s.m.phys[Pte(s.m, q).ppn]|
    && s' == s.(m := SetWord(s.m, Pte(s.m, q).ppn, off, word))
  }

  /** A handled fault, and then the store. */
  ghost predicate CopiedThenSet(s: Sys, s': Sys, q: Path, off: Index, word: Word) {
    exists mid: Sys :: Fine(mid) && Handled(s, mid, q) && WordSet(mid, s', q, off, word)
  }

  /** What a store to word `off` of page `q.v` by the running task `q.t` does: it happens at once if
      the entry is writable, after a copy if the page is copy-on-write and a page is free for the
      copy, and otherwise the task ends. */
  ghost predicate StoreDone(s: Sys, p: Proc, s': Sys, p': Proc, q: Path, off: Index, word: Word, e: Effect,
          o: Outcome) {
    && q.t == p.current && q.t < |p.state| == |p.ctx| == |s.m.roots|
    && if Writable(s, q) && (Pte(s.m, q).w || |s.free| > 0) then
         && e == Poked(q.t, q.v, off, word) && p' == p && o == Resumed
         && if Pte(s.m, q).w then WordSet(s, s', q, off, word)
            else Pte(s.m, q).cow && CopiedThenSet(s, s', q, off, word)
       else
         && e == Ended(q.t) && Destroyed(s, s', q.t)
         && Turn(s'.m.roots, Released(Saved(p, p.ctx[q.t]), q.t, s.m.roots[q.t], s.c.kroot), p', o)
  }

  /** The word of a page that holds the byte at an address. */
  function Offset(va: nat): (off: Index)
    ensures 8 * off <= va % PAGE_SIZE < 8 * off + 8
  {
    va % PAGE_SIZE / 8
  }

  lemma SavedAgain(roots: seq<int>, p: Proc, p': Proc, o: Outcome)
    requires Running(roots, p) && |p.ctx| == |p.state| && Again(Saved(p, p.ctx[p.current]), p', o)
    ensures p' == p && o == Resumed
  {
    assert p.ctx[p.current := p.ctx[p.current]] == p.ctx;
    assert p.state[p.current := READY][p.current := RUN] == p.state;
  }

  /** What the processor and the fault handler make of an entry. */
  lemma StoreCases(s: Sys, r: int, q: Path)
    requires Fine(s) && TempPte(s.m, s.c) == ZERO && Root(s, r, q) && s.m.width == USER_SLOTS
    ensures UserMay(s.m, 4, r, q, true) <==> Writable(s, q) && Pte(s.m, q).w
    ensures UserMay(s.m, 4, r, q, true) ==> InTree(s.m, q) && Pte(s.m, q) == Leaf(s.m, 4, r, q)
    ensures !UserMay(s.m, 4, r, q, true) ==>
              (Curable(s, q, true) <==> Writable(s, q) && Pte(s.m, q).cow && |s.free| > 0)
    ensures Writable(s, q) ==> Pte(s.m, q).w || Pte(s.m, q).cow
  {
    hide Inv, Leaf, Pte, PageOf, UserMay;
    UserMayIs(s, r, q, true);
    if InTree(s.m, q) && Pte(s.m, q).cow { CowPresent(s, q); }
  }

  /** After the fault has been handled the processor lets the store through. */
  lemma StoreUnblocked(s: Sys, s1: Sys, q: Path, r: int)
    requires Fine(s1) && TempPte(s1.m, s1.c) == ZERO && Root(s1, r, q) && s1.m.width == USER_SLOTS
    requires Handled(s, s1, q) && Pte(s.m, q).p
    ensures UserMay(s1.m, 4, r, q, true) && Pte(s1.m, q) == Leaf(s1.m, 4, r, q)
  {
    hide Inv, Leaf, Pte, PageOf, Tables, Maps, UserMay;
    UserMayIs(s1, r, q, true);
    assert InTree(s1.m, q);
  }

  lemma CurablePte(s: Sys, q: Path)
    requires Fine(s) && Curable(s, q, true)
    ensures InTree(s.m, q) && Pte(s.m, q).p && Pte(s.m, q).cow && q.v.i4 < USER_SLOTS
  {
    hide Pte;
    CowPresent(s, q);
  }

  lemma HandledRoots(s: Sys, s': Sys, q: Path)
    requires Handled(s, s', q)
    ensures s'.m.roots == s.m.roots
  {
  }

  /** A task that has been ended is not chosen. */
  lemma TurnGone(roots: seq<int>, p: Proc, t: nat, r: int, kroot: nat, p': Proc)
    requires t < |p.state| && Turn(roots, Released(p, t, r, kroot), p', Resumed)
    ensures p'.current != t
  {
  }

  /** A store the processor lets through. */
  method PokeWord(k: Machine, t: nat, va: nat, word: Word)
    requires k.Ok() && t < TASK_MAX_CNT && k.pml4[t] == k.cr3 && PageOfAddr(va).i4 < USER_SLOTS
    requires Pte(k.S().m, PathOf(t, va)) == Leaf(k.S().m, 4, k.cr3, PathOf(t, va))
    requires UserMay(k.S().m, 4, k.cr3, PathOf(t, va), true)
    modifies k`phys
    ensures k.Ok() && WordSet(old(k.S()), k.S(), PathOf(t, va), Offset(va), word)
  {
    hide Inv, Sole, Linked, TempPte, SlotsOk, InSpace, Means, Leaf, Pte, PageOfAddr, Offset, UserMay;
    UserMayLeaf(k.S().m, 4, k.cr3, PathOf(t, va), true);
    StoreMeans(k.S(), PathOf(t, va), Offset(va), word);
    var p := Leaf(Mem(k.phys, k.pml4, USER_SLOTS), 4, k.cr3, PathOf(t, va)).ppn;
    k.phys := k.phys[p := k.phys[p][Offset(va) := word]];
  }

  /** The running task writes one word at `va`, through the page fault handler if it must. */
  method UserStore(k: Machine, va: nat, word: Word) returns (o: Outcome, ghost e: Effect)
    requires k.Ok() && Running(k.pml4, k.P()) && k.ctx[k.current].user
    modifies k, k.free.Repr(), k.freeTasks.Repr()
    ensures k.Ok() && k.img == old(k.img) && (o == Resumed ==> Running(k.pml4, k.P()))
    ensures StoreDone(old(k.S()), old(k.P()), k.S(), k.P(), PathOf(old(k.current), va), Offset(va), word, e, o)
  {
    hide Inv, Sole, Linked, TempPte, SlotsOk, InSpace, Leaf, Pte, Handled, Curable, Writable, Turn, Again, Destroyed;
    hide WordSet, UserMay;
    hide PageOfAddr, Offset;
    var t := k.current;
    ghost var s, p, q := k.S(), k.P(), PathOf(t, va);
    StoreCases(s, k.cr3, q);
    if UserMay(Mem(k.phys, k.pml4, USER_SLOTS), 4, k.cr3, PathOf(t, va), true) {
      PokeWord(k, t, va, word);
      return Resumed, Poked(t, q.v, Offset(va), word);
    }
    o, e := InterruptHandler(k, k.ctx[t], PageFault(va, true));
    if Curable(s, q, true) {
      SavedAgain(s.m.roots, p, k.P(), o);
    } else if o == Resumed {
      TurnGone(k.pml4, Saved(p, p.ctx[t]), t, s.m.roots[t], s.c.kroot, k.P());
    }
    if o == Resumed && k.current == t {
      CurablePte(s, q);
      ghost var mid := k.S();
      HandledRoots(s, mid, q);
      StoreUnblocked(s, mid, q, k.cr3);
      PokeWord(k, t, va, word);
      assert Fine(mid) && Handled(s, mid, q) && WordSet(mid, k.S(), q, Offset(va), word);
      return Resumed, Poked(t, q.v, Offset(va), word);
    }
  }

  /** A store means its effect on the eager machine. */
  lemma StoreDoneMeans(s: Sys, p: Proc, s': Sys, p': Proc, q: Path, off: Index, word: Word, e: Effect, o: Outcome)
    requires Fine(s) && Inv(s') && StoreDone(s, p, s', p', q, off, word, e, o)
    ensures Means(s.m, s'.m, e)
  {
    hide Inv, Sole, Means, Turn, Destroyed, Handled, Pte;
    if e.Ended? {
      DestroyedMeans(s, s', q.t);
    } else if Pte(s.m, q).w {
      StoreMeans(s, q, off, word);
    } else {
      var mid: Sys :| Fine(mid) && Handled(s, mid, q) && WordSet(mid, s', q, off, word);
      CowPresent(s, q);
      HandledViews(s, mid, q);
      QuietMeans(s.m, mid.m);
      SameWidth(s, mid);
      HandledRoots(s, mid, q);
      StoreMeans(mid, q, off, word);
      QuietThen(s.m, mid.m, s'.m, e);
    }
  }

  lemma QuietThen(m: Mem, m1: Mem, m2: Mem, e: Effect)
    requires Means(m, m1, Quiet) && Means(m1, m2, e) && e.Poked?
    ensures Means(m, m2, e)
  {
    hide View;
    forall q: Path | InTree(m, q) ensures View(m2, q) == Eager(Seen(m), e)(q) {
      assert View(m1, q) == View(m, q);
    }
  }

  /** A store loses no page. */
  lemma StoreDoneLimbo(s: Sys, p: Proc, s': Sys, p': Proc, q: Path, off: Index, word: Word, e: Effect, o: Outcome,
          x: int)
    requires Fine(s) && Inv(s') && StoreDone(s, p, s', p', q, off, word, e, o)
    ensures Limbo(s', x) <==> Limbo(s, x)
  {
    hide Inv, Sole, Turn, Destroyed, Handled, Pte;
    if e.Ended? {
      DestroyedUse(s, s', q.t, x);
    } else if !Pte(s.m, q).w {
      var mid: Sys :| Fine(mid) && Handled(s, mid, q) && WordSet(mid, s', q, off, word);
      HandledLimbo(s, mid, q, x);
    }
  }

  // ------------------------------------------------------------------------
  // Runs

  /** What happens next to the running task: it is interrupted with the registers `ctx`, or it
      stores a word. Stores of kernel threads are not modelled and change nothing. */
  datatype Input = Interrupted(ctx: Context, ev: Event) | Store(va: nat, word: Word)

  datatype Snap = Snap(s: Sys, p: Proc)

  /** Everything the kernel promises while task code runs: exact counts and disjoint tables, writable
      pages mapped once, KERNEL_TEMP unmapped, consistent slots, and one RUN task in its own space. */
  ghost predicate Good(x: Snap) {
    Fine(x.s) && TempPte(x.s.m, x.s.c) == ZERO && SlotsOk(x.s.m.roots, x.p) && Running(x.s.m.roots, x.p)
  }

  /** One step of a run, its effect, and how it ends. */
  ghost predicate Step(x: Snap, i: Input, y: Snap, e: Effect, o: Outcome) {
    && 0 <= x.p.current < |x.p.ctx| == |x.p.state|
    && match i
       case Interrupted(ctx, ev) => Handles(x.s, Saved(x.p, ctx), y.s, y.p, ev, e, o)
       case Store(va, word) =>
         if x.p.ctx[x.p.current].user
         then StoreDone(x.s, x.p, y.s, y.p, PathOf(x.p.current, va), Offset(va), word, e, o)
         else y == x && e == Quiet && o == Resumed
  }

  /** A run: good states, each step driven by the environment `env`, which sees the number of the
      step and the running slot. */
  ghost predicate Run(env: (nat, int) -> Input, xs: seq<Snap>, log: seq<Effect>) {
    && |xs| == |log| + 1
    && (forall i :: 0 <= i < |xs| ==> Good(xs[i]))
    && (forall i :: 0 <= i < |log| ==> Step(xs[i], env(i, xs[i].p.current), xs[i + 1], log[i], Resumed))
  }

  /** The next step after the run ends it with `o`. */
  ghost predicate Stops(env: (nat, int) -> Input, xs: seq<Snap>, log: seq<Effect>, o: Outcome) {
    && |xs| == |log| + 1
    && exists y: Snap, e: Effect :: Step(xs[|log|], env(|log|, xs[|log|].p.current), y, e, o)
  }

  /** The environment only ever breaks, ticks or types while the kernel thread `idle` runs. */
  ghost predicate Gentle(env: (nat, int) -> Input, idle: nat) {
    forall n: nat :: env(n, idle).Interrupted? ==>
      !env(n, idle).ctx.user && (env(n, idle).ev.Breakpoint? || env(n, idle).ev.Timer? || env(n, idle).ev.Keyboard?)
  }

  /** One step of the machine. */
  method Advance(k: Machine, i: Input) returns (o: Outcome, ghost e: Effect)
    requires k.Ok() && Running(k.pml4, k.P())
    modifies k, k.free.Repr(), k.freeTasks.Repr()
    ensures k.Ok() && k.img == old(k.img) && (o == Resumed ==> Running(k.pml4, k.P()))
    ensures Step(Snap(old(k.S()), old(k.P())), i, Snap(k.S(), k.P()), e, o)
  {
    hide Inv, Sole, Linked, TempPte, Handles, StoreDone;
    e, o := Quiet, Resumed;
    match i {
      case Interrupted(ctx, ev) =>
        o, e := InterruptHandler(k, ctx, ev);
      case Store(va, word) =>
        if k.ctx[k.current].user {
          o, e := UserStore(k, va, word);
        }
    }
  }

  /** A step changes what the tasks see exactly as its effect changes the eager machine. */
  lemma StepMeans(x: Snap, i: Input, y: Snap, e: Effect, o: Outcome)
    requires Good(x) && Inv(y.s) && Step(x, i, y, e, o)
    ensures Means(x.s.m, y.s.m, e) && Proper(x.s.m, e)
  {
    hide Inv, Sole, TempPte, SlotsOk, InSpace, Means, Handles, StoreDone, Running;
    match i {
      case Interrupted(ctx, ev) =>
        HandlesMeans(x.s, Saved(x.p, ctx), y.s, y.p, ev, e, o);
        HandlesProper(x.s, x.p, ctx, y.s, y.p, ev, e, o);
      case Store(va, word) =>
        if x.p.ctx[x.p.current].user {
          StoreDoneMeans(x.s, x.p, y.s, y.p, PathOf(x.p.current, va), Offset(va), word, e, o);
          StoreProper(x.s, x.p, y.s, y.p, PathOf(x.p.current, va), Offset(va), word, e, o);
        } else {
          MeansRefl(x.s.m);
        }
    }
  }

  lemma HandlesProper(s: Sys, p: Proc, ctx: Context, s': Sys, p': Proc, ev: Event, e: Effect, o: Outcome)
    requires 0 <= p.current < |p.ctx| == |p.state| && Handles(s, Saved(p, ctx), s', p', ev, e, o)
    ensures Proper(s.m, e)
  {
    hide Curable, Handled, Turn, Again, Destroyed;
  }

  lemma StoreProper(s: Sys, p: Proc, s': Sys, p': Proc, q: Path, off: Index, word: Word, e: Effect, o: Outcome)
    requires StoreDone(s, p, s', p', q, off, word, e, o)
    ensures Proper(s.m, e)
  {
    hide Writable, Turn, Destroyed, WordSet, CopiedThenSet;
  }

  /** Copy-on-write refines eager copying along every run: at its end every task sees the memory of
      the machine in which fork copies every page at once. */
  lemma RunAgrees(env: (nat, int) -> Input, xs: seq<Snap>, log: seq<Effect>)
    requires Run(env, xs, log)
    ensures Agrees(xs[0].s.m, xs[|log|].s.m, log)
  {
    hide Good, Step, Means, Agrees;
    var ms := seq(|xs|, i requires 0 <= i < |xs| => xs[i].s.m);
    forall i | 0 <= i < |log| ensures Means(ms[i], ms[i + 1], log[i]) && Proper(ms[i], log[i]) {
      GoodInv(xs[i + 1]);
      StepMeans(xs[i], env(i, xs[i].p.current), xs[i + 1], log[i], Resumed);
    }
    RefinesEager(ms, log);
  }

  lemma GoodInv(x: Snap)
    requires Good(x)
    ensures Inv(x.s) && Fine(x.s)
  {
  }

  lemma StepLimbo(x: Snap, i: Input, y: Snap, e: Effect, o: Outcome, p: int)
    requires Good(x) && Inv(y.s) && Step(x, i, y, e, o)
    ensures Limbo(y.s, p) <==> Limbo(x.s, p)
  {
    hide Inv, Sole, TempPte, SlotsOk, InSpace, Handles, StoreDone, Running, Limbo;
    match i {
      case Interrupted(ctx, ev) =>
        HandlesLimbo(x.s, Saved(x.p, ctx), y.s, y.p, ev, e, o, p);
      case Store(va, word) =>
        if x.p.ctx[x.p.current].user {
          StoreDoneLimbo(x.s, x.p, y.s, y.p, PathOf(x.p.current, va), Offset(va), word, e, o, p);
        }
    }
  }

  /** No run loses a page: the allocated pages that nothing names are the same in all its states. */
  lemma {:induction false} RunLimbo(env: (nat, int) -> Input, xs: seq<Snap>, log: seq<Effect>, p: int, n: nat)
    requires Run(env, xs, log) && n < |xs|
    ensures Limbo(xs[n].s, p) <==> Limbo(xs[0].s, p)
  {
    hide Good, Step, Limbo;
    if n > 0 {
      RunLimbo(env, xs, log, p, n - 1);
      GoodInv(xs[n]);
      StepLimbo(xs[n - 1], env(n - 1, xs[n - 1].p.current), xs[n], log[n - 1], Resumed, p);
    }
  }

  // ------------------------------------------------------------------------
  // Nobody waits for ever, and the idle thread keeps the system alive

  /** Whether the step called schedule(). */
  predicate Called(x: Snap, i: Input, e: Effect) {
    match i
    case Store(_, _) => e.Ended?
    case Interrupted(ctx, ev) =>
      match ev
      case Breakpoint => !ctx.user
      case PageFault(_, _) => e.Ended?
      case Exception => true
      case Syscall(_) => e.Ended? || ctx.rax % 0x1_0000_0000 == 3
      case Timer => true
      case Keyboard(_) => e.Ended? && e.slot == x.p.current
  }

  /** A step brings the search closer to every task that is left waiting, or does not move it. */
  lemma StepCloser(x: Snap, i: Input, y: Snap, e: Effect, r: nat)
    requires Good(x) && Step(x, i, y, e, Resumed) && r < TASK_MAX_CNT && r < |y.p.state| && y.p.state[r] == READY
    ensures if Called(x, i, e) then Dist(y.p.next, r) < Dist(x.p.next, r) else y.p.next == x.p.next
  {
    hide Fine, TempPte, SlotsOk, InSpace, Running, Dist, Handles, StoreDone, Called;
    var p := x.p;
    SavedIs(x.s.m.roots, p, p.ctx[p.current]);
    match i {
      case Interrupted(ctx, ev) =>
        SavedIs(x.s.m.roots, p, ctx);
        HandlesCloser(x, ctx, ev, y, e, r);
      case Store(va, word) =>
        StoreCloser(x, va, word, y, e, r);
    }
  }

  lemma HandlesCloser(x: Snap, ctx: Context, ev: Event, y: Snap, e: Effect, r: nat)
    requires 0 <= x.p.current < |x.p.ctx| == |x.p.state| == |x.s.m.roots| && SlotsOk(x.s.m.roots, Saved(x.p, ctx))
    requires Entered(x.s.m.roots, Saved(x.p, ctx), x.p.current) && x.s.m.roots[x.p.current] >= 0
    requires Handles(x.s, Saved(x.p, ctx), y.s, y.p, ev, e, Resumed)
    requires r < TASK_MAX_CNT && r < |y.p.state| && y.p.state[r] == READY
    ensures if Called(x, Interrupted(ctx, ev), e) then Dist(y.p.next, r) < Dist(x.p.next, r) else y.p.next == x.p.next
  {
    hide Curable, Handled, ForkReturns, Dispatched, SlotsOk, Dist, Victim, Destroyed;
    var p1, t := Saved(x.p, ctx), x.p.current;
    TurnsCloser(x.s, p1, t, y.s, y.p, r);
    if ev.Syscall? && ctx.rax % 0x1_0000_0000 == 2 { ForkSpares(x.s, p1, y.s, y.p, t, e, Resumed); }
    if ev.Syscall? && ev.bad.Some? && ctx.rax % 0x1_0000_0000 == 0 {
      var p2 := Saved(p1, ev.bad.value);
      TurnsCloser(x.s, p2, t, y.s, y.p, r);
      assert p1.ctx[t] == ctx && p2.next == x.p.next;
    }
  }

  lemma TurnsCloser(s: Sys, p: Proc, t: nat, s': Sys, p': Proc, r: nat)
    requires t < |p.state| && t < |s.m.roots| && r < TASK_MAX_CNT && r < |p'.state| && p'.state[r] == READY
    ensures Dispatched(s'.m.roots, p, p') ==> Dist(p'.next, r) < Dist(p.next, r)
    ensures Dispatched(s'.m.roots, Released(p, t, s.m.roots[t], s.c.kroot), p') ==> Dist(p'.next, r) < Dist(p.next, r)
  {
    hide Dispatched, Dist;
    var gone := Released(p, t, s.m.roots[t], s.c.kroot);
    if Dispatched(s'.m.roots, p, p') { TurnCloser(s'.m.roots, p, p', r); }
    if Dispatched(s'.m.roots, gone, p') { TurnCloser(s'.m.roots, gone, p', r); }
  }

  lemma StoreCloser(x: Snap, va: nat, word: Word, y: Snap, e: Effect, r: nat)
    requires Step(x, Store(va, word), y, e, Resumed) && r < TASK_MAX_CNT && r < |y.p.state| && y.p.state[r] == READY
    ensures if e.Ended? then Dist(y.p.next, r) < Dist(x.p.next, r) else y.p.next == x.p.next
    ensures Called(x, Store(va, word), e) == e.Ended?
  {
    hide Writable, Dispatched, Dist, Destroyed, WordSet, CopiedThenSet;
    if e.Ended? { TurnsCloser(x.s, Saved(x.p, x.p.ctx[x.p.current]), x.p.current, y.s, y.p, r); }
  }

  /** How many of the first `n` steps called schedule(). */
  ghost function Rounds(env: (nat, int) -> Input, xs: seq<Snap>, log: seq<Effect>, n: nat): nat
    requires n <= |log| && |xs| == |log| + 1
  {
    if n == 0 then 0
    else
      var x := xs[n - 1];
      Rounds(env, xs, log, n - 1) + if Called(x, env(n - 1, x.p.current), log[n - 1]) then 1 else 0
  }

  lemma {:induction false} RoundsBound(env: (nat, int) -> Input, xs: seq<Snap>, log: seq<Effect>, r: nat, n: nat)
    requires Run(env, xs, log) && r < TASK_MAX_CNT && n <= |log|
    requires forall i :: 0 <= i < |xs| ==> r < |xs[i].p.state| && xs[i].p.state[r] == READY
    ensures Rounds(env, xs, log, n) + Dist(xs[n].p.next, r) <= Dist(xs[0].p.next, r)
  {
    hide Good, Step, Dist, Called;
    if n > 0 {
      RoundsBound(env, xs, log, r, n - 1);
      StepCloser(xs[n - 1], env(n - 1, xs[n - 1].p.current), xs[n], log[n - 1], r);
    }
  }

  /** Bounded wait over whole runs: while a task waits READY, whatever tasks come, go or are killed,
      schedule() is called fewer than TASK_MAX_CNT times. */
  lemma RunWait(env: (nat, int) -> Input, xs: seq<Snap>, log: seq<Effect>, r: nat)
    requires Run(env, xs, log) && r < TASK_MAX_CNT
    requires forall i :: 0 <= i < |xs| ==> r < |xs[i].p.state| && xs[i].p.state[r] == READY
    ensures Rounds(env, xs, log, |log|) < TASK_MAX_CNT
  {
    hide Good, Step, Dist, Called;
    RoundsBound(env, xs, log, r, |log|);
    DistRound(xs[0].p.next, r);
  }

  /** A gentle kernel thread stays alive, and while it does there is a task to run. */
  lemma StepIdle(env: (nat, int) -> Input, n: nat, x: Snap, y: Snap, e: Effect, o: Outcome, idle: nat)
    requires Good(x) && Step(x, env(n, x.p.current), y, e, o) && Alive(x.p, idle) && Gentle(env, idle)
    ensures Alive(y.p, idle) && o != NoTasks
  {
    hide Fine, TempPte, Handled, Writable, SlotsOk, Running, Handles, Destroyed, Turn, WordSet, CopiedThenSet;
    var i := env(n, x.p.current);
    if i.Interrupted? {
      assert x.p.current == idle ==> i == env(n, idle);
      IdleSaves(x.s, x.p, i.ctx, y.s, y.p, i.ev, e, o, idle);
    } else if e.Ended? {
      SavedIs(x.s.m.roots, x.p, x.p.ctx[x.p.current]);
      TurnsSpare(x.s, Saved(x.p, x.p.ctx[x.p.current]), x.p.current, y.s, y.p, o, idle);
    }
  }

  // ------------------------------------------------------------------------
  // Slots that are lost

  /** Slot `t` belongs to no task and will never be used again. */
  predicate Gone(state: seq<TaskState>, roots: seq<int>, t: nat) {
    t < |state| == |roots| && state[t] == DONT_RUN && roots[t] < 0
  }

  lemma SavedGone(roots: seq<int>, p: Proc, ctx: Context, t: nat)
    requires 0 <= p.current < |p.state| == |p.ctx| && p.state[p.current] != DONT_RUN
    ensures Gone(Saved(p, ctx).state, roots, t) <==> Gone(p.state, roots, t)
  {
  }

  lemma ReleasedGone(roots: seq<int>, p: Proc, u: nat, kroot: nat, t: nat)
    requires u < |p.state| == |roots| && p.state[u] != DONT_RUN
    ensures Gone(Released(p, u, roots[u], kroot).state, roots[u := -1], t) <==> Gone(p.state, roots, t)
  {
  }

  lemma TurnGoneSame(roots: seq<int>, p: Proc, p': Proc, o: Outcome, t: nat)
    requires Turn(roots, p, p', o)
    ensures Gone(p'.state, roots, t) <==> Gone(p.state, roots, t)
  {
  }

  /** Ending a task and running another one loses no slot. */
  lemma EndedGone(s: Sys, p: Proc, u: nat, s': Sys, p': Proc, o: Outcome, t: nat)
    requires u < |p.state| == |s.m.roots| && p.state[u] != DONT_RUN && Destroyed(s, s', u)
    requires Turn(s'.m.roots, Released(p, u, s.m.roots[u], s.c.kroot), p', o)
    ensures Gone(p'.state, s'.m.roots, t) <==> Gone(p.state, s.m.roots, t)
  {
    hide Turn, Gone, Slot, Pte, Tables, Maps;
    ReleasedGone(s.m.roots, p, u, s.c.kroot, t);
    TurnGoneSame(s'.m.roots, Released(p, u, s.m.roots[u], s.c.kroot), p', o, t);
  }

  /** A fork loses the first free slot exactly if no page is free. */
  lemma ForkGone(s: Sys, p: Proc, s': Sys, p': Proc, u: nat, e: Effect, o: Outcome, t: nat)
    requires SlotsOk(s.m.roots, p) && Entered(s.m.roots, p, u) && ForkReturns(s, p, s', p', u, e, o)
    ensures Gone(p'.state, s'.m.roots, t) <==>
            Gone(p.state, s.m.roots, t) || (|p.free| > 0 && |s.free| == 0 && t == p.free[0])
  {
    hide Kept, Slot, View, Pte, SameViews, TablesFor;
    if |p.free| > 0 { FreeSlotRoot(s.m.roots, p); }
    var p1: Proc :| ForkOutcome(s, p, s', p1, u, SlotOf(e))
      && Answered(p1, p', u, if e == Quiet then -1 else ToInt(p'.id[e.child]), o);
  }

  predicate Forks(i: Input) { i.Interrupted? && i.ev.Syscall? && i.ctx.rax % 0x1_0000_0000 == 2 }

  lemma HandlesGone(s: Sys, p: Proc, s': Sys, p': Proc, ev: Event, e: Effect, o: Outcome, t: nat)
    requires SlotsOk(s.m.roots, p) && Handles(s, p, s', p', ev, e, o) && Entered(s.m.roots, p, p.current)
    ensures Gone(p'.state, s'.m.roots, t) <==>
            || Gone(p.state, s.m.roots, t)
            || (ev.Syscall? && p.ctx[p.current].rax % 0x1_0000_0000 == 2 && |p.free| > 0 && |s.free| == 0
                && t == p.free[0])
  {
    hide SlotsOk, Curable, Destroyed, Turn, ForkReturns, Released;
    var u := p.current;
    if ev.Syscall? && p.ctx[u].rax % 0x1_0000_0000 == 2 {
      ForkGone(s, p, s', p', u, e, o, t);
    } else if ev.Syscall? && p.ctx[u].rax % 0x1_0000_0000 == 0 && ev.bad.Some? {
      SavedGone(s.m.roots, p, ev.bad.value, t);
      EndedGone(s, Saved(p, ev.bad.value), u, s', p', o, t);
    } else if ev.Keyboard? && e.Ended? && e.slot != u {
      KilledGone(s, p, e.slot, s', p', o, t);
    } else if e.Ended? {
      EndedGone(s, p, u, s', p', o, t);
    } else if Turn(s'.m.roots, p, p', o) {
      TurnGoneSame(s'.m.roots, p, p', o, t);
    }
  }

  /** Killing another task loses no slot. */
  lemma KilledGone(s: Sys, p: Proc, u: nat, s': Sys, p': Proc, o: Outcome, t: nat)
    requires u < |p.state| == |s.m.roots| && p.state[u] != DONT_RUN && Destroyed(s, s', u) && u != p.current
    requires 0 <= p.current < |p.state| && p.state[p.current] == READY
    requires Again(Released(p, u, s.m.roots[u], s.c.kroot), p', o)
    ensures Gone(p'.state, s'.m.roots, t) <==> Gone(p.state, s.m.roots, t)
  {
    hide Slot, Pte, Tables, Maps;
    ReleasedGone(s.m.roots, p, u, s.c.kroot, t);
  }

  ghost predicate LosesSlot(x: Snap, i: Input, t: nat) {
    Forks(i) && |x.p.free| > 0 && |x.s.free| == 0 && t == x.p.free[0]
  }

  /** The one step that loses a slot, the first free one, is a fork without any free page. */
  lemma StepGone(x: Snap, i: Input, y: Snap, e: Effect, o: Outcome, t: nat)
    requires Good(x) && Step(x, i, y, e, o)
    ensures Gone(y.p.state, y.s.m.roots, t) <==> Gone(x.p.state, x.s.m.roots, t) || LosesSlot(x, i, t)
  {
    hide Fine, TempPte, Handles, Gone, SlotsOk, Destroyed, Turn, Writable, Released;
    var s, p, u := x.s, x.p, x.p.current;
    match i {
      case Interrupted(ctx, ev) =>
        SavedIs(s.m.roots, p, ctx);
        SavedGone(s.m.roots, p, ctx, t);
        HandlesGone(s, Saved(p, ctx), y.s, y.p, ev, e, o, t);
      case Store(va, word) =>
        if p.ctx[u].user {
          SavedIs(s.m.roots, p, p.ctx[u]);
          SavedGone(s.m.roots, p, p.ctx[u], t);
          if e.Ended? { EndedGone(s, Saved(p, p.ctx[u]), u, y.s, y.p, o, t); }
        }
    }
  }

  /** The slots lost in a run, for good, are those that forks without any free page took. */
  lemma {:induction false} RunGone(env: (nat, int) -> Input, xs: seq<Snap>, log: seq<Effect>, t: nat, n: nat)
    requires Run(env, xs, log) && n <= |log|
    ensures Gone(xs[n].p.state, xs[n].s.m.roots, t) <==>
            || Gone(xs[0].p.state, xs[0].s.m.roots, t)
            || exists i: nat :: i < n && LosesSlot(xs[i], env(i, xs[i].p.current), t)
  {
    hide Good, Step, LosesSlot, Gone;
    if n > 0 {
      var i := n - 1;
      RunGone(env, xs, log, t, i);
      assert Good(xs[i]) && Step(xs[i], env(i, xs[i].p.current), xs[i + 1], log[i], Resumed);
      StepGone(xs[i], env(i, xs[i].p.current), xs[n], log[i], Resumed, t);
    }
  }

  /** Runs the machine for `steps` steps or until it panics. Every state on the way is good, memory
      looks to every task as if fork had copied it, no page is lost, and a gentle kernel thread rules
      out the panic for want of tasks. */
  method RunMachine(k: Machine, env: (nat, int) -> Input, steps: nat, ghost idle: nat)
    returns (o: Outcome, ghost xs: seq<Snap>, ghost log: seq<Effect>, ghost e: Effect)
    requires k.Ok() && Running(k.pml4, k.P())
    modifies k, k.free.Repr(), k.freeTasks.Repr()
    ensures k.Ok() && k.img == old(k.img) && Run(env, xs, log) && xs[0] == Snap(old(k.S()), old(k.P()))
    ensures o == Resumed ==> |log| == steps && xs[steps] == Snap(k.S(), k.P())
    ensures o != Resumed ==> |log| < steps && Step(xs[|log|], env(|log|, xs[|log|].p.current), Snap(k.S(), k.P()), e, o)
    ensures Agrees(xs[0].s.m, xs[|log|].s.m, log)
    ensures forall n: nat :: n < |xs| ==> xs[n].s.c == old(k.img) && |xs[n].s.ref| == |old(k.ref)|
    ensures forall n: nat, p: int :: n < |xs| ==> (Limbo(xs[n].s, p) <==> Limbo(xs[0].s, p))
    ensures Alive(old(k.P()), idle) && Gentle(env, idle) ==> o != NoTasks
  {
    hide Inv, Sole, Linked, TempPte, SlotsOk, InSpace, Running, Handles, StoreDone, Agrees, Alive, Gentle, Limbo;
    o, e := Resumed, Quiet;
    xs, log := [Snap(k.S(), k.P())], [];
    var n := 0;
    while n < steps && o == Resumed
      invariant n <= steps && k.Ok() && k.img == old(k.img)
      invariant Run(env, xs, log) && xs[0] == Snap(old(k.S()), old(k.P()))
      invariant forall n: nat :: n < |xs| ==> xs[n].s.c == old(k.img) && |xs[n].s.ref| == |old(k.ref)|
      invariant o == Resumed ==> n == |log| && xs[n] == Snap(k.S(), k.P()) && Running(k.pml4, k.P())
      invariant o == Resumed && Alive(old(k.P()), idle) && Gentle(env, idle) ==> Alive(k.P(), idle)
      invariant o != Resumed ==> |log| < steps
      invariant o != Resumed ==> Step(xs[|log|], env(|log|, xs[|log|].p.current), Snap(k.S(), k.P()), e, o)
      invariant Alive(old(k.P()), idle) && Gentle(env, idle) ==> o != NoTasks
    {
      ghost var x := Snap(k.S(), k.P());
      o, e := Advance(k, env(n, k.current));
      if Alive(x.p, idle) && Gentle(env, idle) { StepIdle(env, n, x, Snap(k.S(), k.P()), e, o, idle); }
      if o == Resumed {
        xs, log := xs + [Snap(k.S(), k.P())], log + [e];
      }
      n := n + 1;
    }
    RunAgrees(env, xs, log);
    forall i: nat, p: int | i < |xs| ensures Limbo(xs[i].s, p) <==> Limbo(xs[0].s, p) { RunLimbo(env, xs, log, p, i); }
  }
}
