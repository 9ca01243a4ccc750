/** What whole runs do to the task records: contexts, ids and the place where the next search starts. */
module Records {
  import opened Mmu
  import opened Memory
  import opened Machine
  import opened Sharing
  import opened Scheduling
  import opened Radix
  import opened Teardown
  import opened Views
  import opened CopyOnWrite
  import opened Effects
  import opened Task
  import opened Syscall
  import opened Interrupt
  import opened Runs

  // ------------------------------------------------------------------------
  // Steps that make no task

  /** No slot is taken, no id given, and no context but that of slot `t` changes. */
  ghost predicate Tame(p: Proc, p': Proc, t: int) {
    && |p'.state| == |p.state| && |p'.ctx| == |p.ctx| && p'.id == p.id && p'.lastId == p.lastId
    && (forall u: nat :: u < |p.state| && p.state[u] == FREE ==> p'.state[u] == FREE)
    && (forall u: nat :: u < |p.ctx| && u != t ==> p'.ctx[u] == p.ctx[u])
  }

  /** A fork took the first free slot and gave it the next id. */
  ghost predicate SlotTaken(p: Proc, p': Proc, t: int) {
    && |p'.state| == |p.state| && |p'.ctx| == |p.ctx| && |p.free| > 0 && p.free[0] < |p.id| == |p.state|
    && var c, n := p.free[0], (p.lastId + 1) % 0x1_0000_0000;
    && p'.id == p.id[c := n] && p'.lastId == n
    && (forall u: nat :: u < |p.state| && u != c && p.state[u] == FREE ==> p'.state[u] == FREE)
    && (forall u: nat :: u < |p.ctx| && u != t && u != c ==> p'.ctx[u] == p.ctx[u])
  }

  lemma SavedTame(p: Proc, ctx: Context)
    requires 0 <= p.current < |p.state| == |p.ctx| && p.state[p.current] != FREE
    ensures Tame(p, Saved(p, ctx), p.current)
  {
  }

  lemma EndTame(roots: seq<int>, p: Proc, u: nat, r: int, kroot: nat, p': Proc, o: Outcome, t: int)
    requires u < |p.state|
    ensures Turn(roots, p, p', o) ==> Tame(p, p', t)
    ensures Turn(roots, Released(p, u, r, kroot), p', o) ==> Tame(p, p', t)
  {
  }

  lemma AgainTame(p: Proc, u: nat, r: int, kroot: nat, p': Proc, o: Outcome, t: int)
    requires u < |p.state| && 0 <= p.current < |p.state| && p.state[p.current] != FREE && u != p.current
    ensures Again(p, p', o) || Again(Released(p, u, r, kroot), p', o) ==> Tame(p, p', t)
  {
  }

  lemma TameTrans(p: Proc, p1: Proc, p2: Proc, t: int)
    requires Tame(p, p1, t)
    ensures Tame(p1, p2, t) ==> Tame(p, p2, t)
    ensures SlotTaken(p1, p2, t) && p1.free == p.free ==> SlotTaken(p, p2, t)
  {
  }

  lemma ForkTaken(s: Sys, p: Proc, s': Sys, p': Proc, t: nat, e: Effect, o: Outcome)
    requires SlotsOk(s.m.roots, p) && Entered(s.m.roots, p, t) && ForkReturns(s, p, s', p', t, e, o)
    ensures Tame(p, p', t) || SlotTaken(p, p', t)
    ensures p'.next == p.next && p'.current == p.current
  {
    hide Forked, Restored, SameViews, TablesFor, SlotsOk;
    var p1: Proc :| ForkOutcome(s, p, s', p1, t, SlotOf(e))
      && Answered(p1, p', t, if e == Quiet then -1 else ToInt(p'.id[e.child]), o);
  }

  lemma HandlesTame(s: Sys, p: Proc, s': Sys, p': Proc, ev: Event, e: Effect, o: Outcome)
    requires Handles(s, p, s', p', ev, e, o) && SlotsOk(s.m.roots, p) && Entered(s.m.roots, p, p.current)
    ensures || Tame(p, p', p.current)
            || (SlotTaken(p, p', p.current) && ev.Syscall? && p.ctx[p.current].rax % 0x1_0000_0000 == 2)
  {
    hide SlotsOk, Curable, Destroyed, Turn, Again, ForkReturns, Released, Tame, SlotTaken, Handled;
    var t := p.current;
    EndTame(s'.m.roots, p, t, s.m.roots[t], s.c.kroot, p', o, t);
    var u := if e.Ended? && e.slot < |p.state| && e.slot != t then e.slot else if t == 0 then 1 else 0;
    SlotCount(s.m.roots, p);
    AgainTame(p, u, s.m.roots[u], s.c.kroot, p', o, t);
    if ev.Syscall? && p.ctx[t].rax % 0x1_0000_0000 == 2 {
      ForkTaken(s, p, s', p', t, e, o);
    } else if ev.Syscall? && p.ctx[t].rax % 0x1_0000_0000 == 0 {
      if ev.bad.Some? {
        var p1 := Saved(p, ev.bad.value);
        SavedTame(p, ev.bad.value);
        EndTame(s'.m.roots, p1, t, s.m.roots[t], s.c.kroot, p', o, t);
        TameTrans(p, p1, p', t);
      } else {
        AnsweredTame(p, p', t, 0, o);
      }
    } else if ev.Syscall? && p.ctx[t].rax % 0x1_0000_0000 > 3 {
      TameRefl(p, t);
    }
  }

  lemma SlotCount(roots: seq<int>, p: Proc)
    requires SlotsOk(roots, p)
    ensures |p.state| == TASK_MAX_CNT == |roots|
  {
  }

  lemma TameRefl(p: Proc, t: int)
    ensures Tame(p, p, t)
  {
  }

  lemma AnsweredTame(p: Proc, p': Proc, t: nat, ret: int, o: Outcome)
    requires Answered(p, p', t, ret, o) && p.state[t] != FREE
    ensures Tame(p, p', t)
  {
  }

  /** Each step leaves the contexts of all other tasks alone, and gives no id except in a fork. */
  lemma StepTame(x: Snap, i: Input, y: Snap, e: Effect, o: Outcome)
    requires Good(x) && Step(x, i, y, e, o)
    ensures Tame(x.p, y.p, x.p.current) || (Forks(i) && SlotTaken(x.p, y.p, x.p.current))
  {
    hide Fine, TempPte, Handles, SlotsOk, Destroyed, Turn, Writable, Released, Tame, SlotTaken, WordSet, CopiedThenSet;
    var s, p, t := x.s, x.p, x.p.current;
    match i {
      case Interrupted(ctx, ev) =>
        var p1 := Saved(p, ctx);
        SavedIs(s.m.roots, p, ctx);
        SavedTame(p, ctx);
        HandlesTame(s, p1, y.s, y.p, ev, e, o);
        TameTrans(p, p1, y.p, t);
      case Store(va, word) =>
        TameRefl(p, t);
        if p.ctx[t].user && e.Ended? {
          var p1 := Saved(p, p.ctx[t]);
          SavedTame(p, p.ctx[t]);
          EndTame(y.s.m.roots, p1, t, s.m.roots[t], s.c.kroot, y.p, o, t);
          TameTrans(p, p1, y.p, t);
        }
    }
  }

  /** A task that another one interrupts finds its registers as it left them. */
  lemma StepContext(x: Snap, i: Input, y: Snap, e: Effect, o: Outcome, t: nat)
    requires Good(x) && Step(x, i, y, e, o) && t < TASK_MAX_CNT && t != x.p.current && x.p.state[t] != FREE
    ensures t < |y.p.ctx| && t < |x.p.ctx| && y.p.ctx[t] == x.p.ctx[t]
  {
    hide Fine, TempPte, Step, Running;
    StepTame(x, i, y, e, o);
    if |x.p.free| > 0 { assert x.p.free[0] in x.p.free; }
  }

  /** Over a run, as long as the task is not the one that runs, and lives. */
  lemma {:induction false} RunContext(env: (nat, int) -> Input, xs: seq<Snap>, log: seq<Effect>, t: nat, n: nat)
    requires Run(env, xs, log) && n <= |log| && t < TASK_MAX_CNT
    requires forall i: nat :: i < n ==> xs[i].p.current != t && t < |xs[i].p.state| && xs[i].p.state[t] != FREE
    ensures t < |xs[n].p.ctx| && t < |xs[0].p.ctx| && xs[n].p.ctx[t] == xs[0].p.ctx[t]
  {
    hide Step;
    if n > 0 {
      var i := n - 1;
      RunContext(env, xs, log, t, i);
      StepContext(xs[i], env(i, xs[i].p.current), xs[n], log[i], Resumed, t);
    }
  }

  // ------------------------------------------------------------------------
  // Ids

  lemma StepIds(x: Snap, i: Input, y: Snap, e: Effect, o: Outcome)
    requires Good(x) && Step(x, i, y, e, o) && IdsApart(x.p) && x.p.lastId + 1 < 0x1_0000_0000
    ensures IdsApart(y.p) && y.p.lastId <= x.p.lastId + 1
  {
    hide Good, Step, Forks;
    StepTame(x, i, y, e, o);
  }

  /** Ids stay apart for as long as the counter does not wrap around. */
  lemma {:induction false} RunIds(env: (nat, int) -> Input, xs: seq<Snap>, log: seq<Effect>, n: nat)
    requires Run(env, xs, log) && n <= |log| && IdsApart(xs[0].p) && xs[0].p.lastId + n < 0x1_0000_0000
    ensures IdsApart(xs[n].p) && xs[n].p.lastId <= xs[0].p.lastId + n
  {
    hide Good, Step, IdsApart;
    if n > 0 {
      var i := n - 1;
      RunIds(env, xs, log, i);
      assert Good(xs[i]) && Step(xs[i], env(i, xs[i].p.current), xs[i + 1], log[i], Resumed);
      StepIds(xs[i], env(i, xs[i].p.current), xs[n], log[i], Resumed);
    }
  }

  /** With ids apart, a kill ends the one active task with that id, if that is a user task, and no other. */
  lemma KillUnique(x: Snap, ctx: Context, id: nat, y: Snap, e: Effect, o: Outcome, t: nat)
    requires Good(x) && IdsApart(x.p) && Step(x, Interrupted(ctx, Keyboard(Some(id))), y, e, o)
    requires t < TASK_MAX_CNT && (x.p.state[t] == READY || x.p.state[t] == RUN) && x.p.id[t] == id
    ensures e == if (if t == x.p.current then ctx else x.p.ctx[t]).user then Ended(t) else Quiet
  {
    hide Fine, TempPte, Handles, Destroyed, Turn;
    SavedIs(x.s.m.roots, x.p, ctx);
    var p := Saved(x.p, ctx);
    KillExact(x.s, p, y.s, y.p, Some(id), e, o);
    assert p.id[t] == id && p.state[t] == READY;
  }

  // ------------------------------------------------------------------------
  // Giving way

  lemma HandlesAhead(s: Sys, p: Proc, s': Sys, p': Proc, ev: Event, e: Effect)
    requires Handles(s, p, s', p', ev, e, Resumed) && SlotsOk(s.m.roots, p) && Entered(s.m.roots, p, p.current)
    requires Ahead(p)
    ensures Ahead(p')
  {
    hide SlotsOk, Curable, Destroyed, ForkReturns, Handled, Chosen, Victim;
    if ev.Syscall? && p.ctx[p.current].rax % 0x1_0000_0000 == 2 {
      ForkTaken(s, p, s', p', p.current, e, Resumed);
    }
  }

  lemma StepAhead(x: Snap, i: Input, y: Snap, e: Effect)
    requires Good(x) && Step(x, i, y, e, Resumed) && Ahead(x.p)
    ensures Ahead(y.p)
  {
    hide Fine, TempPte, Handles, SlotsOk, Destroyed, Writable, WordSet, CopiedThenSet, Chosen;
    match i {
      case Interrupted(ctx, ev) =>
        SavedIs(x.s.m.roots, x.p, ctx);
        HandlesAhead(x.s, Saved(x.p, ctx), y.s, y.p, ev, e);
      case Store(va, word) =>
    }
  }

  lemma {:induction false} RunAhead(env: (nat, int) -> Input, xs: seq<Snap>, log: seq<Effect>, n: nat)
    requires Run(env, xs, log) && n <= |log| && Ahead(xs[0].p)
    ensures Ahead(xs[n].p)
  {
    hide Good, Step, Ahead;
    if n > 0 {
      var i := n - 1;
      RunAhead(env, xs, log, i);
      assert Good(xs[i]) && Step(xs[i], env(i, xs[i].p.current), xs[i + 1], log[i], Resumed);
      StepAhead(xs[i], env(i, xs[i].p.current), xs[n], log[i]);
    }
  }

  /** A timer tick, a yield and a breakpoint of a kernel thread each hand the processor to another task if
      any is READY. */
  lemma GivesWay(x: Snap, ctx: Context, ev: Event, y: Snap, e: Effect, o: Outcome, u: nat)
    requires Good(x) && Ahead(x.p) && Step(x, Interrupted(ctx, ev), y, e, o)
    requires ev.Timer? || (ev.Breakpoint? && !ctx.user) || (ev.Syscall? && ctx.rax % 0x1_0000_0000 == 3)
    requires u < TASK_MAX_CNT && u != x.p.current && x.p.state[u] == READY
    ensures o == Resumed && y.p.current != x.p.current && y.s == x.s && y.p.ctx[x.p.current] == ctx
  {
    hide Fine, TempPte, SlotsOk, Dist;
    SavedIs(x.s.m.roots, x.p, ctx);
    SlotCount(x.s.m.roots, x.p);
    var p := Saved(x.p, ctx);
    assert p.state[u] == READY && Turn(x.s.m.roots, p, y.p, o);
    Behind(p.current, u);
  }

  /** From behind a slot, every other slot is nearer than that one. */
  lemma Behind(t: nat, u: nat)
    requires t < TASK_MAX_CNT && u < TASK_MAX_CNT && u != t
    ensures Dist(t + 1, u) < Dist(t + 1, t)
  {
  }
}
