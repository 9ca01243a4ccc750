/** src/kernel/task.c */
module Task {
  import opened Mmu
  import opened PageTree
  import opened Queue
  import opened Memory
  import opened Machine
  import opened Teardown
  import opened Sharing
  import opened Views
  import opened Scheduling
  import opened Map

  /** The nested loops of task_destroy, one level at a time: whatever the present entries of the
      table `T` name is released, upper entries are zeroed. */
  method ClearTable(k: Machine, lvl: nat, T: nat)
    requires k.Valid() && 1 <= lvl <= 4 && Clearable(k.S(), lvl, T)
    modifies k`phys, k`ref, k.free.Repr()
    ensures k.Valid() && Cleared(old(k.S()), k.S(), lvl, T, Width(old(k.S().m), lvl))
    decreases lvl
  {
    hide Clearable, Cleared, Linked, At;
    ghost var s0 := k.S();
    ClearStart(s0, lvl, T);
    var bound := if lvl == 4 then USER_SLOTS else TABLE_SIZE;
    var x := 0;
    while x < bound
      invariant x <= bound == Width(s0.m, lvl) && k.Valid() && Cleared(s0, k.S(), lvl, T, x)
    {
      ghost var s := k.S();
      ClearRead(s0, s, lvl, T, x);
      var e := k.phys[T][x];
      if !e.p {
        ClearSkip(s0, s, lvl, T, x);
      } else if lvl == 1 {
        ClearTarget(s0, s, lvl, T, x);
        ClearLeafEntry(s0, s, T, x);
        PageDecref(k, e.ppn);
      } else {
        ClearEnter(s0, s, lvl, T, x);
        ClearTable(k, lvl - 1, e.ppn);
        ClearLeave(s0, s, k.S(), lvl, T, x);
        k.phys := k.phys[T := k.phys[T][x := ZERO]];
        PageDecref(k, e.ppn);
      }
      x := x + 1;
    }
  }

  /** The part of task_destroy that works in the task's address space, whose PML4 is `r`. */
  method DropSpace(k: Machine, t: nat, r: nat)
    requires k.Valid() && Inv(k.S()) && t < TASK_MAX_CNT && k.pml4[t] == r
    modifies k`phys, k`ref, k.free.Repr(), k`pml4, k`cr3
    ensures k.Valid() && Inv(k.S()) && Destroyed(old(k.S()), k.S(), t) && k.pml4 == old(k.pml4)[t := -1]
    ensures k.cr3 == if old(k.cr3) == r then k.img.kroot else old(k.cr3)
  {
    hide Inv, Clearable, Cleared, Destroyed, Linked;
    var oldCr3 := k.cr3;
    if oldCr3 != r {
      k.cr3 := r;
    }
    ghost var s := k.S();
    DestroyReady(s, t);
    ClearTable(k, 4, r);
    if oldCr3 != r {
      k.cr3 := oldCr3;
    } else {
      k.cr3 := k.kernelPml4;
      NotKernelRoot(s, r);
      assert k.kernelPml4 != r;
    }
    RazeInv(s, k.S(), t);
    PageDecref(k, r);
    k.pml4 := k.pml4[t := -1];
  }

  /** Ends the task in slot `t`: its address space goes, its slot becomes free, and CR3 falls back
      to the kernel's PML4 if it was in use. Nothing to do for a slot without a PML4. */
  method TaskDestroy(k: Machine, t: nat)
    requires k.Ok() && t < TASK_MAX_CNT
    modifies k`phys, k`ref, k.free.Repr(), k`pml4, k`state, k`current, k`cr3, k.freeTasks.Repr()
    ensures k.Ok()
    ensures old(k.pml4[t]) < 0 ==> k.S() == old(k.S()) && k.P() == old(k.P())
    ensures old(k.pml4[t]) >= 0 ==> Destroyed(old(k.S()), k.S(), t)
    ensures old(k.pml4[t]) >= 0 ==> Freed(old(k.P()), k.P(), t, old(k.pml4[t]), k.img.kroot)
  {
    hide Inv, Sole, Destroyed, Linked, SlotsOk, Freed, TempPte, InSpace;
    if k.pml4[t] < 0 {
      return;
    }
    NotOnList(k.pml4, k.P(), t);
    if t == k.current {
      k.current := -1;
    }
    DropSpace(k, t, k.pml4[t]);
    DestroyedSole(old(k.S()), k.S(), t);
    DestroyedTemp(old(k.S()), k.S(), t);
    k.freeTasks.InsertHead(t);
    k.state := k.state[t := FREE];
    FreedSlot(old(k.pml4), old(k.P()), k.P(), t, k.img.kroot);
    RazedRoots(old(k.S()), k.S(), t);
    InSpaceKept(old(k.pml4), t, -1, old(k.cr3), k.img.kroot);
  }

  /** Slot `t`, whose PML4 was `r`, has been given back. */
  ghost predicate Freed(p: Proc, p': Proc, t: nat, r: int, kroot: nat) {
    t < |p.state| && p' == Released(p, t, r, kroot)
  }

  lemma NotOnList(roots: seq<int>, p: Proc, t: nat)
    requires SlotsOk(roots, p) && t < TASK_MAX_CNT && roots[t] >= 0
    ensures t !in p.free
  {
  }

  lemma FreedSlot(roots: seq<int>, p: Proc, p': Proc, t: nat, kroot: nat)
    requires SlotsOk(roots, p) && t < TASK_MAX_CNT && roots[t] >= 0
    requires p' == p.(state := p.state[t := FREE], free := [t] + p.free, current := p'.current, cr3 := p'.cr3)
    requires p'.current == if p.current == t then -1 else p.current
    requires p'.cr3 == if p.cr3 == roots[t] then kroot else p.cr3
    ensures SlotsOk(roots[t := -1], p') && Freed(p, p', t, roots[t], kroot)
  {
  }

  lemma NotKernelRoot(s: Sys, r: int)
    requires Inv(s) && InUse(s, r)
    ensures r != s.c.kroot
  {
  }

  /** A slot with a new, empty address space, or NULL. Without a page for the PML4 the slot is
      lost: off the free list, DONT_RUN, and without an address space. */
  method TaskNew(k: Machine) returns (t: int)
    requires k.Ok()
    modifies k`phys, k`ref, k.free.Repr(), k`pml4, k`state, k`id, k`ctx, k`lastId, k.freeTasks.Repr()
    ensures k.Ok()
    ensures |old(k.freeTasks.elems)| == 0 ==> t == NULL && k.S() == old(k.S()) && k.P() == old(k.P())
    ensures |old(k.freeTasks.elems)| > 0 ==> Claimed(old(k.P()), k.P())
    ensures |old(k.freeTasks.elems)| > 0 && |old(k.free.elems)| == 0 ==> t == NULL && k.S() == old(k.S())
    ensures |old(k.freeTasks.elems)| > 0 && |old(k.free.elems)| > 0 ==> t == old(k.freeTasks.elems[0])
    ensures |old(k.freeTasks.elems)| > 0 && |old(k.free.elems)| > 0 ==> NewSpace(old(k.S()), k.S(), t)
  {
    hide Inv, Sole, NewSpace, Linked, SlotsOk, Claimed, TempPte, InSpace;
    t := k.freeTasks.First();
    if t == NULL {
      return NULL;
    }
    ClaimSlot(k);
    var p := PageAlloc(k);
    if p == NULL {
      return NULL;
    }
    NewPml4(k, t, p, old(k.S()));
    NewSole(old(k.S()), k.S(), t);
    NewTemp(old(k.S()), k.S(), t);
    ClaimedRoot(old(k.pml4), old(k.P()), k.P(), p);
    NewRoots(old(k.S()), k.S(), t);
    InSpaceKept(old(k.pml4), t, p, k.cr3, k.img.kroot);
  }

  lemma RazedRoots(s: Sys, s': Sys, x: nat)
    requires Destroyed(s, s', x)
    ensures s'.m.roots == s.m.roots[x := -1]
  {
  }

  lemma NewRoots(s: Sys, s': Sys, t: nat)
    requires NewSpace(s, s', t)
    ensures s'.m.roots == s.m.roots[t := s.free[0]]
  {
  }

  /** Takes the first slot off the free list and clears its record. */
  method ClaimSlot(k: Machine)
    requires k.Ok() && |k.freeTasks.elems| > 0
    modifies k`pml4, k`state, k`id, k`ctx, k`lastId, k.freeTasks.Repr()
    ensures k.Ok() && k.S() == old(k.S()) && Claimed(old(k.P()), k.P()) && k.pml4[old(k.freeTasks.elems[0])] == -1
  {
    hide Inv, Sole, SlotsOk, Linked, TempPte;
    var t := k.freeTasks.First();
    assert NoDup(k.freeTasks.elems) by { FreeNoDup(k.freeTasks); }
    ClaimedSlot(k.pml4, k.P());
    ghost var p := k.P();
    RemoveFirst(k.freeTasks);
    k.pml4, k.ctx := k.pml4[t := -1], k.ctx[t := Context(0, false, 0)];
    k.lastId := (k.lastId + 1) % 0x1_0000_0000;
    k.id := k.id[t := k.lastId];
    k.state := k.state[t := DONT_RUN];
    assert Claimed(p, k.P());
  }

  /** The page `p`, just taken from the free list, becomes the PML4 of slot `t`. */
  method NewPml4(k: Machine, t: nat, p: nat, ghost s: Sys)
    requires k.Valid() && Inv(s) && t < |k.pml4| && k.pml4[t] == -1
    requires |s.free| > 0 && s.free[0] == p < |s.ref| && k.S() == Popped(s)
    modifies k`phys, k`ref, k`pml4
    ensures k.Valid() && Inv(k.S()) && NewSpace(s, k.S(), t) && k.pml4 == old(k.pml4)[t := p]
  {
    hide Inv, NewSpace, Linked;
    SpawnInv(s, t);
    PageIncref(k, p);
    k.pml4 := k.pml4[t := p];
    k.phys := k.phys[p := Zeros()];
    k.phys := k.phys[p := k.phys[p][..USER_SLOTS - 1] + k.phys[k.kernelPml4][USER_SLOTS - 1..]];
    NotFreeRoot(s);
    assert k.S() == Spawned(s, t);
  }

  lemma NotFreeRoot(s: Sys)
    requires Inv(s) && |s.free| > 0
    ensures s.free[0] != s.c.kroot
  {
  }

  /** The first free slot has been taken and given the next id. */
  ghost predicate Claimed(p: Proc, p': Proc) {
    && |p.free| > 0 && p.free[0] < |p.state| == |p.id| == |p.ctx|
    && var t, n := p.free[0], (p.lastId + 1) % 0x1_0000_0000;
    p' == p.(free := p.free[1..], state := p.state[t := DONT_RUN], id := p.id[t := n],
        ctx := p.ctx[t := Context(0, false, 0)], lastId := n)
  }

  lemma ClaimedSlot(roots: seq<int>, p: Proc)
    requires SlotsOk(roots, p) && |p.free| > 0 && NoDup(p.free)
    ensures var t := p.free[0];
            && t < |roots| && roots[t] == -1 && roots[t := -1] == roots && t < |p.state| == |p.id| == |p.ctx|
    ensures forall p': Proc :: Claimed(p, p') ==> SlotsOk(roots, p')
  {
    assert p.free[0] in p.free;
    assert forall t: nat :: t in p.free <==> t in p.free[1..] || t == p.free[0];
  }

  lemma ClaimedRoot(roots: seq<int>, p: Proc, p': Proc, r: nat)
    requires SlotsOk(roots, p) && Claimed(p, p') && SlotsOk(roots, p')
    ensures SlotsOk(roots[p.free[0] := r], p')
  {
  }

  lemma FreeNoDup(l: List)
    requires l.Valid()
    ensures NoDup(l.elems)
  {
  }

  method RemoveFirst(l: List)
    requires l.Valid() && |l.elems| > 0
    modifies l.Repr()
    ensures l.Valid() && l.elems == old(l.elems)[1..]
  {
    var x := l.First();
    l.Remove(x, 0);
    l.Clear(x);
  }

  /** The effect of task_run on the task's record; control then leaves the kernel. */
  method TaskRun(k: Machine, t: nat)
    requires k.Ok() && t < TASK_MAX_CNT && k.pml4[t] >= 0
    modifies k`state
    ensures k.Ok() && k.state == old(k.state)[t := RUN]
  {
    hide Fine, Linked, TempPte;
    k.state := k.state[t := RUN];
  }

  /** Runs the first READY task from `next` on; false stands for the panic when there is none. */
  method Schedule(k: Machine) returns (ok: bool)
    requires k.Ok() && NoneRuns(k.state)
    modifies k`state, k`next, k`current, k`cr3
    ensures k.Ok()
    ensures ok ==> Dispatched(k.pml4, old(k.P()), k.P()) && Running(k.pml4, k.P())
    ensures !ok ==> k.P() == old(k.P()) && forall t: nat :: t < TASK_MAX_CNT ==> k.state[t] != READY
  {
    hide Fine, Linked, TempPte, Dist, SlotsOk, Dispatched, Running;
    ghost var p := k.P();
    var i, j := k.next, 0;
    while j < TASK_MAX_CNT
      invariant j <= TASK_MAX_CNT && k.Ok() && k.P() == p
      invariant forall u: nat :: u < TASK_MAX_CNT && k.state[u] == READY ==> Dist(i, u) >= j
    {
      var idx := (i + j) % TASK_MAX_CNT;
      DistOf(i, j);
      if k.state[idx] != READY {
        assert k.state[idx] != RUN;
        NotChosen(k.state, i, j);
        j := j + 1;
        continue;
      }
      ReadyRoot(k.pml4, p, idx);
      if k.cr3 != k.pml4[idx] {
        k.cr3 := k.pml4[idx];
      }
      k.current := idx;
      k.next := idx + 1;
      Picked(k.pml4, p, k.P(), idx);
      TaskRun(k, idx);
      return true;
    }
    forall t: nat | t < TASK_MAX_CNT ensures k.state[t] != READY { DistRound(i, t); }
    return false;
  }

  lemma ReadyRoot(roots: seq<int>, p: Proc, x: nat)
    requires SlotsOk(roots, p) && x < TASK_MAX_CNT && p.state[x] == READY
    ensures roots[x] >= 0
  {
  }

  /** Moving the processor to the READY slot `x` keeps the slots as they are. */
  lemma Picked(roots: seq<int>, p: Proc, p': Proc, x: nat)
    requires SlotsOk(roots, p) && NoneRuns(p.state) && Chosen(p.state, p.next, x)
    requires p' == p.(current := x, next := x + 1, cr3 := p'.cr3) && (roots[x] >= 0 ==> p'.cr3 == roots[x])
    ensures roots[x] >= 0 && SlotsOk(roots, p')
    ensures Dispatched(roots, p, p'.(state := p.state[x := RUN])) && Running(roots, p'.(state := p.state[x := RUN]))
  {
    hide Dist;
  }

  lemma NotChosen(state: seq<TaskState>, i: nat, j: nat)
    requires |state| == TASK_MAX_CNT && j < TASK_MAX_CNT && state[(i + j) % TASK_MAX_CNT] != READY
    requires forall u: nat :: u < TASK_MAX_CNT && state[u] == READY ==> Dist(i, u) >= j
    ensures forall u: nat :: u < TASK_MAX_CNT && state[u] == READY ==> Dist(i, u) >= j + 1
  {
    forall u: nat | u < TASK_MAX_CNT && state[u] == READY ensures Dist(i, u) >= j + 1 {
      DistRound(i, u);
    }
  }

  predicate Active(p: Proc, id: nat, i: nat) {
    i < |p.state| == |p.id| && (p.state[i] == RUN || p.state[i] == READY) && p.id[i] == id
  }

  /** The first active task with the given id is the user task in slot `i`. */
  ghost predicate Victim(p: Proc, id: nat, i: nat) {
    Active(p, id, i) && i < |p.ctx| && p.ctx[i].user && forall j: nat :: j < i ==> !Active(p, id, j)
  }

  /** Kills the first active task with the given id, unless it is a kernel task; `x` is its slot or
      NULL. */
  method TaskKill(k: Machine, id: nat) returns (ghost x: int)
    requires k.Ok()
    modifies k`phys, k`ref, k.free.Repr(), k`pml4, k`state, k`current, k`cr3, k.freeTasks.Repr()
    ensures k.Ok()
    ensures x == NULL ==> k.S() == old(k.S()) && k.P() == old(k.P()) && forall i: nat :: !Victim(old(k.P()), id, i)
    ensures x != NULL ==> 0 <= x < TASK_MAX_CNT && Victim(old(k.P()), id, x) && old(k.pml4[x]) >= 0
    ensures x != NULL ==> Destroyed(old(k.S()), k.S(), x) && Freed(old(k.P()), k.P(), x, old(k.pml4[x]), k.img.kroot)
  {
    hide Fine, Linked, TempPte, Destroyed, Freed;
    var i := 0;
    while i < TASK_MAX_CNT
      invariant i <= TASK_MAX_CNT && k.Ok() && k.S() == old(k.S()) && k.P() == old(k.P())
      invariant forall j: nat :: j < i ==> !Active(k.P(), id, j)
    {
      if (k.state[i] == RUN || k.state[i] == READY) && k.id[i] == id {
        assert Active(k.P(), id, i);
        if !k.ctx[i].user {
          return NULL;
        }
        TaskDestroy(k, i);
        return i;
      }
      i := i + 1;
    }
    return NULL;
  }

  /** task_destroy on the interrupted task, followed by schedule. */
  method EndAndSchedule(k: Machine, t: nat) returns (o: Outcome)
    requires k.Ok() && Entered(k.pml4, k.P(), t) && k.pml4[t] >= 0
    modifies k`phys, k`ref, k.free.Repr(), k`pml4, k`state, k`next, k`current, k`cr3, k.freeTasks.Repr()
    ensures k.Ok() && (o == Resumed ==> Running(k.pml4, k.P()))
    ensures Destroyed(old(k.S()), k.S(), t)
    ensures Turn(k.pml4, Released(old(k.P()), t, old(k.pml4[t]), k.img.kroot), k.P(), o)
  {
    hide Inv, Sole, Linked, TempPte, Destroyed, Running, Dispatched, SlotsOk;
    ghost var s, p := k.S(), k.P();
    TaskDestroy(k, t);
    ReleasedSpares(p, t, s.m.roots[t], k.img.kroot);
    o := Yield(k);
  }

  /** schedule() as the end of a handler. */
  method Yield(k: Machine) returns (o: Outcome)
    requires k.Ok() && NoneRuns(k.state)
    modifies k`state, k`next, k`current, k`cr3
    ensures k.Ok() && (o == Resumed ==> Running(k.pml4, k.P())) && Turn(k.pml4, old(k.P()), k.P(), o)
  {
    hide Fine, Linked, TempPte, SlotsOk, Running, Dispatched;
    var ok := Schedule(k);
    o := if ok then Resumed else NoTasks;
  }
}
