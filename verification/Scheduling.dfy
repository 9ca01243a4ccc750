/** Task states, and the round-robin choice of schedule(). */
module Scheduling {
  import opened Machine

  /** How far slot `i` is ahead of the slot the next search starts from. */
  function Dist(next: nat, i: nat): nat
  {
    var n := next % TASK_MAX_CNT;
    if n <= i then i - n else i + TASK_MAX_CNT - n
  }

  lemma Wrap(next: nat, j: nat)
    requires j <= TASK_MAX_CNT
    ensures var n := next % TASK_MAX_CNT;
            (next + j) % TASK_MAX_CNT == if n + j < TASK_MAX_CNT then n + j else n + j - TASK_MAX_CNT
  {
  }

  /** The slot looked at in round `j` of the search, and its distance. */
  lemma DistOf(next: nat, j: nat)
    requires j < TASK_MAX_CNT
    ensures (next + j) % TASK_MAX_CNT < TASK_MAX_CNT && Dist(next, (next + j) % TASK_MAX_CNT) == j
  {
    Wrap(next, j);
  }

  /** Every slot is looked at in the round given by its distance. */
  lemma DistRound(next: nat, i: nat)
    requires i < TASK_MAX_CNT
    ensures Dist(next, i) < TASK_MAX_CNT && (next + Dist(next, i)) % TASK_MAX_CNT == i
  {
    Wrap(next, Dist(next, i));
  }

  ghost predicate NoneRuns(state: seq<TaskState>) {
    forall t: nat :: t < |state| ==> state[t] != RUN
  }

  /** `i` is the first READY slot from `next` on. */
  ghost predicate Chosen(state: seq<TaskState>, next: nat, i: nat) {
    && |state| == TASK_MAX_CNT && i < TASK_MAX_CNT && state[i] == READY
    && forall u: nat :: u < TASK_MAX_CNT && state[u] == READY ==> Dist(next, i) <= Dist(next, u)
  }

  /** One call of schedule(): the chosen slot runs in its own address space and the next search
      starts behind it. */
  ghost predicate Dispatched(roots: seq<int>, p: Proc, p': Proc) {
    && 0 <= p'.current < |roots| && roots[p'.current] >= 0 && Chosen(p.state, p.next, p'.current)
    && p' == p.(state := p.state[p'.current := RUN], next := p'.current + 1, current := p'.current,
        cr3 := roots[p'.current])
  }

  /** Task code is running: exactly one task is RUN, it is cpu->task, and CR3 is its PML4. */
  ghost predicate Running(roots: seq<int>, p: Proc) {
    && 0 <= p.current < |p.state| == |roots| && p.state[p.current] == RUN && roots[p.current] == p.cr3
    && forall t: nat :: t < |p.state| && p.state[t] == RUN ==> t == p.current
  }

  /** Picking a slot other than `r` brings the search strictly closer to `r`. */
  lemma DistFalls(state: seq<TaskState>, next: nat, i: nat, r: nat)
    requires Chosen(state, next, i) && r < TASK_MAX_CNT && state[r] == READY && i != r
    ensures Dist(i + 1, r) < Dist(next, r)
  {
    Wrap(i, 1);
  }

  /** A call of schedule(): the task states it found, where its search began, and its choice. */
  datatype Call = Call(state: seq<TaskState>, next: nat, chosen: nat)

  /** Successive calls of schedule(); between them tasks may come, go and change state at will. */
  ghost predicate Calls(cs: seq<Call>) {
    && (forall i :: 0 <= i < |cs| ==> Chosen(cs[i].state, cs[i].next, cs[i].chosen))
    && (forall i :: 0 < i < |cs| ==> cs[i].next == cs[i - 1].chosen + 1)
  }

  lemma {:induction false} WaitBound(cs: seq<Call>, r: nat)
    requires Calls(cs) && r < TASK_MAX_CNT && |cs| > 0
    requires forall i :: 0 <= i < |cs| ==> cs[i].state[r] == READY && cs[i].chosen != r
    ensures |cs| <= Dist(cs[0].next, r)
  {
    DistFalls(cs[0].state, cs[0].next, cs[0].chosen, r);
    if |cs| > 1 {
      assert cs[1].next == cs[0].chosen + 1;
      WaitBound(cs[1..], r);
    }
  }

  /** Bounded wait: a task that is READY at TASK_MAX_CNT successive calls is chosen by one of them. */
  lemma BoundedWait(cs: seq<Call>, r: nat)
    requires Calls(cs) && |cs| >= TASK_MAX_CNT && r < TASK_MAX_CNT
    requires forall i :: 0 <= i < |cs| ==> cs[i].state[r] == READY
    ensures exists i :: 0 <= i < TASK_MAX_CNT && cs[i].chosen == r
  {
    if forall i :: 0 <= i < TASK_MAX_CNT ==> cs[i].chosen != r {
      WaitBound(cs[..TASK_MAX_CNT], r);
      DistRound(cs[0].next, r);
      assert false;
    }
  }

  // ------------------------------------------------------------------------
  // Inside an interrupt handler

  /** How a handler ends: task code runs again, or one of the two panics. */
  datatype Outcome = Resumed | NoTasks | UnknownSyscall

  /** The interrupt has been recorded: the interrupted task `t` is READY and nothing is RUN. */
  ghost predicate Entered(roots: seq<int>, p: Proc, t: nat) {
    && t < |p.state| == |roots| && p.current == t && p.state[t] == READY && NoneRuns(p.state) && roots[t] == p.cr3
  }

  /** A kernel task that can run. */
  predicate Alive(p: Proc, i: nat) {
    i < |p.state| && i < |p.ctx| && (p.state[i] == READY || p.state[i] == RUN) && !p.ctx[i].user
  }

  /** Kernel tasks other than `x` stay alive, and with one of them there is no "no more tasks" panic. */
  ghost predicate Spares(p: Proc, p': Proc, o: Outcome, x: int) {
    forall i: nat :: Alive(p, i) && i != x ==> Alive(p', i) && o != NoTasks
  }

  /** One call of schedule(), from `p` to `p'`: it runs the chosen task, or panics if none is READY. */
  ghost predicate Turn(roots: seq<int>, p: Proc, p': Proc, o: Outcome) {
    || (o == Resumed && Dispatched(roots, p, p'))
    || (o == NoTasks && p' == p && forall t: nat :: t < |p.state| ==> p.state[t] != READY)
  }

  /** The records at the beginning of an interrupt with the registers `ctx`. */
  function Saved(p: Proc, ctx: Context): Proc
    requires 0 <= p.current < |p.state| == |p.ctx|
  {
    p.(ctx := p.ctx[p.current := ctx], state := p.state[p.current := READY])
  }

  /** The interrupted task goes on. */
  ghost predicate Again(p: Proc, p': Proc, o: Outcome) {
    o == Resumed && 0 <= p.current < |p.state| && p' == p.(state := p.state[p.current := RUN])
  }

  /** The records after slot `t`, whose PML4 was `r`, has been given back. */
  function Released(p: Proc, t: nat, r: int, kroot: nat): Proc
    requires t < |p.state|
  {
    p.(state := p.state[t := FREE], free := [t] + p.free,
       current := if p.current == t then -1 else p.current, cr3 := if p.cr3 == r then kroot else p.cr3)
  }

  /** The tasks have ids of their own, none beyond the last one given. */
  ghost predicate IdsApart(p: Proc) {
    && |p.id| == |p.state|
    && (forall t: nat :: t < |p.state| && p.state[t] != FREE ==> 0 < p.id[t] <= p.lastId)
    && (forall t: nat, u: nat :: t < u < |p.state| && p.state[t] != FREE && p.state[u] != FREE ==> p.id[t] != p.id[u])
  }

  /** The next search for a task starts behind the running one. */
  predicate Ahead(p: Proc) { p.next == p.current + 1 }

  lemma TurnSpares(roots: seq<int>, p: Proc, p': Proc, o: Outcome)
    requires NoneRuns(p.state) && Turn(roots, p, p', o)
    ensures Spares(p, p', o, -1)
  {
  }

  lemma AgainSpares(p: Proc, p': Proc, o: Outcome)
    requires NoneRuns(p.state) && Again(p, p', o)
    ensures Spares(p, p', o, -1)
  {
  }

  lemma ReleasedSpares(p: Proc, t: nat, r: int, kroot: nat)
    requires t < |p.state| && NoneRuns(p.state)
    ensures NoneRuns(Released(p, t, r, kroot).state)
    ensures forall i: nat :: Alive(p, i) && i != t ==> Alive(Released(p, t, r, kroot), i)
  {
  }

  // ------------------------------------------------------------------------
  // Waiting

  lemma TurnCloser(roots: seq<int>, p: Proc, p': Proc, r: nat)
    requires Dispatched(roots, p, p') && r < TASK_MAX_CNT && r < |p'.state| && p'.state[r] == READY
    ensures Dist(p'.next, r) < Dist(p.next, r)
  {
    DistFalls(p.state, p.next, p'.current, r);
  }
}
