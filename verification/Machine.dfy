/** The mutable state of the kernel: physical memory, the page array, the task array, the CPU. */
module Machine {
  import opened Mmu
  import opened PageTree
  import opened Queue
  import opened Memory
  import opened Sharing

  const TASK_MAX_CNT: nat := 1024

  datatype TaskState = FREE | READY | RUN | DONT_RUN

  /** The saved registers the kernel looks at; `rest` stands for all others. `user` is the
      privilege level in `cs`, the test `cs & GDT_DPL_U`. */
  datatype Context = Context(rax: int, user: bool, rest: nat)

  /** The task array and the processor as a value; `free` lists the free slots. */
  datatype Proc = Proc(state: seq<TaskState>, id: seq<nat>, ctx: seq<Context>, free: seq<nat>, lastId: nat,
      next: nat, current: int, cr3: nat)

  /** Slots are on the free list exactly when they are FREE, and only tasks with a PML4 can run.
      A slot that is DONT_RUN without a PML4 was lost by a task_new that found no page. */
  ghost predicate SlotsOk(roots: seq<int>, p: Proc) {
    && |roots| == |p.state| == |p.id| == |p.ctx| == TASK_MAX_CNT
    && (forall t: nat :: t in p.free ==> t < TASK_MAX_CNT)
    && (forall t: nat :: t < TASK_MAX_CNT ==> roots[t] >= -1 && (t in p.free <==> p.state[t] == FREE))
    && (forall t: nat :: t < TASK_MAX_CNT && p.state[t] == FREE ==> roots[t] == -1)
    && (forall t: nat :: t < TASK_MAX_CNT && (p.state[t] == READY || p.state[t] == RUN) ==> roots[t] >= 0)
  }

  /** CR3 is the kernel's PML4 or that of a task. */
  ghost predicate InSpace(roots: seq<int>, cr3: nat, kroot: nat) {
    cr3 == kroot || exists t: nat :: t < |roots| && roots[t] == cr3
  }

  lemma InSpaceOf(roots: seq<int>, t: nat, kroot: nat)
    requires t < |roots| && roots[t] >= 0
    ensures InSpace(roots, roots[t], kroot) && InSpace(roots, kroot, kroot)
  {
  }

  /** A new PML4 leaves CR3 where it was, and one that goes takes CR3 to the kernel's. */
  lemma InSpaceKept(roots: seq<int>, t: nat, r: int, cr3: nat, kroot: nat)
    requires t < |roots| && InSpace(roots, cr3, kroot)
    ensures roots[t] < 0 ==> InSpace(roots[t := r], cr3, kroot)
    ensures InSpace(roots[t := r], if cr3 == roots[t] then kroot else cr3, kroot)
  {
    if cr3 != kroot {
      var u: nat :| u < |roots| && roots[u] == cr3;
      if u != t { assert roots[t := r][u] == cr3; }
    }
  }

  class Machine {
    // The page array: reference counts and the free list links.
    var ref: seq<nat>
    const free: List
    // Physical memory, one sequence of words for each page.
    var phys: seq<seq<Word>>
    // The task array, field by field; `pml4` is the frame of the task's PML4 or -1 for NULL.
    var pml4: seq<int>
    var state: seq<TaskState>
    var id: seq<nat>
    var ctx: seq<Context>
    const freeTasks: List
    var lastId: nat
    var next: nat
    // The processor: `cpu->task` as a slot or -1 for NULL, and CR3 as a frame.
    var current: int
    var cr3: nat
    // The frame of the kernel's PML4, `config->pml4`.
    const kernelPml4: nat
    // What boot left behind.
    ghost var img: Image

    /** The state kernel_main starts from: the pages and tables boot prepared and no task. */
    constructor (phys: seq<seq<Word>>, ref: seq<nat>, free: List, kernelPml4: nat, ghost img: Image)
      requires free.Valid() && free.next.Length == |ref| == |phys| && img.kroot == kernelPml4
      ensures Valid() && this.phys == phys && this.ref == ref && this.free == free && this.img == img
      ensures pml4 == seq(TASK_MAX_CNT, _ => -1) && state == seq(TASK_MAX_CNT, _ => FREE)
      ensures freeTasks.elems == [] && fresh(freeTasks.Repr())
      ensures current == -1 && cr3 == img.kroot && next == 0 && lastId == 0
    {
      this.phys, this.ref, this.free, this.kernelPml4, this.img := phys, ref, free, kernelPml4, img;
      pml4, state := seq(TASK_MAX_CNT, _ => -1), seq(TASK_MAX_CNT, _ => FREE);
      id, ctx := seq(TASK_MAX_CNT, _ => 0), seq(TASK_MAX_CNT, _ => Context(0, false, 0));
      freeTasks := new List(TASK_MAX_CNT);
      lastId, next, current, cr3 := 0, 0, -1, kernelPml4;
    }

    ghost predicate Valid()
      reads this, free.Repr(), freeTasks.Repr()
    {
      && free.Valid() && freeTasks.Valid() && free.Repr() !! freeTasks.Repr()
      && free.next.Length == |ref| == |phys| && img.kroot == kernelPml4
      && freeTasks.next.Length == |pml4| == |state| == |id| == |ctx| == TASK_MAX_CNT
    }

    /** The memory system as a value. */
    ghost function S(): Sys
      reads this, free
    {
      Sys(Mem(phys, pml4, USER_SLOTS), ref, free.elems, img)
    }

    ghost function P(): Proc
      reads this, freeTasks
    {
      Proc(state, id, ctx, freeTasks.elems, lastId, next, current, cr3)
    }

    /** Everything that holds whenever the kernel is between two operations. */
    ghost predicate Ok()
      reads this, free.Repr(), freeTasks.Repr()
    {
      Valid() && Fine(S()) && TempPte(S().m, img) == ZERO && SlotsOk(pml4, P()) && InSpace(pml4, cr3, img.kroot)
    }
  }
}
