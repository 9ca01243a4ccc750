/** From the loader to the kernel: what loader_init_memory leaves is what kernel_init_mmap needs,
    and what kernel_init_mmap makes of it is a state the kernel can start from. */
module Handover {
  import opened Mmu
  import opened PageTree
  import opened Queue
  import opened Memory
  import opened Loader
  import opened Sections
  import opened LoaderInit
  import opened Machine
  import opened Start
  import Boot

  // ------------------------------------------------------------------------
  // The page records

  /** Where the 32-bit loader keeps the page array and the list head. */
  datatype Place32 = Place32(base: nat, head: nat)

  function Elem32(l: Place32, x: int): nat { if x < 0 then 0 else l.base + 12 * x }

  function Back32(l: Place32, b: Back): nat {
    match b
    case Nil => 0
    case Head => l.head
    case NextOf(i) => l.base + 12 * i + 4
  }

  /** The record of page `p`, with its two 32-bit links read as one number. */
  function Record(l: Place32, ref: nat, next: int, prev: Back): Boot.Narrow {
    Boot.Narrow(ref, Elem32(l, next) + Boot.WORD * Back32(l, prev))
  }

  function Records(l: Place32, ref: seq<nat>, next: seq<int>, prev: seq<Back>): (r: seq<Boot.Narrow>)
    requires |ref| == |next| == |prev|
    ensures |r| == |ref| && forall p :: 0 <= p < |r| ==> r[p] == Record(l, ref[p], next[p], prev[p])
  {
    seq(|ref|, p requires 0 <= p < |ref| => Record(l, ref[p], next[p], prev[p]))
  }

  /** A page is on the loader's list exactly when its links are not zero, and both assertions of
      the kernel's loop hold. */
  lemma LinksTell(l: Place32, x: Load, next: seq<int>, prev: seq<Back>, first: int)
    requires Sound(x, 1) && |next| == |prev| == |x.ref| && Linked(next, prev, first, x.free)
    requires OffListZero(next, prev, x.free) && l.base > 0 && l.head > 0
    ensures Boot.Handoff(Records(l, x.ref, next, prev))
    ensures forall p: nat :: p < |x.ref| ==> (Records(l, x.ref, next, prev)[p].links != 0 <==> p in x.free)
  {
    hide Once, Cnt, Linked, OffListZero, Record;
    forall p: nat | p < |x.ref|
      ensures Records(l, x.ref, next, prev)[p].ref == x.ref[p]
      ensures (Records(l, x.ref, next, prev)[p].links != 0 <==> p in x.free)
    {
      RecordTells(l, x.ref[p], next, prev, first, x.free, p);
    }
  }

  /** The loader's pointers: a record's second link has the address of the pointer that leads to it. */
  lemma LinksLead32(l: Place32, ws: seq<nat>, ref: seq<nat>, next: seq<int>, prev: seq<Back>, first: int, f: seq<nat>,
          k: nat)
    requires Linked(next, prev, first, f) && |ref| == |next| && k < |f| && 3 * |ref| <= |ws|
    requires forall j: nat :: j < |ref| ==>
               ws[3 * j] == ref[j] && ws[3 * j + 1] == Elem32(l, next[j]) && ws[3 * j + 2] == Back32(l, prev[j])
    ensures f[k] < |ref| && ws[3 * f[k] + 1] == if k + 1 < |f| then l.base + 12 * f[k + 1] else 0
    ensures k == 0 ==> ws[3 * f[k] + 2] == l.head && first == f[0]
    ensures var at := ws[3 * f[k] + 2] - l.base;
            k > 0 ==> 0 <= at && at % 4 == 0 && at / 4 < |ws| && ws[at / 4] == l.base + 12 * f[k]
  {
    hide Linked, After, Before;
    Boot.Neighbour(f, k);
    LinkAt(next, prev, first, f, k);
    if k > 0 {
      Boot.Neighbour(f, k - 1);
      LinkAt(next, prev, first, f, k - 1);
      NextWord(f[k - 1]);
    }
  }

  lemma LinkAt(next: seq<int>, prev: seq<Back>, first: int, f: seq<nat>, k: nat)
    requires Linked(next, prev, first, f) && k < |f|
    ensures f[k] < |next| == |prev| && next[f[k]] == After(f, k) && prev[f[k]] == Before(f, k) && first == f[0]
  {
  }

  lemma NextWord(i: nat)
    ensures (12 * i + 4) % 4 == 0 && (12 * i + 4) / 4 == 3 * i + 1
  {
  }

  lemma RecordTells(l: Place32, ref: nat, next: seq<int>, prev: seq<Back>, first: int, f: seq<nat>, p: nat)
    requires Linked(next, prev, first, f) && |next| == |prev| && OffListZero(next, prev, f) && l.base > 0 && l.head > 0
    requires p < |next|
    ensures Record(l, ref, next[p], prev[p]).ref == ref && (Record(l, ref, next[p], prev[p]).links != 0 <==> p in f)
  {
    if p in f {
      var i :| 0 <= i < |f| && f[i] == p;
      assert prev[f[i]] == Before(f, i);
      assert Back32(l, prev[p]) > 0;
    }
  }

  function Backwards(s: seq<nat>): (r: seq<nat>)
    ensures |r| == |s| && forall i :: 0 <= i < |s| ==> r[i] == s[|s| - 1 - i]
  {
    seq(|s|, i requires 0 <= i < |s| => s[|s| - 1 - i])
  }

  predicate Ascending(s: seq<nat>) { forall i, j :: 0 <= i < j < |s| ==> s[i] < s[j] }

  /** An ascending sequence is determined by its members. */
  lemma {:induction false} SameMembers(s: seq<nat>, r: seq<nat>)
    requires Ascending(s) && Ascending(r) && forall x: nat :: x in s <==> x in r
    ensures s == r
  {
    assert |r| > 0 ==> r[0] in r;
    if |s| > 0 {
      assert s[0] in s && r[0] in r;
      assert s[0] in r && r[0] in s;
      assert s[0] == r[0];
      forall x: nat ensures x in s[1..] <==> x in r[1..] { TailMember(s, x); TailMember(r, x); }
      SameMembers(s[1..], r[1..]);
    }
  }

  lemma TailMember(s: seq<nat>, x: nat)
    requires Ascending(s) && |s| > 0
    ensures x in s[1..] <==> x in s && x != s[0]
  {
  }

  /** The kernel's free list is the loader's, backwards. */
  lemma ListReversed(l: Place32, x: Load, next: seq<int>, prev: seq<Back>, first: int)
    requires Sound(x, 1) && |next| == |prev| == |x.ref| && Linked(next, prev, first, x.free)
    requires OffListZero(next, prev, x.free) && l.base > 0 && l.head > 0
    ensures Boot.FreeFrom(Records(l, x.ref, next, prev), 0) == Backwards(x.free)
  {
    hide Once, Cnt, Linked, OffListZero;
    LinksTell(l, x, next, prev, first);
    var f, r := Boot.FreeFrom(Records(l, x.ref, next, prev), 0), Backwards(x.free);
    forall p: nat ensures p in f <==> p in r {
      if p in x.free {
        var i :| 0 <= i < |x.free| && x.free[i] == p;
        assert r[|x.free| - 1 - i] == p;
      }
    }
    SameMembers(f, r);
  }

  // ------------------------------------------------------------------------
  // The kernel's first state

  /** Two walks that meet in a page table have come the same way. */
  lemma {:induction false} OnePath(m: Mem, lvl: nat, R: int, q: Path, l: nat, r: Path, T: int)
    requires 1 <= l <= lvl <= 5 && InTree(m, q) && InTree(m, r) && Once(m, lvl, R, 0)
    requires Node(m, lvl, R, q, l) == Some(T) && Node(m, lvl, R, r, 1) == Some(T)
    ensures l == 1 && Meet(q, r, lvl, 2)
  {
    if lvl > 1 {
      NodeCounted(m, lvl, R, r, 1);
      var x, y := Idx(q, lvl), Idx(r, lvl);
      EntInCnt(m, lvl, R, 0, y, T, false);
      assert T != R;
      if x == y {
        OnceBelow(m, lvl, R, 0, x);
        OnePath(m, lvl - 1, At(m, R, x).ppn, q, l, r, T);
      } else {
        NodeCounted(m, lvl, R, q, l);
        if x < y { TwoEntsInCnt(m, lvl, R, x, y, T, false); } else { TwoEntsInCnt(m, lvl, R, y, x, T, false); }
      }
    }
  }

  lemma MeetAbove(q: Path, r: Path)
    requires Meet(q, r, 5, 2)
    ensures q.v.(i1 := 0) == r.v.(i1 := 0)
  {
    assert Idx(q, 5) == Idx(r, 5) && Meet(q, r, 4, 2);
    assert Idx(q, 4) == Idx(r, 4) && Meet(q, r, 3, 2);
    assert Idx(q, 3) == Idx(r, 3) && Meet(q, r, 2, 2);
    assert Idx(q, 2) == Idx(r, 2);
  }

  lemma MeetBeside(q: Path, r: Path)
    requires q.t == r.t && q.v.(i1 := 0) == r.v.(i1 := 0)
    ensures Meet(q, r, 5, 2)
  {
    assert Meet(q, r, 1, 2);
    assert Meet(q, r, 2, 2);
    assert Meet(q, r, 3, 2);
    assert Meet(q, r, 4, 2);
  }

  lemma {:induction false} SameWay(m: Mem, lvl: nat, R: int, q: Path, r: Path)
    requires 1 <= lvl <= 5 && Meet(q, r, lvl, 2)
    ensures Node(m, lvl, R, q, 1) == Node(m, lvl, R, r, 1)
  {
    if lvl > 1 && At(m, R, Idx(q, lvl)).p {
      SameWay(m, lvl - 1, At(m, R, Idx(q, lvl)).ppn, q, r);
    }
  }

  /** `m'` holds the words of `m` except for the first entry of `K`. */
  ghost predicate FirstGone(m: Mem, m': Mem, K: int) {
    forall D: int, y: nat :: D >= 0 && (D != K || y != 0) ==> At(m', D, y) == At(m, D, y)
  }

  /** Walks that avoid the first entry of `K` are as they were. */
  lemma {:induction false} WalkKept(m: Mem, m': Mem, K: int, lvl: nat, R: int, q: Path, r: Path, l: nat)
    requires FirstGone(m, m', K) && InTree(m, q) && r.v == q.v && 1 <= lvl <= 4 && 1 <= l && R >= 0
    requires Cnt(m, lvl, R, 0, K, false) == 0 && (R == K ==> Idx(q, lvl) != 0)
    ensures Node(m', lvl, R, r, l) == Node(m, lvl, R, q, l) && Leaf(m', lvl, R, r) == Leaf(m, lvl, R, q)
  {
    var e := At(m, R, Idx(q, lvl));
    assert At(m', R, Idx(r, lvl)) == e;
    if lvl > 1 && e.p {
      EntInCnt(m, lvl, R, 0, Idx(q, lvl), K, false);
      WalkKept(m, m', K, lvl - 1, e.ppn, q, r, l);
    }
  }

  /** The kernel's memory after kernel_init_mmap: the low mappings are gone from the PML4, no task
      exists, and every page off the list is boot's. */
  ghost function Kernel(x: Load, f: seq<nat>, kpt: nat): Sys
    requires Sound(x, 1)
  {
    RootThere(x);
    Sys(Mem(x.m.phys[x.m.roots[0] := x.m.phys[x.m.roots[0]][0 := ZERO]], seq(TASK_MAX_CNT, _ => -1), USER_SLOTS),
        x.ref, f, Image((set p: nat | p < |x.ref| && p !in f), x.m.roots[0], kpt))
  }

  lemma RootThere(x: Load)
    requires Sound(x, 1)
    ensures |x.m.roots| == 1 && 0 <= x.m.roots[0] < |x.m.phys| == |x.ref| && |x.m.phys[x.m.roots[0]]| == TABLE_SIZE
    ensures x.m.roots[0] !in x.free
  {
    RootIsTable(x.m, 0);
  }

  /** The virtual pages are those with numbers below 2^36. */
  lemma NthOnto(v: Vpage) returns (n: nat)
    ensures n < LIMIT && Nth(n) == v
  {
    var a3 := v.i4 * 512 + v.i3;
    var a2 := a3 * 512 + v.i2;
    n := a2 * 512 + v.i1;
    assert n / 512 == a2 && a2 / 512 == a3 && a3 / 512 == v.i4;
  }

  lemma TempNumber()
    ensures Nth(BASE - 16) == TEMP && Nth(BASE - 9) == TEMP.(i1 := 503)
  {
  }

  /** The page table of KERNEL_TEMP exists, because it holds the entry for KERNEL_INFO too, and the
      entry for KERNEL_TEMP in it is empty. */
  lemma TempTable(x: Load, b: Plan, top: nat) returns (kpt: nat)
    requires Fitting(b) && Stage(x, b, 6, top)
    ensures Node(x.m, 5, TOP, Path(0, TEMP), 1) == Some(kpt) && At(x.m, kpt, TEMP.i1) == ZERO && |x.m.roots| > 0
    ensures kpt != x.m.roots[0]
    ensures kpt < |x.ref| && kpt !in x.free
  {
    hide Sound, Node, Leaf, Nth, Want, Once;
    var q, r := Path(0, Nth(BASE - 9)), Path(0, TEMP);
    TempNumber();
    Translations(x, b, top);
    SoundForest(x);
    if Node(x.m, 5, TOP, q, 1).None? { NoNodeNoLeaf(x.m, 5, TOP, q); }
    MeetBeside(q, r);
    SameWay(x.m, 5, TOP, q, r);
    NodeIsTable(x.m, r, 1);
    NodeCounted(x.m, 5, TOP, r, 1);
    RootsApart(x.m, r, 1, 0);
    kpt := Node(x.m, 5, TOP, r, 1).value;
    NodeLeaf(x.m, 5, TOP, r);
    assert Entry(x.m, BASE - 16) == ZERO;
  }

  /** Nothing is mapped beside KERNEL_TEMP, where the kernel puts its stacks. */
  lemma BesideTemp(x: Load, b: Plan, top: nat, kpt: nat, y: nat)
    requires Fitting(b) && Stage(x, b, 6, top) && Node(x.m, 5, TOP, Path(0, TEMP), 1) == Some(kpt) && 496 <= y <= 500
    ensures At(x.m, kpt, y) == ZERO
  {
    hide Sound, Node, Leaf, Stage;
    var n := BASE - 512 + y;
    var q := Path(0, Nth(n));
    assert q.v == TEMP.(i1 := y);
    MeetBeside(q, Path(0, TEMP));
    SameWay(x.m, 5, TOP, q, Path(0, TEMP));
    NodeLeaf(x.m, 5, TOP, q);
    Translations(x, b, top);
    assert Entry(x.m, n) == ZERO;
  }

  lemma SoundForest(x: Load)
    requires Sound(x, 1)
    ensures |x.m.roots| == 1 && x.m.roots[0] >= 0 && x.m.width == TABLE_SIZE && Once(x.m, 5, TOP, 0)
    ensures forall p: int :: Tables(x.m, p) > 0 ==> 0 <= p < |x.ref| && p !in x.free
  {
  }

  lemma KernelSees(x: Load, f: seq<nat>, kpt: nat, q: Path, l: nat)
    requires Sound(x, 1) && KernelPath(q) && 1 <= l <= 4
    ensures Node(Kernel(x, f, kpt).m, 4, x.m.roots[0], q, l) == Node(x.m, 5, TOP, Path(0, q.v), l)
    ensures Leaf(Kernel(x, f, kpt).m, 4, x.m.roots[0], q) == Pte(x.m, Path(0, q.v))
  {
    hide Sound, Cnt;
    SoundForest(x);
    RootThere(x);
    var K, s := x.m.roots[0], Kernel(x, f, kpt);
    OnceBelow(x.m, 5, TOP, 0, 0);
    assert FirstGone(x.m, s.m, K);
    WalkKept(x.m, s.m, K, 4, K, Path(0, q.v), q, l);
  }

  lemma KernelNodes(x: Load, f: seq<nat>, kpt: nat, q: Path, l: nat)
    requires Sound(x, 1) && KernelPath(q) && 1 <= l <= 3 && (forall p: nat :: p in f <==> p in x.free)
    requires Node(x.m, 5, TOP, Path(0, TEMP), 1) == Some(kpt) && Node(x.m, 5, TOP, Path(0, q.v), l).Some?
    ensures KernelNode(q, l, Node(x.m, 5, TOP, Path(0, q.v), l).value, Kernel(x, f, kpt).c)
  {
    hide Sound, Once, Node, Cnt;
    SoundForest(x);
    var r, T := Path(0, q.v), Node(x.m, 5, TOP, Path(0, q.v), l).value;
    NodeIsTable(x.m, r, l);
    NodeCounted(x.m, 5, TOP, r, l);
    if T == kpt {
      OnePath(x.m, 5, TOP, r, l, Path(0, TEMP), kpt);
      MeetAbove(r, Path(0, TEMP));
    }
  }

  /** The direct mapping by page numbers. */
  lemma NthDirect(i: nat, n: nat)
    requires i < LIMIT && n <= MOST_PAGES
    ensures Direct(Nth(i), n) <==> BASE <= i < BASE + n
    ensures i >= BASE ==> Physical(Nth(i)) == i - BASE
    ensures i < SPAN ==> Nth(i).i4 == 0
  {
    hide Nth;
    NthDigits(i);
    var v := Nth(i);
    assert v.i4 < 511 ==> i < 511 * SPAN;
    assert v.i4 == 511 && v.i3 < 480 ==> i < BASE;
    assert v.i4 > 0 ==> i >= SPAN;
  }

  /** The entries of the kernel's half, as the loader wrote them, are those of the invariant. */
  lemma KernelEntries(x: Load, b: Plan, top: nat, f: seq<nat>, kpt: nat, v: Vpage)
    requires Fitting(b) && Stage(x, b, 6, top) && (forall p: nat :: p in f <==> p in x.free) && v.i4 >= USER_SLOTS
    requires Sound(x, 1)
    ensures KernelEntry(v, Pte(x.m, Path(0, v)), b.n, Kernel(x, f, kpt).c)
  {
    hide Stage, Sound, Pte, Nth, Direct, Physical;
    var i := NthOnto(v);
    assert Entry(x.m, i) == Pte(x.m, Path(0, v));
    Translated(x, b, top, i);
    NthDirect(i, b.n);
    AllUsed(x, b, top);
    if i == BASE - 11 && IOAPIC < b.n { KeptPages(x, b, top, IOAPIC); }
    if i == BASE - 10 && APIC < b.n { KeptPages(x, b, top, APIC); }
    if i == BASE - 9 { KeptPages(x, b, top, b.config); }
    if BASE - 8 <= i < BASE { KeptPages(x, b, top, b.stack + i - (BASE - 8)); }
  }

  /** The kernel starts from a state where its invariant holds. */
  lemma KernelFresh(x: Load, b: Plan, top: nat, f: seq<nat>) returns (kpt: nat)
    requires Fitting(b) && Stage(x, b, 6, top) && 0 !in x.free && b.n > 0 && NoDup(f)
    requires (forall p: nat :: p in f <==> p in x.free)
    ensures Fresh(Kernel(x, f, kpt)) && NoStacks(Kernel(x, f, kpt))
  {
    hide Sound, Node, Leaf, Nth, Want, Once, Cnt, Pte, Kernel, KernelNode, KernelEntry;
    kpt := TempTable(x, b, top);
    forall y: nat | 497 <= y <= 500 ensures At(x.m, kpt, y) == ZERO { BesideTemp(x, b, top, kpt, y); }
    SoundForest(x);
    RootThere(x);
    var s := Kernel(x, f, kpt);
    forall q: Path, l: nat | KernelPath(q) && 1 <= l <= 3 && Node(s.m, 4, x.m.roots[0], q, l).Some?
      ensures KernelNode(q, l, Node(s.m, 4, x.m.roots[0], q, l).value, s.c)
    {
      KernelSees(x, f, kpt, q, l);
      KernelNodes(x, f, kpt, q, l);
    }
    forall q: Path | KernelPath(q) ensures KernelEntry(q.v, Leaf(s.m, 4, x.m.roots[0], q), b.n, s.c) {
      KernelSees(x, f, kpt, q, 1);
      KernelEntries(x, b, top, f, kpt, q.v);
    }
    forall t: nat
      ensures Node(s.m, 4, x.m.roots[0], Path(t, TEMP), 1) == Some(kpt)
    {
      KernelSees(x, f, kpt, Path(t, TEMP), 1);
    }
    forall q: Path, l: nat | KernelPath(q) && 2 <= l <= 4 && Node(s.m, 4, x.m.roots[0], q, l).Some?
      ensures Opens(At(s.m, Node(s.m, 4, x.m.roots[0], q, l).value, Idx(q, l)))
    {
      KernelOpens(x, f, kpt, q, l);
    }
    KernelShape(x, b, top, f, kpt);
  }

  /** The loader's tables let the kernel write, and entry 0 is gone. */
  lemma KernelOpens(x: Load, f: seq<nat>, kpt: nat, q: Path, l: nat)
    requires Sound(x, 1) && KernelPath(q) && 2 <= l <= 4
    requires Node(Kernel(x, f, kpt).m, 4, x.m.roots[0], q, l).Some?
    ensures var m := Kernel(x, f, kpt).m; Opens(At(m, Node(m, 4, x.m.roots[0], q, l).value, Idx(q, l)))
  {
    hide Once, Node, Cnt;
    var s, r := Kernel(x, f, kpt), Path(0, q.v);
    KernelSees(x, f, kpt, q, l);
    assert Tables(x.m, SHUT) == 0;
    OpenEntry(x.m, 5, TOP, r, l);
    RootThere(x);
    assert At(s.m, x.m.roots[0], 0) == ZERO;
    var T := Node(x.m, 5, TOP, r, l).value;
    NodeIsTable(x.m, r, l);
    assert At(s.m, T, Idx(q, l)) == At(x.m, T, Idx(r, l)) || At(s.m, T, Idx(q, l)) == ZERO;
  }

  lemma KernelShape(x: Load, b: Plan, top: nat, f: seq<nat>, kpt: nat)
    requires Fitting(b) && Stage(x, b, 6, top) && 0 !in x.free && b.n > 0 && NoDup(f)
    requires (forall p: nat :: p in f <==> p in x.free)
    requires |x.m.roots| > 0 && kpt != x.m.roots[0] && At(x.m, kpt, TEMP.i1) == ZERO && kpt < |x.ref| && kpt !in x.free
    ensures forall t: nat :: t < |Kernel(x, f, kpt).m.roots| ==> Kernel(x, f, kpt).m.roots[t] < 0
    ensures var c := Kernel(x, f, kpt).c; c.kroot == x.m.roots[0] && c.kpt == kpt && c.kroot in c.boot && kpt in c.boot
    ensures Kernel(x, f, kpt).ref == x.ref && Kernel(x, f, kpt).free == f
    ensures Shape(Kernel(x, f, kpt)) && At(Kernel(x, f, kpt).m, x.m.roots[0], USER_SLOTS - 1) == ZERO
    ensures TempPte(Kernel(x, f, kpt).m, Kernel(x, f, kpt).c) == ZERO
    ensures forall y: nat :: y > 0 || kpt != x.m.roots[0] ==> At(Kernel(x, f, kpt).m, kpt, y) == At(x.m, kpt, y)
    ensures forall p: nat :: p < |x.ref| ==> p in f || p in Kernel(x, f, kpt).c.boot
  {
    hide Once, Cnt, Entry;
    RootThere(x);
    assert At(x.m, x.m.roots[0], USER_SLOTS - 1) == ZERO;
    forall i | 0 <= i < |f| ensures f[i] < |x.ref| && f[i] in x.free { assert f[i] in f; }
  }

  lemma BackwardsMembers(x: Load)
    requires Sound(x, 1)
    ensures NoDup(Backwards(x.free)) && forall p: nat :: p in Backwards(x.free) <==> p in x.free
  {
    hide Once, Cnt;
    var f, r := x.free, Backwards(x.free);
    forall p: nat | p in f ensures p in r {
      var i :| 0 <= i < |f| && f[i] == p;
      assert r[|f| - 1 - i] == p;
    }
  }

  lemma StageSound(x: Load, b: Plan, top: nat)
    requires Stage(x, b, 6, top)
    ensures Sound(x, 1) && |x.ref| == b.n
  {
  }

  lemma KernelPhys(x: Load, f: seq<nat>, kpt: nat)
    requires Sound(x, 1)
    ensures |x.m.roots| == 1 && 0 <= x.m.roots[0] < |x.m.phys| && |x.m.phys[x.m.roots[0]]| == TABLE_SIZE
    ensures Kernel(x, f, kpt).m.phys == x.m.phys[x.m.roots[0] := x.m.phys[x.m.roots[0]][0 := ZERO]]
  {
    RootThere(x);
  }

  /** kernel_init_mmap on what the loader left: the low mappings go, the records are widened, the
      free list is the loader's in ascending order, and the kernel can start. */
  method TakeOver(k: Loader, w: array<nat>, l: Place32, place: Boot.Place, ghost b: Plan, ghost top: nat)
    returns (head: nat, used: nat, ghost next: seq<int>, ghost prev: seq<Back>, ghost first: int, ghost kpt: nat)
    requires k.Valid() && Fitting(b) && Stage(k.L(false), b, 6, top) && 0 !in k.free.elems && b.n > 0
    requires l.base > 0 && l.head > 0 && place.base > 0 && k.pml4 < |k.phys| && |k.phys[k.pml4]| == TABLE_SIZE
    requires k.free.prev.Length == |k.ref| == k.free.next.Length && 6 * |k.ref| <= w.Length
    requires Boot.Unread(w[..], Records(l, k.ref, k.free.next[..], k.free.prev[..]), |k.ref|)
    modifies k`phys, w
    ensures Boot.Done(w[..], place, old(Records(l, k.ref, k.free.next[..], k.free.prev[..])), 0, next, prev, first)
    ensures Linked(next, prev, first, Backwards(k.free.elems)) && first >= -1 && head == Boot.ElemAddr(place, first)
    ensures Sound(old(k.L(false)), 1) && Fresh(Kernel(old(k.L(false)), Backwards(k.free.elems), kpt))
    ensures NoStacks(Kernel(old(k.L(false)), Backwards(k.free.elems), kpt))
    ensures k.phys == Kernel(old(k.L(false)), Backwards(k.free.elems), kpt).m.phys
  {
    hide Sound, Stage, Linked, OffListZero, Marked, Looked, Fresh, NoStacks, Kernel, Boot.Unread, Boot.Handoff;
    hide Fitting, Boot.FreeFrom, Boot.Shows;
    ghost var x, rs := k.L(false), Records(l, k.ref, k.free.next[..], k.free.prev[..]);
    StageSound(x, b, top);
    LinksTell(l, x, k.free.next[..], k.free.prev[..], k.free.first);
    ListReversed(l, x, k.free.next[..], k.free.prev[..], k.free.first);
    BackwardsMembers(x);
    kpt := KernelFresh(x, b, top, Backwards(x.free));
    KernelPhys(x, Backwards(x.free), kpt);
    assert x.m.phys == k.phys;
    k.phys := k.phys[k.pml4 := k.phys[k.pml4][0 := Word(0, false, false, false, false, 0)]];
    head, used, next, prev, first := Boot.KernelInitMmap(w, place, rs, |k.ref|);
  }
}
