/** What sys_fork does to the address spaces of parent and child. */
module Sharing {
  import opened Mmu
  import opened PageTree
  import opened Memory

  /** The entry task_share_page leaves in both tasks: copy-on-write in place of writable. */
  function Shared(e: Word): Word {
    if e.p && (e.w || e.cow) then e.(w := false, cow := true) else e
  }

  /** A writable page is mapped once in the whole system, and private pages are open to user code. */
  ghost predicate Sole(m: Mem) {
    && (forall q: Path :: InTree(m, q) && Pte(m, q).p && Pte(m, q).w ==> Maps(m, Pte(m, q).ppn) == 1)
    && (forall q: Path :: InTree(m, q) && Pte(m, q).p ==> Pte(m, q).u)
  }

  /** Allocated pages stay allocated, tables stay tables, and other pages keep their contents. */
  ghost predicate Kept(s: Sys, s': Sys) {
    && s'.c == s.c && s'.m.width == s.m.width && |s'.ref| == |s.ref| == |s.m.phys| == |s'.m.phys|
    && (forall p: nat :: p in s.c.boot && p < |s.m.phys| ==> s'.m.phys[p] == s.m.phys[p])
    && (forall p: int :: InUse(s, p) ==>
          InUse(s', p) && Tables(s'.m, p) == Tables(s.m, p) && (Tables(s.m, p) == 0 ==> s'.m.phys[p] == s.m.phys[p]))
    && (forall p: int :: Limbo(s', p) <==> Limbo(s, p))
  }

  /** How far a fork from slot `t` to slot `c` may have gone, whatever its outcome. */
  ghost predicate Progress(s: Sys, s': Sys, t: nat, c: nat) {
    && Kept(s, s') && s'.m.roots == s.m.roots
    && (forall u: nat, p: int, leaf: bool :: u < |s.m.roots| && u != c ==>
          Slot(s'.m, u, p, leaf) == Slot(s.m, u, p, leaf))
    && (forall r: Path :: InTree(s.m, r) && r.t != t && r.t != c ==> Pte(s'.m, r) == Pte(s.m, r))
    && (forall r: Path :: InTree(s.m, r) && r.t == t ==>
          Pte(s'.m, r) == Pte(s.m, r) || Pte(s'.m, r) == Shared(Pte(s.m, r)))
    && (forall r: Path, l: nat :: InTree(s.m, r) && r.t == t && 1 <= l <= 4 ==>
          Node(s'.m, 5, TOP, r, l) == Node(s.m, 5, TOP, r, l))
  }

  lemma ProgressRefl(s: Sys, t: nat, c: nat)
    requires Inv(s)
    ensures Progress(s, s, t, c)
  {
  }

  lemma ProgressTrans(s: Sys, s1: Sys, s2: Sys, t: nat, c: nat)
    requires Progress(s, s1, t, c) && Progress(s1, s2, t, c)
    ensures Progress(s, s2, t, c)
  {
  }

  // ------------------------------------------------------------------------
  // One shared page

  /** Changing the flags of an existing entry changes no count and no table. */
  lemma RemapCounts(s: Sys, q: Path, N: nat, e: Word)
    requires Inv(s) && Holds(s, q, N) && Pte(s.m, q).p && e.p && e.ppn == Pte(s.m, q).ppn
    ensures var m' := SetWord(s.m, N, q.v.i1, e);
            && (forall u: nat, p: int, leaf: bool :: u < |s.m.roots| ==> Slot(m', u, p, leaf) == Slot(s.m, u, p, leaf))
            && (forall p: int :: Tables(m', p) == Tables(s.m, p) && Maps(m', p) == Maps(s.m, p))
            && (forall r: Path :: InTree(s.m, r) ==> Pte(m', r) == if r == q then e else Pte(s.m, r))
  {
    hide Cnt, Ent, Leaf, Node, Slot, Tables, Maps, Exact, KernelHalf;
    PteForest(s, q, N, e);
  }

  lemma RemapProgress(s: Sys, s1: Sys, q: Path, N: nat, c: nat)
    requires Inv(s) && Holds(s, q, N) && Pte(s.m, q).p && s1 == s.(m := SetWord(s.m, N, q.v.i1, Shared(Pte(s.m, q))))
    requires c != q.t
    ensures Progress(s, s1, q.t, c)
  {
    hide Cnt, Ent, Leaf, Node, Slot, Tables, Maps, KernelHalf, Exact;
    var e := Shared(Pte(s.m, q));
    RemapCounts(s, q, N, e);
    SetWordWrote(s.m, N, q.v.i1, e);
    forall r: Path, l: nat | InTree(s.m, r) && 1 <= l <= 4 ensures Node(s1.m, 5, TOP, r, l) == Node(s.m, 5, TOP, r, l) {
      LeafWriteNode(s.m, s1.m, q, N, e, r, l);
    }
  }

  /** The walks of slot `t` are not disturbed by work on slot `c`. */
  lemma OtherNodes(s: Sys, s': Sys, r: Path, l: nat, c: nat)
    requires OtherTables(s, s', c) && s'.m.roots == s.m.roots && s'.m.width == s.m.width && InTree(s.m, r) && r.t != c
    requires 1 <= l <= 4
    ensures Node(s'.m, 5, TOP, r, l) == Node(s.m, 5, TOP, r, l)
  {
    SlotNodes(s.m, s'.m, r, l);
  }

  lemma GrownProgress(s: Sys, s': Sys, t: nat, c: nat)
    requires Inv(s) && Grown(s, s', c) && t != c
    ensures Progress(s, s', t, c)
  {
    hide Cnt, Ent, Leaf, Node, Slot, Tables, Maps, KernelHalf, Exact;
    forall r: Path, l: nat | InTree(s.m, r) && r.t == t && 1 <= l <= 4
      ensures Node(s'.m, 5, TOP, r, l) == Node(s.m, 5, TOP, r, l)
    {
      OtherNodes(s, s', r, l, c);
    }
  }

  /** Mapping a page where nothing was mapped frees nothing. */
  lemma InsertKeepsUse(s: Sys, s': Sys, q: Path, e: Word, p: int)
    requires Inv(s) && Inv(s') && InTree(s.m, q) && Retargeted(s, s', q, e) && !Pte(s.m, q).p && InUse(s, p)
    ensures InUse(s', p)
  {
    hide Cnt, Ent, Leaf, Node, Slot, Tables, Maps, KernelHalf, Forest;
    assert Maps(s'.m, p) >= Maps(s.m, p);
    assert TempPte(s'.m, s.c) == TempPte(s.m, s.c) by { SameTemp(s, s'); }
    assert Refs(s', p) >= Refs(s, p);
    if Refs(s', p) == 0 {
      assert Limbo(s, p);
      assert Maps(s'.m, p) == 0;
      assert !Names(e, p);
    }
  }

  lemma SameTemp(s: Sys, s': Sys)
    requires Inv(s) && SamePages(s, s')
    ensures TempPte(s'.m, s.c) == TempPte(s.m, s.c)
  {
  }

  lemma InsertProgress(s: Sys, s': Sys, q: Path, e: Word, t: nat)
    requires Inv(s) && Inv(s') && InTree(s.m, q) && Retargeted(s, s', q, e) && !Pte(s.m, q).p && t != q.t
    requires e.p && !Limbo(s, e.ppn)
    ensures Progress(s, s', t, q.t)
  {
    hide Cnt, Ent, Leaf, Node, Slot, Tables, Maps, KernelHalf, Exact;
    forall p: int | InUse(s, p) ensures InUse(s', p) { InsertKeepsUse(s, s', q, e, p); }
    forall r: Path, l: nat | InTree(s.m, r) && r.t == t && 1 <= l <= 4
      ensures Node(s'.m, 5, TOP, r, l) == Node(s.m, 5, TOP, r, l)
    {
      OtherNodes(s, s', r, l, q.t);
    }
  }

  lemma RemapSole(s: Sys, q: Path, N: nat, e: Word)
    requires Inv(s) && Sole(s.m) && Holds(s, q, N) && Pte(s.m, q).p && e.p && e.ppn == Pte(s.m, q).ppn
    requires (e.w ==> Pte(s.m, q).w) && e.u
    ensures Sole(SetWord(s.m, N, q.v.i1, e))
  {
    hide Cnt, Ent, Leaf, Node, Slot, Tables, Maps, KernelHalf, Exact;
    RemapCounts(s, q, N, e);
  }

  lemma GrownSole(s: Sys, s': Sys, t: nat)
    requires Sole(s.m) && Grown(s, s', t)
    ensures Sole(s'.m)
  {
    hide Cnt, Ent, Leaf, Slot, Tables, Maps;
  }

  /** A second, read-only mapping of a page that is mapped read-only does not make it writable. */
  lemma InsertSole(s: Sys, s': Sys, src: Path, q: Path, e: Word)
    requires Sole(s.m) && Retargeted(s, s', q, e) && InTree(s.m, q) && InTree(s.m, src) && src != q
    requires !Pte(s.m, q).p && e.p && !e.w && e.u && Pte(s.m, src).p && !Pte(s.m, src).w && Pte(s.m, src).ppn == e.ppn
    ensures Sole(s'.m)
  {
    hide Cnt, Ent, Leaf, Slot, Tables;
    forall r: Path | InTree(s'.m, r) && Pte(s'.m, r).p && Pte(s'.m, r).w ensures Maps(s'.m, Pte(s'.m, r).ppn) == 1 {
      assert Pte(s'.m, r) == Pte(s.m, r);
      if Pte(s.m, r).ppn == e.ppn {
        MeetIsEqual(src, r);
        TwoLeavesCounted(s.m, 5, TOP, src, r);
      }
    }
  }

  // ------------------------------------------------------------------------
  // The nested walks

  /** The two entries of virtual page `v` have become the shared one, all others are as before. */
  ghost predicate SharedOne(m: Mem, m': Mem, t: nat, c: nat, v: Vpage) {
    forall r: Path :: InTree(m, r) ==>
      Pte(m', r) == if r == Path(t, v) || r == Path(c, v) then Shared(Pte(m, Path(t, v))) else Pte(m, r)
  }

  /** `v` lies below one of the first `x` entries of the table of level `lvl` on the way to `q`. */
  predicate Within(q: Path, v: Vpage, lvl: nat, x: nat) {
    Meet(q, Path(q.t, v), 4, lvl + 1) && Idx(Path(q.t, v), lvl) < x
  }

  /** The part of the parent's memory below those entries is shared, the rest as before. */
  ghost predicate Copied(m: Mem, m': Mem, c: nat, q: Path, lvl: nat, x: nat) {
    forall v: Vpage :: v.i4 < m.width ==>
      if Within(q, v, lvl, x) then
        Pte(m', Path(q.t, v)) == Shared(Pte(m, Path(q.t, v))) && Pte(m', Path(c, v)) == Shared(Pte(m, Path(q.t, v)))
      else
        Pte(m', Path(q.t, v)) == Pte(m, Path(q.t, v)) && Pte(m', Path(c, v)) == Pte(m, Path(c, v))
  }

  /** The child has nothing mapped below the table of level `lvl` on the way to `q`. */
  ghost predicate Vacant(m: Mem, c: nat, q: Path, lvl: nat) {
    forall v: Vpage :: v.i4 < m.width && Meet(q, Path(q.t, v), 4, lvl + 1) ==> Pte(m, Path(c, v)) == ZERO
  }

  lemma CopiedStart(m: Mem, c: nat, q: Path, lvl: nat)
    ensures Copied(m, m, c, q, lvl, 0)
  {
  }

  lemma WithinStep(q: Path, v: Vpage, lvl: nat, x: Index)
    requires 1 <= lvl <= 4
    ensures Within(q, v, lvl, x + 1) <==>
              Within(q, v, lvl, x) || Meet(Path(q.t, SetIdx(q.v, lvl, x)), Path(q.t, v), 4, lvl)
    ensures Meet(Path(q.t, SetIdx(q.v, lvl, x)), Path(q.t, v), 4, lvl) <==>
              Meet(q, Path(q.t, v), 4, lvl + 1) && Idx(Path(q.t, v), lvl) == x
  {
    var r, z := Path(q.t, SetIdx(q.v, lvl, x)), Path(q.t, v);
    MeetUnfold(r, z, lvl);
    MeetUnfold(q, z, lvl + 1);
  }

  lemma MeetUnfold(q: Path, r: Path, l: nat)
    requires 1 <= l <= 5
    ensures Meet(q, r, 4, l) <==> forall i: nat :: l <= i <= 4 ==> Idx(q, i) == Idx(r, i)
  {
    assert Meet(q, r, 4, l) <==> 4 < l || (Idx(q, 4) == Idx(r, 4) && Meet(q, r, 3, l));
    assert Meet(q, r, 3, l) <==> 3 < l || (Idx(q, 3) == Idx(r, 3) && Meet(q, r, 2, l));
    assert Meet(q, r, 2, l) <==> 2 < l || (Idx(q, 2) == Idx(r, 2) && Meet(q, r, 1, l));
    assert Meet(q, r, 1, l) <==> 1 < l || Idx(q, 1) == Idx(r, 1);
  }

  function StepTo(q: Path, lvl: nat, x: Index): Path {
    Path(q.t, SetIdx(q.v, lvl, x))
  }

  /** The way to a table depends only on the indices above its level. */
  lemma {:induction false} NodeMeet(m: Mem, lvl: nat, R: int, q: Path, r: Path, l: nat)
    requires l <= lvl && forall i: nat :: l < i <= lvl ==> Idx(q, i) == Idx(r, i)
    ensures Node(m, lvl, R, q, l) == Node(m, lvl, R, r, l)
  {
    if l < lvl && At(m, R, Idx(q, lvl)).p {
      NodeMeet(m, lvl - 1, At(m, R, Idx(q, lvl)).ppn, q, r, l);
    }
  }

  lemma StepNode(m: Mem, q: Path, lvl: nat, x: Index)
    requires 1 <= lvl <= 4
    ensures Node(m, 5, TOP, StepTo(q, lvl, x), lvl) == Node(m, 5, TOP, q, lvl)
    ensures Idx(StepTo(q, lvl, x), lvl) == x
  {
    NodeMeet(m, 5, TOP, StepTo(q, lvl, x), q, lvl);
  }

  /** Below an absent entry nothing is mapped. */
  lemma SkippedEmpty(m: Mem, q: Path, lvl: nat, T: int, x: Index, v: Vpage)
    requires 1 <= lvl <= 4 && Forest(m) && InTree(m, Path(q.t, v)) && Node(m, 5, TOP, q, lvl) == Some(T)
    requires !At(m, T, x).p
    requires Meet(StepTo(q, lvl, x), Path(q.t, v), 4, lvl)
    ensures Pte(m, Path(q.t, v)) == ZERO
  {
    hide Once, Forest;
    var z, r := StepTo(q, lvl, x), Path(q.t, v);
    StepNode(m, q, lvl, x);
    if lvl >= 2 {
      AbsentBelow(m, 5, TOP, z, lvl, T, r);
    } else {
      MeetIsEqual(z, r);
      assert z == r;
      NodeLeaf(m, 5, TOP, r);
      AbsentZero(m, r);
    }
  }

  lemma AbsentZero(m: Mem, q: Path)
    requires Forest(m) && InTree(m, q) && !Pte(m, q).p
    ensures Pte(m, q) == ZERO
  {
  }

  lemma CopySkip(m0: Mem, m: Mem, c: nat, q: Path, lvl: nat, T: int, x: Index)
    requires 1 <= lvl <= 4 && Forest(m) && SameShape(m0, m) && q.t < |m.roots| && Node(m, 5, TOP, q, lvl) == Some(T)
    requires !At(m, T, x).p
    requires Copied(m0, m, c, q, lvl, x) && Vacant(m0, c, q, lvl)
    ensures Copied(m0, m, c, q, lvl, x + 1)
  {
    hide Forest, Pte, Node, Meet;
    forall v: Vpage | v.i4 < m0.width
      ensures Within(q, v, lvl, x + 1) && !Within(q, v, lvl, x) ==>
                Pte(m0, Path(q.t, v)) == Pte(m, Path(q.t, v)) == ZERO
                    && Pte(m, Path(c, v)) == Pte(m0, Path(c, v)) == ZERO
      ensures Within(q, v, lvl, x) ==> Within(q, v, lvl, x + 1)
    {
      WithinStep(q, v, lvl, x);
      if Within(q, v, lvl, x + 1) && !Within(q, v, lvl, x) {
        SkippedEmpty(m, q, lvl, T, x, v);
      }
    }
  }

  lemma CopyLeaf(m0: Mem, m: Mem, m': Mem, c: nat, q: Path, x: Index)
    requires SameShape(m0, m) && q.t < |m.roots| && c < |m.roots| && q.v.i4 < m.width
    requires Copied(m0, m, c, q, 1, x) && SharedOne(m, m', q.t, c, SetIdx(q.v, 1, x))
    ensures Copied(m0, m', c, q, 1, x + 1)
  {
    hide Pte;
    var z := SetIdx(q.v, 1, x);
    forall v: Vpage | v.i4 < m0.width
      ensures Within(q, v, 1, x + 1) <==> Within(q, v, 1, x) || v == z
      ensures v == z ==> !Within(q, v, 1, x)
    {
      WithinStep(q, v, 1, x);
      MeetIsEqual(Path(q.t, z), Path(q.t, v));
    }
    assert forall v: Vpage :: v.i4 < m0.width ==> InTree(m, Path(q.t, v)) && InTree(m, Path(c, v));
  }

  lemma CopyBelow(m0: Mem, m: Mem, m': Mem, c: nat, q: Path, lvl: nat, x: Index)
    requires 2 <= lvl <= 4 && SameShape(m0, m)
    requires Copied(m0, m, c, q, lvl, x) && Copied(m, m', c, StepTo(q, lvl, x), lvl - 1, TABLE_SIZE)
    ensures Copied(m0, m', c, q, lvl, x + 1)
  {
    hide Pte, Meet;
    var z := StepTo(q, lvl, x);
    forall v: Vpage | v.i4 < m0.width
      ensures Within(q, v, lvl, x + 1) <==> Within(q, v, lvl, x) || Within(z, v, lvl - 1, TABLE_SIZE)
      ensures !(Within(q, v, lvl, x) && Within(z, v, lvl - 1, TABLE_SIZE))
    {
      WithinStep(q, v, lvl, x);
    }
  }

  lemma VacantBelow(m0: Mem, m: Mem, c: nat, q: Path, lvl: nat, x: Index)
    requires 1 <= lvl <= 4 && SameShape(m0, m) && Copied(m0, m, c, q, lvl, x) && Vacant(m0, c, q, lvl)
    ensures lvl > 1 ==> Vacant(m, c, StepTo(q, lvl, x), lvl - 1)
    ensures lvl == 1 && q.v.i4 < m.width ==> Pte(m, Path(c, SetIdx(q.v, 1, x))) == ZERO
  {
    hide Pte, Meet;
    var z := StepTo(q, lvl, x);
    forall v: Vpage | v.i4 < m.width && Meet(z, Path(q.t, v), 4, lvl) ensures Pte(m, Path(c, v)) == ZERO {
      WithinStep(q, v, lvl, x);
    }
    if lvl == 1 { MeetSelf(z); }
  }

  lemma MeetSelf(q: Path)
    ensures Meet(q, q, 4, 1)
  {
    MeetUnfold(q, q, 1);
  }

  // ------------------------------------------------------------------------
  // task_share_page, step by step

  ghost predicate Fine(s: Sys) { Inv(s) && Sole(s.m) }

  /** The parent's entry loses its write permission. */
  lemma ShareRemap(s: Sys, s1: Sys, r: int, q: Path, c: nat)
    requires Fine(s) && Root(s, r, q) && !KernelPath(q) && c != q.t && Pte(s.m, q).p
    requires StoredAt(s, s1, r, q, Shared(Pte(s.m, q)))
    ensures Fine(s1) && Progress(s, s1, q.t, c)
    ensures forall w: Path :: InTree(s.m, w) ==> Pte(s1.m, w) == if w == q then Shared(Pte(s.m, q)) else Pte(s.m, w)
  {
    hide Inv, Sole, Progress, Node, Leaf, Pte;
    var N, e := Node(s.m, 4, r, q, 1).value, Shared(Pte(s.m, q));
    WalkHolds(s, r, q);
    RootLeaf(s.m, r, q);
    assert s1 == s.(m := SetWord(s.m, N, q.v.i1, e));
    RemapInv(s, q, N, e);
    OpenPte(s.m, q);
    RemapSole(s, q, N, e);
    RemapProgress(s, s1, q, N, c);
    RemapCounts(s, q, N, e);
  }

  lemma OpenPte(m: Mem, q: Path)
    requires Sole(m) && InTree(m, q) && Pte(m, q).p
    ensures Pte(m, q).u
  {
  }

  /** The child gets the same entry. */
  lemma ShareInsert(s: Sys, s': Sys, src: Path, q: Path, e: Word)
    requires Fine(s) && Inv(s') && Retargeted(s, s', q, e) && InTree(s.m, q) && InTree(s.m, src) && src.t != q.t
    requires !Pte(s.m, q).p && Pte(s.m, src) == e && e.p && !e.w
    ensures Fine(s') && Progress(s, s', src.t, q.t)
  {
    hide Progress, Node, Leaf, Pte, Exact, Forest, KernelHalf;
    InsertSole(s, s', src, q, e);
    PteTarget(s, src);
    InsertProgress(s, s', q, e, src.t);
  }

  lemma ShareBoth(m: Mem, m1: Mem, m2: Mem, t: nat, c: nat, v: Vpage, e: Word)
    requires SameShape(m, m1) && t != c
    requires e == Shared(Pte(m, Path(t, v)))
    requires forall r: Path :: InTree(m, r) ==> Pte(m1, r) == if r == Path(t, v) then e else Pte(m, r)
    requires forall r: Path :: InTree(m1, r) ==> Pte(m2, r) == if r == Path(c, v) then e else Pte(m1, r)
    ensures SharedOne(m, m2, t, c, v)
  {
  }

  lemma ShareOutcome(s: Sys, s1: Sys, s2: Sys, t: nat, c: nat, v: Vpage, ok: bool)
    requires Fine(s1) && Progress(s, s1, t, c) && Inv(s2) && t != c && InTree(s.m, Path(t, v))
    requires InTree(s.m, Path(c, v))
    requires Pte(s.m, Path(t, v)).p && !Shared(Pte(s.m, Path(t, v))).w && !Pte(s.m, Path(c, v)).p
    requires forall r: Path :: InTree(s.m, r) ==>
               Pte(s1.m, r) == if r == Path(t, v) then Shared(Pte(s.m, Path(t, v))) else Pte(s.m, r)
    requires if ok then Retargeted(s1, s2, Path(c, v), Shared(Pte(s.m, Path(t, v)))) else Grown(s1, s2, c)
    ensures Fine(s2) && Progress(s, s2, t, c) && (ok ==> SharedOne(s.m, s2.m, t, c, v))
  {
    hide Inv, Sole, Progress, Node, Leaf, Pte;
    ProgressShape(s, s1, t, c);
    var e := Shared(Pte(s.m, Path(t, v)));
    if ok {
      ShareInsert(s1, s2, Path(t, v), Path(c, v), e);
      ShareBoth(s.m, s1.m, s2.m, t, c, v, e);
    } else {
      GrownProgress(s1, s2, t, c);
      GrownSole(s1, s2, c);
    }
    ProgressTrans(s, s1, s2, t, c);
  }

  lemma ProgressShape(s: Sys, s': Sys, t: nat, c: nat)
    requires Progress(s, s', t, c)
    ensures SameShape(s.m, s'.m) && s'.m.roots == s.m.roots
    ensures forall r: Path, l: nat :: InTree(s.m, r) && r.t == t && 1 <= l <= 4 ==>
              Node(s'.m, 5, TOP, r, l) == Node(s.m, 5, TOP, r, l)
    ensures forall p: int :: InUse(s, p) ==> InUse(s', p) && Tables(s'.m, p) == Tables(s.m, p)
  {
  }

  // ------------------------------------------------------------------------
  // The walk over one table of the parent

  /** The parent's table `T` of level `lvl` on the way to `q` is being copied, with the entries
      before `x` done; `s0` is the state in which the walk over it began. */
  ghost predicate Copying(s0: Sys, s: Sys, c: nat, q: Path, lvl: nat, T: int, x: nat) {
    && Fine(s) && Progress(s0, s, q.t, c) && Copied(s0.m, s.m, c, q, lvl, x)
    && 1 <= lvl <= 4 && c != q.t && InTree(s0.m, q) && c < |s0.m.roots| && s0.m.roots[q.t] >= 0 && s0.m.roots[c] >= 0
    && Node(s0.m, 5, TOP, q, lvl) == Some(T) && Vacant(s0.m, c, q, lvl)
  }

  lemma CopyBegin(s: Sys, c: nat, q: Path, lvl: nat, T: int)
    requires Fine(s) && 1 <= lvl <= 4 && c != q.t && InTree(s.m, q) && c < |s.m.roots| && s.m.roots[q.t] >= 0
    requires s.m.roots[c] >= 0
    requires Node(s.m, 5, TOP, q, lvl) == Some(T) && Vacant(s.m, c, q, lvl)
    ensures Copying(s, s, c, q, lvl, T, 0)
  {
    ProgressRefl(s, q.t, c);
    CopiedStart(s.m, c, q, lvl);
  }

  /** The entry the loop looks at. */
  lemma CopyRead(s0: Sys, s: Sys, c: nat, q: Path, lvl: nat, T: int, x: Index)
    requires Copying(s0, s, c, q, lvl, T, x)
    ensures 0 <= T < |s.m.phys| && |s.m.phys[T]| == TABLE_SIZE && s.m.phys[T][x] == At(s.m, T, x)
    ensures Node(s.m, 5, TOP, StepTo(q, lvl, x), lvl) == Some(T)
    ensures lvl == 1 ==> Pte(s.m, StepTo(q, 1, x)) == At(s.m, T, x) && Pte(s.m, Path(c, SetIdx(q.v, 1, x))) == ZERO
    ensures lvl > 1 && At(s.m, T, x).p ==> Node(s.m, 5, TOP, StepTo(q, lvl, x), lvl - 1) == Some(At(s.m, T, x).ppn)
    ensures lvl > 1 ==> Vacant(s.m, c, StepTo(q, lvl, x), lvl - 1)
  {
    hide Inv, Sole, Progress, Leaf, Copied, Vacant, Node;
    ProgressShape(s0, s, q.t, c);
    assert Node(s.m, 5, TOP, q, lvl) == Some(T);
    RootLeaf(s.m, s.m.roots[q.t], q);
    WalkInRange(s, s.m.roots[q.t], q, lvl);
    StepNode(s.m, q, lvl, x);
    VacantBelow(s0.m, s.m, c, q, lvl, x);
    if lvl == 1 {
      NodeLeaf(s.m, 5, TOP, StepTo(q, 1, x));
    } else {
      NodeStep(s.m, 5, TOP, StepTo(q, lvl, x), lvl - 1);
    }
  }

  lemma CopyOnSkip(s0: Sys, s: Sys, c: nat, q: Path, lvl: nat, T: int, x: Index)
    requires Copying(s0, s, c, q, lvl, T, x) && !At(s.m, T, x).p
    ensures Copying(s0, s, c, q, lvl, T, x + 1)
  {
    hide Sole, Progress, Leaf, Copied, Vacant, Node, Forest, Exact, KernelHalf;
    ProgressShape(s0, s, q.t, c);
    assert Node(s.m, 5, TOP, q, lvl) == Some(T);
    CopySkip(s0.m, s.m, c, q, lvl, T, x);
  }

  lemma CopyOnLeaf(s0: Sys, s: Sys, s': Sys, c: nat, q: Path, T: int, x: Index)
    requires Copying(s0, s, c, q, 1, T, x) && Fine(s') && Progress(s, s', q.t, c)
    requires SharedOne(s.m, s'.m, q.t, c, SetIdx(q.v, 1, x))
    ensures Copying(s0, s', c, q, 1, T, x + 1)
  {
    hide Inv, Sole, Progress, Leaf, Copied, Vacant, Node, SharedOne;
    ProgressShape(s0, s, q.t, c);
    ProgressTrans(s0, s, s', q.t, c);
    CopyLeaf(s0.m, s.m, s'.m, c, q, x);
  }

  lemma CopyOnBelow(s0: Sys, s: Sys, s': Sys, c: nat, q: Path, lvl: nat, T: int, x: Index)
    requires Copying(s0, s, c, q, lvl, T, x) && lvl > 1 && Fine(s') && Progress(s, s', q.t, c)
    requires Copied(s.m, s'.m, c, StepTo(q, lvl, x), lvl - 1, TABLE_SIZE)
    ensures Copying(s0, s', c, q, lvl, T, x + 1)
  {
    hide Inv, Sole, Progress, Leaf, Copied, Vacant, Node;
    ProgressShape(s0, s, q.t, c);
    ProgressTrans(s0, s, s', q.t, c);
    CopyBelow(s0.m, s.m, s'.m, c, q, lvl, x);
  }

  lemma CopyProgress(s0: Sys, s: Sys, s': Sys, c: nat, q: Path, lvl: nat, T: int, x: nat)
    requires Copying(s0, s, c, q, lvl, T, x) && Progress(s, s', q.t, c)
    ensures Progress(s0, s', q.t, c)
  {
    hide Inv, Sole, Progress, Leaf, Copied, Vacant, Node;
    ProgressTrans(s0, s, s', q.t, c);
  }

  lemma CopyRoots(s0: Sys, s: Sys, c: nat, q: Path, lvl: nat, T: int, x: nat)
    requires Copying(s0, s, c, q, lvl, T, x)
    ensures s.m.roots == s0.m.roots && Fine(s)
  {
  }

  // ------------------------------------------------------------------------
  // sys_fork from end to end

  /** The new address space leaves every mapping alone. */
  lemma NewSole(s: Sys, s': Sys, c: nat)
    requires Fine(s) && NewSpace(s, s', c) && Inv(s')
    ensures Fine(s')
  {
    hide Cnt, Ent, Leaf, Slot, Tables, Maps, Exact, KernelHalf, Forest;
  }

  lemma NewKept(s: Sys, s': Sys, c: nat)
    requires Inv(s) && NewSpace(s, s', c)
    ensures Kept(s, s')
  {
    hide Cnt, Ent, Leaf, Slot, Tables, Maps, Exact, KernelHalf, Forest;
  }

  lemma KeptTrans(s: Sys, s1: Sys, s2: Sys)
    requires Kept(s, s1) && Kept(s1, s2)
    ensures Kept(s, s2)
  {
  }

  /** Every count, the allocated pages and the free pages are what they were. */
  ghost predicate Restored(s: Sys, s': Sys) {
    && s'.m.roots == s.m.roots && |s'.ref| == |s.ref|
    && (forall p: int :: InUse(s', p) <==> InUse(s, p))
    && (forall p: int :: InUse(s, p) ==> s'.ref[p] == s.ref[p])
    && (forall p: nat :: p in s'.free <==> p in s.free)
    && (forall u: nat, p: int, leaf: bool :: u < |s.m.roots| ==> Slot(s'.m, u, p, leaf) == Slot(s.m, u, p, leaf))
  }

  lemma RestoredUse(s: Sys, s': Sys, p: int)
    requires Inv(s) && Inv(s') && s'.c == s.c && |s'.ref| == |s.ref| && Refs(s', p) == Refs(s, p)
    requires (Limbo(s', p) <==> Limbo(s, p))
    ensures InUse(s', p) <==> InUse(s, p)
    ensures InUse(s, p) ==> s'.ref[p] == s.ref[p]
    ensures p >= 0 ==> (p in s'.free <==> p in s.free)
  {
    hide Refs, KernelHalf, Forest, Leaf, Cnt, Ent, Tables;
    if p in s.free { var i :| 0 <= i < |s.free| && s.free[i] == p; }
    if p in s'.free { var i :| 0 <= i < |s'.free| && s'.free[i] == p; }
  }

  /** Equal counts in every slot, the same boot pages and the same pages in limbo: nothing leaked. */
  lemma SameSlotsRestore(s: Sys, s': Sys)
    requires Inv(s) && Inv(s') && s'.c == s.c && s'.m.roots == s.m.roots && s'.m.width == s.m.width
    requires |s'.ref| == |s.ref|
    requires forall u: nat, p: int, leaf: bool :: u < |s.m.roots| ==> Slot(s'.m, u, p, leaf) == Slot(s.m, u, p, leaf)
    requires TempPte(s'.m, s.c) == TempPte(s.m, s.c) && forall p: int :: Limbo(s', p) <==> Limbo(s, p)
    ensures Restored(s, s')
  {
    hide Inv, Cnt, Ent, Slot;
    forall p: int
      ensures InUse(s', p) <==> InUse(s, p)
      ensures InUse(s, p) ==> s'.ref[p] == s.ref[p]
      ensures p >= 0 ==> (p in s'.free <==> p in s.free)
    {
      SlotTail(s.m, s'.m, p, false, 0);
      SlotTail(s.m, s'.m, p, true, 0);
      RestoredUse(s, s', p);
    }
  }

  lemma KeptTemp(s: Sys, s': Sys)
    requires Inv(s) && Kept(s, s')
    ensures TempPte(s'.m, s.c) == TempPte(s.m, s.c)
  {
    hide Cnt, Ent, Leaf, Slot, Tables, Maps, Exact, Forest;
    assert s.c.kpt in s.c.boot;
  }

  lemma ProgressTemp(s: Sys, s': Sys, t: nat, c: nat)
    requires Inv(s) && Progress(s, s', t, c)
    ensures TempPte(s'.m, s.c) == TempPte(s.m, s.c)
  {
    KeptTemp(s, s');
  }
}
