/** How far a supply of free pages goes when a new address space is filled. */
module Supply {
  import opened Mmu
  import opened PageTree
  import opened Queue
  import opened Memory
  import opened Sharing
  import opened Radix
  import opened Growth
  import opened Map
  import opened Mappings

  /** PTE_U | PTE_W */
  const USER_PAGE := Word(0, true, true, true, false, 0)

  ghost function PagesOf(vs: seq<Vpage>): iset<Vpage> { iset v: Vpage | v in vs }

  /** The pages left of `F` after a new page has been mapped at each of `vs`, one after the other, in
      an empty address space: each takes a page and the tables missing on the way, and one that is
      mapped a second time gives its old page back. None if they do not suffice. */
  ghost function Left(F: nat, vs: seq<Vpage>): Option<nat> {
    if |vs| == 0 then Some(F)
    else
      var n := |vs| - 1;
      match Left(F, vs[..n])
      case None => None
      case Some(f) =>
        var need := 1 + New(PagesOf(vs[..n]), vs[n]);
        if f < need then None else Some(if vs[n] in vs[..n] then f else f - need)
  }

  /** If they do not suffice: how many are left at the page where they do not. */
  ghost function Stuck(F: nat, vs: seq<Vpage>): nat {
    if |vs| == 0 then 0
    else
      var n := |vs| - 1;
      match Left(F, vs[..n])
      case None => Stuck(F, vs[..n])
      case Some(f) => f
  }

  lemma LeftStep(F: nat, vs: seq<Vpage>, v: Vpage)
    requires Left(F, vs).Some?
    ensures var f, need := Left(F, vs).value, 1 + New(PagesOf(vs), v);
            Left(F, vs + [v]) == if f < need then None else Some(if v in vs then f else f - need)
    ensures Stuck(F, vs + [v]) == Left(F, vs).value
  {
    hide New, PagesOf;
    assert (vs + [v])[..|vs|] == vs;
  }

  /** Once they do not suffice, more pages make no difference. */
  lemma {:induction false} LeftNone(F: nat, vs: seq<Vpage>, ws: seq<Vpage>)
    requires Left(F, vs).None?
    ensures Left(F, vs + ws).None? && Stuck(F, vs + ws) == Stuck(F, vs)
  {
    hide New, PagesOf;
    if |ws| == 0 {
      assert vs + ws == vs;
    } else {
      var n := |ws| - 1;
      LeftNone(F, vs, ws[..n]);
      assert (vs + ws)[..|vs| + n] == vs + ws[..n];
    }
  }

  /** For pages mapped once each: a page for each of them, and the tables they need together. */
  lemma {:induction false} LeftClosed(F: nat, vs: seq<Vpage>)
    requires forall i, j :: 0 <= i < j < |vs| ==> vs[i] != vs[j]
    ensures var need := |vs| + TablesFor(PagesOf(vs)); Left(F, vs) == if F < need then None else Some(F - need)
  {
    hide New, TablesFor;
    if |vs| == 0 {
      assert PagesOf(vs) == iset{};
      NoTables();
    } else {
      var n := |vs| - 1;
      LeftClosed(F, vs[..n]);
      TablesAdd(PagesOf(vs[..n]), vs[n]);
      assert PagesOf(vs) == PagesOf(vs[..n]) + iset{vs[n]};
    }
  }

  /** The pages `vs` have been mapped in slot `t`, all writable, out of `F` free ones. */
  ghost predicate Loading(s: Sys, t: nat, F: nat, vs: seq<Vpage>) {
    && Tight(s.m, t) && MappedPages(s.m, t) == PagesOf(vs) && Left(F, vs) == Some(|s.free|)
    && forall v: Vpage :: v.i4 < s.m.width && Pte(s.m, Path(t, v)).p ==> Pte(s.m, Path(t, v)).w
  }

  lemma LoadingNew(s: Sys, s1: Sys, t: nat)
    requires NewSpace(s, s1, t) && Inv(s1)
    ensures Loading(s1, t, |s1.free|, []) && |s1.free| == |s.free| - 1
  {
    hide Pte, Slot, Inv, Tight;
    NewTight(s, s1, t);
    NewWidth(s, s1, t);
    assert PagesOf([]) == iset{};
  }

  /** The first page takes four. */
  lemma LoadedFirst(s: Sys, t: nat, F: nat, v: Vpage)
    requires Loading(s, t, F, [] + [v])
    ensures F == |s.free| + 4
  {
    hide Pte, Tight, Node, MappedPages;
    LeftStep(F, [], v);
    assert PagesOf([]) == iset{};
    assert NewTo(iset{}, v, 0) == 0;
    assert NewTo(iset{}, v, 1) == 1;
    assert NewTo(iset{}, v, 2) == 2;
  }

  lemma NewWidth(s: Sys, s1: Sys, t: nat)
    requires NewSpace(s, s1, t)
    ensures s1.m.width == s.m.width
  {
  }

  /** The old page comes back exactly if the page was mapped before. */
  lemma DisplacedOnce(s: Sys, r: int, q: Path)
    requires Fine(s) && TempPte(s.m, s.c) == ZERO && Root(s, r, q) && InTree(s.m, q)
    requires |s.free| > 0 && s.free[0] < |s.ref| && (Pte(s.m, q).p ==> Pte(s.m, q).w)
    ensures Displaced(Popped(s), Leaf(s.m, 4, r, q), s.free[0]) == if Pte(s.m, q).p then 1 else 0
  {
    hide Inv, Sole, Leaf, Pte, MappingsOf;
    RootLeaf(s.m, r, q);
    if Pte(s.m, q).p {
      WritableIsSole(s, q);
      assert s.free[0] in s.free;
    }
  }

  /** One more new page. */
  lemma LoadingStep(s: Sys, s2: Sys, r: int, q: Path, F: nat, vs: seq<Vpage>, ok: bool)
    requires Fine(s) && TempPte(s.m, s.c) == ZERO && Root(s, r, q) && InTree(s.m, q) && Loading(s, q.t, F, vs)
    requires |s.free| > 0 && s.free[0] < |s.ref| && (ok <==> |s.free| - 1 >= Missing(s.m, r, q))
    requires ok ==> Retargeted(Popped(s), s2, q, USER_PAGE.(ppn := s.free[0])) && Sprouted(s.m, s2.m, q, 1)
    requires ok ==>
               |s2.free| == |s.free| - 1 - Missing(s.m, r, q) + Displaced(Popped(s), Leaf(s.m, 4, r, q), s.free[0])
    ensures ok <==> Left(F, vs + [q.v]).Some?
    ensures ok ==> Loading(s2, q.t, F, vs + [q.v])
    ensures Stuck(F, vs + [q.v]) == |s.free|
  {
    hide Inv, Sole, Leaf, Pte, Node, Tight, Missing, New, Displaced, Sprouted, Slot, Maps, Tables, PagesOf, MappedPages;
    hide Left, Stuck, Retargeted;
    MissingIsNew(s.m, r, q);
    LeftStep(F, vs, q.v);
    LoadedPage(s, q, F, vs);
    if q.v in vs { NewNone(PagesOf(vs), q.v); }
    if ok {
      DisplacedOnce(s, r, q);
      LoadedNext(s, s2, q, F, vs, USER_PAGE.(ppn := s.free[0]));
    }
  }

  lemma LoadedPage(s: Sys, q: Path, F: nat, vs: seq<Vpage>)
    requires Loading(s, q.t, F, vs) && InTree(s.m, q)
    ensures q.v in vs <==> Pte(s.m, q).p
    ensures q.v in vs <==> q.v in PagesOf(vs)
  {
    hide Pte, Tight, Left;
    assert q.v in PagesOf(vs) <==> q.v in MappedPages(s.m, q.t);
    assert Path(q.t, q.v) == q;
  }

  lemma LoadedNext(s: Sys, s2: Sys, q: Path, F: nat, vs: seq<Vpage>, e: Word)
    requires Loading(s, q.t, F, vs) && InTree(s.m, q) && |s.free| > 0 && s.free[0] < |s.ref| && e.p && e.w
    requires Retargeted(Popped(s), s2, q, e) && Sprouted(s.m, s2.m, q, 1) && Left(F, vs + [q.v]) == Some(|s2.free|)
    ensures Loading(s2, q.t, F, vs + [q.v])
  {
    hide Pte, Node, Tight, Sprouted, Slot, Maps, Tables, Left, MappedPages;
    MappedAdd(s.m, s2.m, q, e);
    TightAdd(s.m, s2.m, q);
    assert PagesOf(vs + [q.v]) == PagesOf(vs) + iset{q.v};
    forall v: Vpage | v.i4 < s.m.width
      ensures Pte(s2.m, Path(q.t, v)) == if v == q.v then e else Pte(s.m, Path(q.t, v))
    {
      assert InTree(s.m, Path(q.t, v));
    }
  }

  /** Without any page there is nothing to begin with. */
  lemma LoadingEmpty(s: Sys, t: nat, F: nat, vs: seq<Vpage>, v: Vpage)
    requires Loading(s, t, F, vs) && |s.free| == 0
    ensures Left(F, vs + [v]).None? && Stuck(F, vs + [v]) == 0
  {
    hide Pte, Tight, MappedPages, PagesOf;
    LeftStep(F, vs, v);
  }

  // ------------------------------------------------------------------------
  // Counting a list

  function Members(f: seq<nat>): set<nat> { set x | x in f }

  lemma {:induction false} MembersSize(f: seq<nat>)
    requires NoDup(f)
    ensures |Members(f)| == |f|
  {
    if |f| > 0 {
      var n := |f| - 1;
      MembersSize(f[..n]);
      assert Members(f) == Members(f[..n]) + {f[n]};
      assert f[n] !in Members(f[..n]);
    }
  }

  /** Two lists that differ in one member. */
  lemma OneLess(f: seq<nat>, g: seq<nat>, x: int)
    requires NoDup(f) && NoDup(g) && (x >= 0 ==> x in f) && forall p: nat :: p in g <==> p in f && p != x
    ensures |g| == |f| - if x >= 0 then 1 else 0
  {
    MembersSize(f);
    MembersSize(g);
    if x >= 0 {
      assert Members(f) == Members(g) + {x};
    } else {
      assert Members(f) == Members(g);
    }
  }
}
