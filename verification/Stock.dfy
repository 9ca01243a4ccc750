/** What is left on the loader's list: the tables it makes come off the front, pages to keep from
    wherever they are. */
module Stock {
  import opened Mmu
  import opened PageTree
  import opened Queue
  import opened Memory
  import opened Radix
  import opened Growth
  import opened Loader

  /** The list without the page `p`. */
  function Minus(f: seq<nat>, p: nat): seq<nat> {
    if |f| == 0 then [] else if f[0] == p then f[1..] else [f[0]] + Minus(f[1..], p)
  }

  lemma {:induction false} MinusAbsent(f: seq<nat>, p: nat)
    requires p !in f
    ensures Minus(f, p) == f
  {
    if |f| > 0 { MinusAbsent(f[1..], p); }
  }

  lemma {:induction false} MinusAt(f: seq<nat>, p: nat, j: nat)
    requires j < |f| && f[j] == p && NoDup(f)
    ensures Minus(f, p) == Without(f, j)
  {
    if j > 0 {
      MinusAt(f[1..], p, j - 1);
      assert f[0] != f[j];
      assert [f[0]] + Without(f[1..], j - 1) == Without(f, j);
    } else {
      assert Without(f, 0) == f[1..];
    }
  }

  /** The list after one page has been mapped at `v` where the pages `P` are mapped already; None if it
      has too few pages for the missing tables. */
  ghost function MapOne(f: seq<nat>, P: iset<Vpage>, v: Vpage, p: nat, hard: bool): Option<seq<nat>> {
    if |f| < New(P, v) then None
    else if hard then Some(Minus(f[New(P, v)..], p))
    else Some(f[New(P, v)..])
  }

  /** The virtual pages with numbers from `n` on. */
  ghost function Range(n: nat, cnt: nat): iset<Vpage> {
    iset i: nat | n <= i < n + cnt :: Nth(i)
  }

  lemma RangeStep(n: nat, cnt: nat)
    ensures Range(n, cnt + 1) == Range(n, cnt) + iset{Nth(n + cnt)}
  {
    hide Nth;
    forall v: Vpage ensures v in Range(n, cnt + 1) <==> v in Range(n, cnt) || v == Nth(n + cnt) {
      if v in Range(n, cnt) {
        var i: nat :| n <= i < n + cnt && Nth(i) == v;
        assert n <= i < n + cnt + 1;
      }
      if v == Nth(n + cnt) { assert n <= n + cnt < n + cnt + 1; }
    }
  }

  /** The list after `cnt` pages have been mapped. */
  ghost function SectionList(f: seq<nat>, P: iset<Vpage>, n: nat, p: nat, cnt: nat, hard: bool): Option<seq<nat>> {
    if cnt == 0 then Some(f)
    else
      match SectionList(f, P, n, p, cnt - 1, hard)
      case None => None
      case Some(g) => MapOne(g, P + Range(n, cnt - 1), Nth(n + cnt - 1), p + cnt - 1, hard)
  }

  lemma {:induction false} SectionNone(f: seq<nat>, P: iset<Vpage>, n: nat, p: nat, cnt: nat, more: nat, hard: bool)
    requires cnt <= more && SectionList(f, P, n, p, cnt, hard).None?
    ensures SectionList(f, P, n, p, more, hard).None?
  {
    hide MapOne, Range, Nth;
    if cnt < more { SectionNone(f, P, n, p, cnt, more - 1, hard); }
  }

  /** The list `f` without its first `k` pages, None if it has fewer. */
  function SpendTables(f: seq<nat>, k: nat): Option<seq<nat>> {
    if |f| < k then None else Some(f[k..])
  }

  /** If no page to keep is on the list, a section takes the tables it needs from the front. */
  lemma {:induction false} SectionSpent(f: seq<nat>, P: iset<Vpage>, n: nat, p: nat, cnt: nat, hard: bool)
    requires hard ==> forall r: nat :: p <= r < p + cnt ==> r !in f
    ensures TablesFor(P + Range(n, cnt)) >= TablesFor(P)
    ensures SectionList(f, P, n, p, cnt, hard) == SpendTables(f, TablesFor(P + Range(n, cnt)) - TablesFor(P))
  {
    hide Range, TablesFor, New, Nth, MapOne;
    TablesMonotone(P, P + Range(n, cnt));
    if cnt == 0 {
      assert P + Range(n, 0) == P by { RangeNone(n); }
    } else {
      SectionSpent(f, P, n, p, cnt - 1, hard);
      var Q, v := P + Range(n, cnt - 1), Nth(n + cnt - 1);
      RangeStep(n, cnt - 1);
      assert Q + iset{v} == P + Range(n, cnt);
      TablesAdd(Q, v);
      TablesMonotone(P, Q);
      var k := TablesFor(Q) - TablesFor(P);
      if |f| >= k { OneSpent(f, k, Q, v, p + cnt - 1, hard); }
    }
  }

  lemma OneSpent(f: seq<nat>, k: nat, Q: iset<Vpage>, v: Vpage, p: nat, hard: bool)
    requires k <= |f| && (hard ==> p !in f)
    ensures MapOne(f[k..], Q, v, p, hard) == SpendTables(f, k + New(Q, v))
  {
    hide New;
    var j := New(Q, v);
    if k + j <= |f| {
      assert f[k..][j..] == f[k + j..];
      if hard { MinusAbsent(f[k + j..], p); }
    }
  }

  lemma RangeNone(n: nat)
    ensures Range(n, 0) == iset{}
  {
  }

  /** After one round the tree is tight again, and the list is what it should be. */
  lemma PlacedStock(x: Load, y: Load, hard: bool, n: nat, T: nat, p: nat, j: nat)
    requires Sound(x, Most(hard)) && Sound(y, Most(hard)) && Extends(x, y, Most(hard)) && n < LIMIT && p < |y.ref|
    requires Tight(x.m, 0) && Node(y.m, 5, TOP, Path(0, Nth(n)), 1) == Some(T)
    requires Sprouted(x.m, y.m, Path(0, Nth(n)), 1) && T < |y.m.phys| && |y.m.phys[T]| == TABLE_SIZE
    requires |y.free| + Missing(x.m, x.m.roots[0], Path(0, Nth(n))) == |x.free|
    requires y.ref[p] == 0 && hard ==> j < |y.free| && y.free[j] == p
    ensures var z := Placed(y, T, Nth(n).i1, p, hard, j);
            && Tight(z.m, 0) && MappedPages(z.m, 0) == MappedPages(x.m, 0) + iset{Nth(n)}
            && MapOne(x.free, MappedPages(x.m, 0), Nth(n), p, hard) == Some(z.free)
  {
    hide Cnt, Ent, Leaf, Once, Node, Slot, Nth, Tight, Sprouted, Tables, New, Missing, MappedPages, Pte;
    var q, z := Path(0, Nth(n)), Placed(y, T, Nth(n).i1, p, hard, j);
    MissingIsNew(x.m, x.m.roots[0], q);
    PlacedPte(y, hard, q, T, p, z.m);
    SproutedOn(x.m, y.m, z.m, q);
    MappedAdd(x.m, z.m, q, Frame(p));
    TightAdd(x.m, z.m, q);
    var k := New(MappedPages(x.m, 0), q.v);
    assert y.free == x.free[k..];
    DescendingNoDup(y.free);
    if hard {
      if y.ref[p] == 0 { MinusAt(y.free, p, j); } else { MinusAbsent(y.free, p); }
    }
  }

  lemma PlacedPte(y: Load, hard: bool, q: Path, T: nat, p: nat, m': Mem)
    requires Sound(y, Most(hard)) && q.t == 0 && Node(y.m, 5, TOP, q, 1) == Some(T)
    requires T < |y.m.phys| && |y.m.phys[T]| == TABLE_SIZE && m' == SetWord(y.m, T, q.v.i1, Frame(p))
    ensures SameShape(y.m, m') && SameNodes(y.m, m', 0)
    ensures forall r: Path :: InTree(y.m, r) ==> Pte(m', r) == if r == q then Frame(p) else Pte(y.m, r)
  {
    hide Cnt, Ent, Leaf, Once, Node, Slot, Pte;
    SetWordWrote(y.m, T, q.v.i1, Frame(p));
    WritePte(y.m, m', q, T, Frame(p));
    forall v: Vpage, l: nat | v.i4 < y.m.width && 1 <= l <= 3
      ensures Node(m', 5, TOP, Path(0, v), l) == Node(y.m, 5, TOP, Path(0, v), l)
    {
      LeafWriteNode(y.m, m', q, T, Frame(p), Path(0, v), l);
    }
  }

  /** Too few pages for the tables. */
  lemma FailedStock(x: Load, hard: bool, n: nat, p: nat)
    requires Sound(x, Most(hard)) && Tight(x.m, 0) && n < LIMIT
    requires |x.free| < Missing(x.m, x.m.roots[0], Path(0, Nth(n)))
    ensures MapOne(x.free, MappedPages(x.m, 0), Nth(n), p, hard) == None
  {
    hide Node, Nth, Tight, New, Missing, MappedPages, Once, Cnt;
    MissingIsNew(x.m, x.m.roots[0], Path(0, Nth(n)));
  }

  /** The tree is tight, the section is mapped, and the list is what it should be. */
  ghost predicate Stocked(x: Load, y: Load, n: nat, p: nat, cnt: nat, hard: bool) {
    && Tight(y.m, 0) && MappedPages(y.m, 0) == MappedPages(x.m, 0) + Range(n, cnt)
    && SectionList(x.free, MappedPages(x.m, 0), n, p, cnt, hard) == Some(y.free)
  }

  lemma StockedStart(x: Load, n: nat, p: nat, hard: bool)
    requires Tight(x.m, 0)
    ensures Stocked(x, x, n, p, 0, hard)
  {
    hide Tight, MappedPages, Nth;
    assert Range(n, 0) == iset{};
    assert MappedPages(x.m, 0) + iset{} == MappedPages(x.m, 0);
  }

  lemma StockedStep(x: Load, y: Load, z: Load, n: nat, p: nat, cnt: nat, hard: bool)
    requires Stocked(x, y, n, p, cnt, hard) && Tight(z.m, 0)
    requires MappedPages(z.m, 0) == MappedPages(y.m, 0) + iset{Nth(n + cnt)}
    requires MapOne(y.free, MappedPages(y.m, 0), Nth(n + cnt), p + cnt, hard) == Some(z.free)
    ensures Stocked(x, z, n, p, cnt + 1, hard)
  {
    hide Tight, MappedPages, Nth, MapOne, Range;
    RangeStep(n, cnt);
    var P := MappedPages(x.m, 0);
    assert P + Range(n, cnt) + iset{Nth(n + cnt)} == P + Range(n, cnt + 1);
  }

  lemma StockedStop(x: Load, y: Load, n: nat, p: nat, cnt: nat, hard: bool, more: nat)
    requires Stocked(x, y, n, p, cnt, hard) && cnt < more
    requires MapOne(y.free, MappedPages(y.m, 0), Nth(n + cnt), p + cnt, hard) == None
    ensures SectionList(x.free, MappedPages(x.m, 0), n, p, more, hard) == None
  {
    hide Tight, MappedPages, Nth, MapOne, Range;
    SectionNone(x.free, MappedPages(x.m, 0), n, p, cnt + 1, more, hard);
  }
}
