/** How many tables a set of virtual pages needs below a PML4. */
module Radix {
  import opened Mmu

  /** The walks to `v` and to `w` meet in the same table of level `l`. */
  predicate Under(v: Vpage, w: Vpage, l: nat) {
    (l < 4 ==> w.i4 == v.i4) && (l < 3 ==> w.i3 == v.i3) && (l < 2 ==> w.i2 == v.i2) && (l < 1 ==> w.i1 == v.i1)
  }

  /** The table of level `l` on the way to `v` lies on the way to a page of `P`. */
  ghost predicate Used(P: iset<Vpage>, v: Vpage, l: nat) {
    exists w :: w in P && Under(v, w, l)
  }

  /** How many tables of the levels `1..l` the page `v` needs besides those that `P` needs. */
  ghost function NewTo(P: iset<Vpage>, v: Vpage, l: nat): nat {
    if l == 0 then 0 else NewTo(P, v, l - 1) + if Used(P, v, l) then 0 else 1
  }

  ghost function New(P: iset<Vpage>, v: Vpage): nat { NewTo(P, v, 3) }

  /** The tables that `P` needs of level `l`, and of all levels below, under the entries `lo..` of the
      table of the next higher level on the way to `v`. */
  ghost function CountFrom(P: iset<Vpage>, v: Vpage, l: nat, lo: nat): nat
    decreases l, TABLE_SIZE - lo
  {
    if l == 0 || lo >= TABLE_SIZE then 0
    else
      var w := SetIdx(v, l + 1, lo);
      (if Used(P, w, l) then 1 + CountFrom(P, w, l - 1, 0) else 0) + CountFrom(P, v, l, lo + 1)
  }

  /** The number of tables, the PML4 apart, on the way to some page of `P`. */
  ghost function TablesFor(P: iset<Vpage>): nat { CountFrom(P, Vpage(0, 0, 0, 0), 3, 0) }

  lemma {:induction false} CountNone(P: iset<Vpage>, v: Vpage, l: nat, lo: nat)
    requires l <= 3 && !Used(P, v, l + 1)
    ensures CountFrom(P, v, l, lo) == 0
    decreases l, TABLE_SIZE - lo
  {
    if l > 0 && lo < TABLE_SIZE {
      var w := SetIdx(v, l + 1, lo);
      assert forall u :: Under(w, u, l) ==> Under(v, u, l + 1);
      CountNone(P, v, l, lo + 1);
    }
  }

  lemma UsedSame(P: iset<Vpage>, v: Vpage, w: Vpage, l: nat)
    requires Under(v, w, l)
    ensures Used(P, v, l) <==> Used(P, w, l)
  {
    assert forall u :: Under(v, u, l) <==> Under(w, u, l);
  }

  /** One page more needs as many tables more as are missing on the way to it. */
  lemma {:induction false} CountAdd(P: iset<Vpage>, v: Vpage, l: nat, lo: nat, w: Vpage)
    requires l <= 3
    ensures CountFrom(P + iset{w}, v, l, lo) ==
            CountFrom(P, v, l, lo) + if Under(v, w, l + 1) && IndexAt(w, l + 1) >= lo then NewTo(P, w, l) else 0
    decreases l, TABLE_SIZE - lo
  {
    if l > 0 && lo < TABLE_SIZE {
      var Q, u := P + iset{w}, SetIdx(v, l + 1, lo);
      CountAdd(P, v, l, lo + 1, w);
      CountAdd(P, u, l - 1, 0, w);
      assert Used(Q, u, l) <==> Used(P, u, l) || Under(u, w, l) by { UsedAdd(P, w, u, l); }
      assert Under(u, w, l) <==> Under(v, w, l + 1) && IndexAt(w, l + 1) == lo;
      if Under(u, w, l) { UsedSame(P, u, w, l); }
      if !Used(P, u, l) { CountNone(P, u, l - 1, 0); }
    }
  }

  lemma UsedAdd(P: iset<Vpage>, w: Vpage, u: Vpage, l: nat)
    ensures Used(P + iset{w}, u, l) <==> Used(P, u, l) || Under(u, w, l)
  {
    if Used(P, u, l) {
      var x :| x in P && Under(u, x, l);
      assert x in P + iset{w};
    }
    if Under(u, w, l) { assert w in P + iset{w}; }
  }

  lemma TablesAdd(P: iset<Vpage>, w: Vpage)
    ensures TablesFor(P + iset{w}) == TablesFor(P) + New(P, w)
  {
    CountAdd(P, Vpage(0, 0, 0, 0), 3, 0, w);
  }

  lemma {:induction false} CountMonotone(P: iset<Vpage>, Q: iset<Vpage>, v: Vpage, l: nat, lo: nat)
    requires P <= Q
    ensures CountFrom(P, v, l, lo) <= CountFrom(Q, v, l, lo)
    decreases l, TABLE_SIZE - lo
  {
    if l > 0 && lo < TABLE_SIZE {
      hide Used, SetIdx;
      var w := SetIdx(v, l + 1, lo);
      UsedMonotone(P, Q, w, l);
      CountMonotone(P, Q, w, l - 1, 0);
      CountMonotone(P, Q, v, l, lo + 1);
    }
  }

  lemma UsedMonotone(P: iset<Vpage>, Q: iset<Vpage>, v: Vpage, l: nat)
    requires P <= Q
    ensures Used(P, v, l) ==> Used(Q, v, l)
  {
    if Used(P, v, l) {
      var u :| u in P && Under(v, u, l);
      assert u in Q;
    }
  }

  lemma TablesMonotone(P: iset<Vpage>, Q: iset<Vpage>)
    requires P <= Q
    ensures TablesFor(P) <= TablesFor(Q)
  {
    CountMonotone(P, Q, Vpage(0, 0, 0, 0), 3, 0);
  }

  lemma {:induction false} TablesNone(v: Vpage, l: nat, lo: nat)
    requires l <= 3
    ensures CountFrom(iset{}, v, l, lo) == 0
  {
    CountNone(iset{}, v, l, lo);
  }

  /** A page already there needs nothing. */
  lemma NewNone(P: iset<Vpage>, v: Vpage)
    requires v in P
    ensures New(P, v) == 0
  {
    assert Under(v, v, 1) && Under(v, v, 2) && Under(v, v, 3);
    assert NewTo(P, v, 0) == 0;
    assert NewTo(P, v, 1) == 0;
    assert NewTo(P, v, 2) == 0;
  }
}
