/** The kernel takes over the page array from the loader: kernel_init_mmap of src/kernel/kernel.c.

    The loader, a 32-bit program, left records of 12 bytes: a count and two 32-bit links. The kernel
    widens them in place to 24 bytes: a count, padding and two 64-bit links, and rebuilds the free
    list. Memory is an array of 32-bit words. */
module Boot {
  import opened Queue

  const WORD: nat := 0x1_0000_0000

  function Get64(ws: seq<nat>, at: nat): nat
    requires at + 1 < |ws|
  {
    ws[at] + WORD * ws[at + 1]
  }

  function Put64(ws: seq<nat>, at: nat, x: nat): seq<nat>
    requires at + 1 < |ws|
  {
    ws[at := x % WORD][at + 1 := x / WORD]
  }

  /** A record as the loader wrote it; the links count as one 64-bit number. */
  datatype Narrow = Narrow(ref: nat, links: nat)

  function NarrowAt(ws: seq<nat>, j: nat): Narrow
    requires 3 * j + 2 < |ws|
  {
    Narrow(ws[3 * j], Get64(ws, 3 * j + 1))
  }

  /** A record as the kernel uses it, with pointers as addresses. */
  datatype Wide = Wide(ref: nat, next: nat, prev: nat)

  function WideAt(ws: seq<nat>, j: nat): Wide
    requires 6 * j + 5 < |ws|
  {
    Wide(ws[6 * j], Get64(ws, 6 * j + 2), Get64(ws, 6 * j + 4))
  }

  function ZeroRecord(ws: seq<nat>, i: nat): seq<nat>
    requires 6 * i + 5 < |ws|
  {
    ws[6 * i := 0][6 * i + 1 := 0][6 * i + 2 := 0][6 * i + 3 := 0][6 * i + 4 := 0][6 * i + 5 := 0]
  }

  /** Writing a field of wide record `i` leaves all other wide records, and all narrow records
      before `i`, as they were. */
  lemma RecordsApart(ws: seq<nat>, ws': seq<nat>, i: nat, j: nat)
    requires |ws'| == |ws| && 6 * i + 5 < |ws| && 6 * j + 5 < |ws|
    requires forall a :: 0 <= a < |ws| && !(6 * i <= a < 6 * i + 6) ==> ws'[a] == ws[a]
    ensures j != i ==> WideAt(ws', j) == WideAt(ws, j)
    ensures j < i ==> NarrowAt(ws', j) == NarrowAt(ws, j)
  {
  }

  lemma PutGet(ws: seq<nat>, at: nat, x: nat)
    requires at + 1 < |ws|
    ensures Get64(Put64(ws, at, x), at) == x && |Put64(ws, at, x)| == |ws|
    ensures forall a :: 0 <= a < |ws| && a != at && a != at + 1 ==> Put64(ws, at, x)[a] == ws[a]
    ensures Put64(ws, at, x)[at] < 0x1_0000_0000
    ensures x < 0x1_0000_0000_0000_0000 ==> Put64(ws, at, x)[at + 1] < 0x1_0000_0000
  {
  }

  method Store64(w: array<nat>, at: nat, x: nat)
    requires at + 1 < w.Length
    modifies w
    ensures w[..] == Put64(old(w[..]), at, x)
  {
    w[at], w[at + 1] := x % WORD, x / WORD;
  }

  method Clear(w: array<nat>, i: nat)
    requires 6 * i + 5 < w.Length
    modifies w
    ensures w[..] == ZeroRecord(old(w[..]), i)
  {
    w[6 * i], w[6 * i + 1], w[6 * i + 2], w[6 * i + 3], w[6 * i + 4], w[6 * i + 5] := 0, 0, 0, 0, 0, 0;
  }

  // ------------------------------------------------------------------------
  // The list in terms of addresses

  /** `base` is the address of the page array and `head` that of the list head. */
  datatype Place = Place(base: nat, head: nat)

  function ElemAddr(l: Place, x: int): nat
    requires x >= -1
  {
    if x == NULL then 0 else l.base + 24 * x
  }

  /** The address of the pointer that leads to an element: le_next lies 8 bytes into a record. */
  function BackAddr(l: Place, b: Back): nat {
    match b
    case Nil => 0
    case Head => l.head
    case NextOf(i) => l.base + 24 * i + 8
  }

  /** The numbers of the records from `i` on with non-zero links, in ascending order. */
  function FreeFrom(rs: seq<Narrow>, i: nat): (f: seq<nat>)
    requires i <= |rs|
    ensures forall k :: 0 <= k < |f| ==> i <= f[k] < |rs| && rs[f[k]].links != 0
    ensures forall k, l :: 0 <= k < l < |f| ==> f[k] < f[l]
    ensures forall j: nat :: i <= j < |rs| && rs[j].links != 0 ==> j in f
    decreases |rs| - i
  {
    if i == |rs| then [] else (if rs[i].links != 0 then [i] else []) + FreeFrom(rs, i + 1)
  }

  /** The wide records from `i` on hold the counts of `rs` and spell out the list with the given
      pointers. */
  ghost predicate Shows(ws: seq<nat>, l: Place, rs: seq<Narrow>, i: nat, next: seq<int>, prev: seq<Back>)
  {
    && |next| == |prev| == |rs| && 6 * |rs| <= |ws|
    && (forall j: nat :: i <= j < |rs| ==>
          next[j] >= -1 && WideAt(ws, j) == Wide(rs[j].ref, ElemAddr(l, next[j]), BackAddr(l, prev[j])))
  }

  /** The narrow records before `i` have not been touched. */
  ghost predicate Unread(ws: seq<nat>, rs: seq<Narrow>, i: nat) {
    6 * |rs| <= |ws| && i <= |rs| && forall j: nat :: j < i ==> NarrowAt(ws, j) == rs[j]
  }

  /** What the loader guarantees: a page off the free list is in use once, one on it at most once. */
  ghost predicate Handoff(rs: seq<Narrow>) {
    forall j: nat :: j < |rs| ==> rs[j].ref < WORD && (if rs[j].links == 0 then rs[j].ref == 1 else rs[j].ref <= 1)
  }

  /** How many records are off the free list. */
  function Used(rs: seq<Narrow>, i: nat): nat
    requires i <= |rs|
    decreases |rs| - i
  {
    if i == |rs| then 0 else (if rs[i].links == 0 then 1 else 0) + Used(rs, i + 1)
  }

  // ------------------------------------------------------------------------
  // One round of the loop

  /** The record `i` widened, with its count and no links. */
  function Widened(ws: seq<nat>, i: nat, ref: nat): (r: seq<nat>)
    requires 6 * i + 5 < |ws|
    ensures |r| == |ws| && forall a :: 0 <= a < |ws| && !(6 * i <= a < 6 * i + 6) ==> r[a] == ws[a]
    ensures WideAt(r, i) == Wide(ref, 0, 0)
  {
    ZeroRecord(ws, i)[6 * i := ref]
  }

  lemma WidenedShows(ws: seq<nat>, l: Place, rs: seq<Narrow>, i: nat, next: seq<int>, prev: seq<Back>)
    requires i < |rs| && Shows(ws, l, rs, i + 1, next, prev) && Unread(ws, rs, i + 1)
    ensures 6 * i + 5 < |ws| && NarrowAt(ws, i) == rs[i]
    ensures Shows(Widened(ws, i, rs[i].ref), l, rs, i, next[i := NULL], prev[i := Nil])
    ensures Unread(Widened(ws, i, rs[i].ref), rs, i)
  {
    hide WideAt, NarrowAt, Widened;
    var ws' := Widened(ws, i, rs[i].ref);
    forall j: nat | j < |rs|
      ensures (j > i ==> WideAt(ws', j) == WideAt(ws, j)) && (j < i ==> NarrowAt(ws', j) == NarrowAt(ws, j))
    {
      RecordsApart(ws, ws', i, j);
    }
  }

  /** The words after LIST_INSERT_HEAD of record `i` in front of record `first`. */
  function Inserted(ws: seq<nat>, l: Place, first: int, i: nat): seq<nat>
    requires 6 * i + 5 < |ws| && first >= -1 && 6 * first + 5 < |ws|
  {
    var a := Put64(ws, 6 * i + 2, ElemAddr(l, first));
    var b := if first != NULL then Put64(a, 6 * first + 4, BackAddr(l, NextOf(i))) else a;
    Put64(b, 6 * i + 4, BackAddr(l, Head))
  }

  lemma LinkedWide(ws: seq<nat>, l: Place, first: int, i: nat, j: nat)
    requires 6 * i + 5 < |ws| && first >= -1 && 6 * first + 5 < |ws| && first != i && 6 * j + 5 < |ws|
    ensures |Inserted(ws, l, first, i)| == |ws|
    ensures WideAt(Inserted(ws, l, first, i), j) ==
            if j == i then Wide(ws[6 * i], ElemAddr(l, first), BackAddr(l, Head))
            else if j == first then WideAt(ws, j).(prev := BackAddr(l, NextOf(i))) else WideAt(ws, j)
    ensures j < i && (first != NULL ==> i < first) ==> NarrowAt(Inserted(ws, l, first, i), j) == NarrowAt(ws, j)
  {
    hide ElemAddr, BackAddr, Put64, Get64;
    var a := Put64(ws, 6 * i + 2, ElemAddr(l, first));
    PutGet(ws, 6 * i + 2, ElemAddr(l, first));
    var b := if first != NULL then Put64(a, 6 * first + 4, BackAddr(l, NextOf(i))) else a;
    if first != NULL { PutGet(a, 6 * first + 4, BackAddr(l, NextOf(i))); }
    PutGet(b, 6 * i + 4, BackAddr(l, Head));
    var r := Inserted(ws, l, first, i);
    SameGet(ws, r, 6 * j + 2);
    SameGet(ws, r, 6 * j + 4);
    SameGet(a, r, 6 * i + 2);
    if first != NULL { SameGet(b, r, 6 * first + 4); }
    if j < i { SameGet(ws, r, 3 * j + 1); }
  }

  lemma SameGet(ws: seq<nat>, ws': seq<nat>, at: nat)
    requires |ws| == |ws'| && at + 1 < |ws|
    ensures ws[at] == ws'[at] && ws[at + 1] == ws'[at + 1] ==> Get64(ws', at) == Get64(ws, at)
  {
  }

  function PrevAfter(prev: seq<Back>, first: int, i: nat): seq<Back>
    requires i < |prev| && -1 <= first < |prev|
  {
    (if first != NULL then prev[first := NextOf(i)] else prev)[i := Head]
  }

  lemma InsertedShows(ws: seq<nat>, l: Place, rs: seq<Narrow>, i: nat, next: seq<int>, prev: seq<Back>, first: int)
    requires i < |rs| && Shows(ws, l, rs, i, next, prev) && Unread(ws, rs, i) && (first == NULL || i < first < |rs|)
    ensures 6 * i + 5 < |ws| && 6 * first + 5 < |ws|
    ensures Shows(Inserted(ws, l, first, i), l, rs, i, next[i := first], PrevAfter(prev, first, i))
    ensures Unread(Inserted(ws, l, first, i), rs, i)
  {
    hide ElemAddr, BackAddr, Inserted, NarrowAt, WideAt, Get64;
    var ws', next', prev' := Inserted(ws, l, first, i), next[i := first], PrevAfter(prev, first, i);
    LinkedWide(ws, l, first, i, i);
    forall j: nat | i <= j < |rs|
      ensures next'[j] >= -1 && WideAt(ws', j) == Wide(rs[j].ref, ElemAddr(l, next'[j]), BackAddr(l, prev'[j]))
    {
      LinkedWide(ws, l, first, i, j);
      RefWord(ws, i);
      assert WideAt(ws, j) == Wide(rs[j].ref, ElemAddr(l, next[j]), BackAddr(l, prev[j]));
      assert WideAt(ws, i) == Wide(rs[i].ref, ElemAddr(l, next[i]), BackAddr(l, prev[i]));
    }
    forall j: nat | j < i ensures NarrowAt(ws', j) == rs[j] {
      LinkedWide(ws, l, first, i, j);
      assert NarrowAt(ws, j) == rs[j];
    }
  }

  lemma RefWord(ws: seq<nat>, i: nat)
    requires 6 * i + 5 < |ws|
    ensures WideAt(ws, i).ref == ws[6 * i]
  {
  }

  /** Links of records off the list do not matter. */
  lemma LinkedElsewhere(next: seq<int>, prev: seq<Back>, first: int, f: seq<nat>, i: nat)
    requires Linked(next, prev, first, f) && i < |next| && i !in f
    ensures Linked(next[i := NULL], prev[i := Nil], first, f)
  {
  }

  lemma LinkedFront(next: seq<int>, prev: seq<Back>, first: int, f: seq<nat>, i: nat)
    requires Linked(next, prev, first, f) && i < |next| && i !in f && first >= -1
    ensures first < |next| && Linked(next[i := first], PrevAfter(prev, first, i), i, [i] + f)
  {
    if |f| > 0 { assert f[0] in f; }
    Prepend(next, prev, first, f, i, next[i := first], PrevAfter(prev, first, i));
  }

  /** LIST_INSERT_HEAD on the words of the page array. */
  method InsertHead(w: array<nat>, l: Place, i: nat, head: nat, ghost first: int)
    requires first >= -1 && head == ElemAddr(l, first) && l.base > 0 && 6 * i + 5 < w.Length && 6 * first + 5 < w.Length
    modifies w
    ensures w[..] == Inserted(old(w[..]), l, first, i)
  {
    hide Put64;
    Store64(w, 6 * i + 2, head);
    if head != 0 {
      assert head - l.base == 24 * first && (head - l.base) / 24 == first;
      Store64(w, 6 * ((head - l.base) / 24) + 4, BackAddr(l, NextOf(i)));
    }
    Store64(w, 6 * i + 4, l.head);
  }

  /** The state in the middle of the loop, with the records from `i` on done. */
  ghost predicate Done(ws: seq<nat>, l: Place, rs: seq<Narrow>, i: nat, next: seq<int>, prev: seq<Back>, first: int) {
    && i <= |rs| && Shows(ws, l, rs, i, next, prev) && Unread(ws, rs, i) && Linked(next, prev, first, FreeFrom(rs, i))
    && Bare(rs, i, next, prev)
  }

  /** Records off the list have zero links. */
  ghost predicate Bare(rs: seq<Narrow>, i: nat, next: seq<int>, prev: seq<Back>) {
    && |next| == |prev| == |rs|
    && forall j: nat :: i <= j < |rs| && rs[j].links == 0 ==> next[j] == NULL && prev[j] == Nil
  }

  lemma BareUsed(rs: seq<Narrow>, i: nat, next: seq<int>, prev: seq<Back>)
    requires i < |rs| && Bare(rs, i + 1, next, prev) && rs[i].links == 0
    ensures Bare(rs, i, next[i := NULL], prev[i := Nil])
  {
  }

  lemma BareFree(rs: seq<Narrow>, i: nat, next: seq<int>, prev: seq<Back>, first: int)
    requires i < |rs| && Bare(rs, i + 1, next, prev) && rs[i].links != 0 && -1 <= first < |rs|
    requires (first != NULL ==> rs[first].links != 0)
    ensures Bare(rs, i, next[i := first], PrevAfter(prev[i := Nil], first, i))
  {
  }

  lemma FreeStep(rs: seq<Narrow>, i: nat)
    requires i < |rs|
    ensures FreeFrom(rs, i) == if rs[i].links != 0 then [i] + FreeFrom(rs, i + 1) else FreeFrom(rs, i + 1)
    ensures i !in FreeFrom(rs, i + 1)
  {
  }

  /** A record off the list. */
  lemma DoneUsed(ws: seq<nat>, l: Place, rs: seq<Narrow>, i: nat, next: seq<int>, prev: seq<Back>, first: int)
    requires i < |rs| && Done(ws, l, rs, i + 1, next, prev, first) && rs[i].links == 0
    ensures 6 * i + 5 < |ws| && |next| == |prev| == |rs|
    ensures Done(Widened(ws, i, rs[i].ref), l, rs, i, next[i := NULL], prev[i := Nil], first)
  {
    hide Shows, Unread, Widened, Linked, FreeFrom, Bare;
    DoneShape(ws, l, rs, i + 1, next, prev, first);
    WidenedShows(ws, l, rs, i, next, prev);
    FreeStep(rs, i);
    LinkedElsewhere(next, prev, first, FreeFrom(rs, i + 1), i);
    BareUsed(rs, i, next, prev);
  }

  /** A record on the list. */
  lemma DoneFree(ws: seq<nat>, l: Place, rs: seq<Narrow>, i: nat, next: seq<int>, prev: seq<Back>, first: int)
    requires i < |rs| && Done(ws, l, rs, i + 1, next, prev, first) && rs[i].links != 0
    ensures |next| == |prev| == |rs| && 6 * i + 5 < |ws| && -1 <= first < |rs| && 6 * first + 5 < |ws|
    ensures Done(Inserted(Widened(ws, i, rs[i].ref), l, first, i), l, rs, i, next[i := first],
              PrevAfter(prev[i := Nil], first, i), i)
  {
    hide Shows, Unread, Widened, Linked, Inserted, FreeFrom, Bare, PrevAfter;
    DoneShape(ws, l, rs, i + 1, next, prev, first);
    WordsFree(ws, l, rs, i, next, prev, first);
    LinksFree(rs, i, next, prev, first);
  }

  lemma WordsFree(ws: seq<nat>, l: Place, rs: seq<Narrow>, i: nat, next: seq<int>, prev: seq<Back>, first: int)
    requires i < |rs| && Shows(ws, l, rs, i + 1, next, prev) && Unread(ws, rs, i + 1)
    requires (first == NULL || i < first < |rs|)
    ensures |next| == |prev| == |rs| && 6 * i + 5 < |ws| && 6 * first + 5 < |ws|
    ensures Shows(Inserted(Widened(ws, i, rs[i].ref), l, first, i), l, rs, i, next[i := first],
              PrevAfter(prev[i := Nil], first, i))
    ensures Unread(Inserted(Widened(ws, i, rs[i].ref), l, first, i), rs, i)
  {
    hide Unread, Widened, Inserted, PrevAfter, WideAt, NarrowAt;
    WidenedShows(ws, l, rs, i, next, prev);
    InsertedShows(Widened(ws, i, rs[i].ref), l, rs, i, next[i := NULL], prev[i := Nil], first);
    assert next[i := NULL][i := first] == next[i := first];
  }

  lemma LinksFree(rs: seq<Narrow>, i: nat, next: seq<int>, prev: seq<Back>, first: int)
    requires i < |rs| && Linked(next, prev, first, FreeFrom(rs, i + 1)) && Bare(rs, i + 1, next, prev)
    requires rs[i].links != 0
    requires |next| == |prev| == |rs| && -1 <= first < |rs| && (first != NULL ==> rs[first].links != 0)
    ensures Linked(next[i := first], PrevAfter(prev[i := Nil], first, i), i, FreeFrom(rs, i))
    ensures Bare(rs, i, next[i := first], PrevAfter(prev[i := Nil], first, i))
  {
    hide Linked, FreeFrom, Bare, PrevAfter;
    FreeStep(rs, i);
    LinkedElsewhere(next, prev, first, FreeFrom(rs, i + 1), i);
    LinkedFront(next[i := NULL], prev[i := Nil], first, FreeFrom(rs, i + 1), i);
    assert next[i := NULL][i := first] == next[i := first];
    BareFree(rs, i, next, prev, first);
  }

  lemma DoneShape(ws: seq<nat>, l: Place, rs: seq<Narrow>, i: nat, next: seq<int>, prev: seq<Back>, first: int)
    requires Done(ws, l, rs, i, next, prev, first)
    ensures |next| == |prev| == |rs| && 6 * |rs| <= |ws|
    ensures (first == NULL || (i <= first < |rs| && rs[first].links != 0))
  {
  }

  lemma ReadNarrow(ws: seq<nat>, l: Place, rs: seq<Narrow>, i: nat, next: seq<int>, prev: seq<Back>, first: int)
    requires i < |rs| && Done(ws, l, rs, i + 1, next, prev, first)
    ensures 6 * |rs| <= |ws| && rs[i] == Narrow(ws[3 * i], ws[3 * i + 1] + WORD * ws[3 * i + 2])
  {
    assert NarrowAt(ws, i) == rs[i];
  }

  /** The pointers that the list consists of, as LIST_REMOVE and LIST_INSERT_HEAD follow them: le_next
      has the address of the next record, and le_prev that of the pointer which leads to the record
      itself, the list head or the le_next of the one before. */
  lemma LinksLead(ws: seq<nat>, l: Place, rs: seq<Narrow>, next: seq<int>, prev: seq<Back>, first: int, k: nat)
    requires Done(ws, l, rs, 0, next, prev, first) && k < |FreeFrom(rs, 0)|
    ensures 6 * |rs| <= |ws| && 6 * FreeFrom(rs, 0)[k] + 5 < |ws|
    ensures var f := FreeFrom(rs, 0);
            WideAt(ws, f[k]).next == if k + 1 < |f| then l.base + 24 * f[k + 1] else 0
    ensures k == 0 ==> WideAt(ws, FreeFrom(rs, 0)[0]).prev == l.head && first == FreeFrom(rs, 0)[0]
    ensures var f := FreeFrom(rs, 0);
            var at := WideAt(ws, f[k]).prev - l.base;
            k > 0 ==> 0 <= at && at % 4 == 0 && at / 4 + 1 < |ws| && Get64(ws, at / 4) == l.base + 24 * f[k]
  {
    hide FreeFrom, Done, WideAt, Get64, After, Before;
    var f := FreeFrom(rs, 0);
    RecordAt(ws, l, rs, next, prev, first, k);
    Neighbour(f, k);
    if k > 0 {
      RecordAt(ws, l, rs, next, prev, first, k - 1);
      Neighbour(f, k - 1);
      NextField(ws, l, f[k - 1]);
    }
  }

  lemma RecordAt(ws: seq<nat>, l: Place, rs: seq<Narrow>, next: seq<int>, prev: seq<Back>, first: int, k: nat)
    requires Done(ws, l, rs, 0, next, prev, first) && k < |FreeFrom(rs, 0)|
    ensures var f := FreeFrom(rs, 0);
            && 6 * |rs| <= |ws| && 6 * f[k] + 5 < |ws| && After(f, k) >= -1 && first == f[0]
            && WideAt(ws, f[k]) == Wide(rs[f[k]].ref, ElemAddr(l, After(f, k)), BackAddr(l, Before(f, k)))
  {
    hide FreeFrom, Unread, Bare, WideAt, ElemAddr, BackAddr;
    var f := FreeFrom(rs, 0);
    assert next[f[k]] == After(f, k) && prev[f[k]] == Before(f, k);
  }

  lemma Neighbour(f: seq<nat>, k: nat)
    requires k < |f|
    ensures After(f, k) == (if k + 1 < |f| then f[k + 1] else NULL)
    ensures Before(f, k) == if k == 0 then Head else NextOf(f[k - 1])
  {
  }

  lemma NextField(ws: seq<nat>, l: Place, i: nat)
    requires 6 * i + 5 < |ws|
    ensures (24 * i + 8) % 4 == 0 && (24 * i + 8) / 4 == 6 * i + 2 && WideAt(ws, i).next == Get64(ws, 6 * i + 2)
  {
    hide Get64;
  }

  /** kernel_init_mmap: no record is overwritten before it is read, every count survives, both
      assertions hold, and the new free list has exactly the records with non-zero links, in
      ascending order, while all others have zero links. */
  method KernelInitMmap(w: array<nat>, l: Place, ghost rs: seq<Narrow>, n: nat)
    returns (head: nat, used: nat, ghost next: seq<int>, ghost prev: seq<Back>, ghost first: int)
    requires n == |rs| && 6 * n <= w.Length && l.base > 0 && Unread(w[..], rs, n) && Handoff(rs)
    modifies w
    ensures Done(w[..], l, rs, 0, next, prev, first) && first >= -1 && head == ElemAddr(l, first) && used == Used(rs, 0)
  {
    hide Done, Inserted, Widened, BackAddr, Unread;
    head, used := 0, 0;
    next, prev, first := seq(n, _ => NULL), seq(n, _ => Nil), NULL;
    StartDone(w[..], l, rs, next, prev);
    var i := n;
    while i > 0
      invariant i <= n && Done(w[..], l, rs, i, next, prev, first) && first >= -1 && head == ElemAddr(l, first)
      invariant used == Used(rs, i)
    {
      i := i - 1;
      ReadNarrow(w[..], l, rs, i, next, prev, first);
      var links, rc := w[3 * i + 1] + WORD * w[3 * i + 2], w[3 * i];
      if links == 0 {
        DoneUsed(w[..], l, rs, i, next, prev, first);
        Widen(w, i, rc);
        next, prev := next[i := NULL], prev[i := Nil];
        assert rc == 1;
        used := used + 1;
      } else {
        DoneFree(w[..], l, rs, i, next, prev, first);
        Widen(w, i, rc);
        InsertHead(w, l, i, head, first);
        next, prev, first := next[i := first], PrevAfter(prev[i := Nil], first, i), i;
        head := l.base + 24 * i;
        assert rc <= 1;
      }
    }
  }

  method Widen(w: array<nat>, i: nat, rc: nat)
    requires 6 * i + 5 < w.Length
    modifies w
    ensures w[..] == Widened(old(w[..]), i, rc)
  {
    Clear(w, i);
    w[6 * i] := rc;
  }

  lemma StartDone(ws: seq<nat>, l: Place, rs: seq<Narrow>, next: seq<int>, prev: seq<Back>)
    requires Unread(ws, rs, |rs|) && |next| == |prev| == |rs|
    ensures Done(ws, l, rs, |rs|, next, prev, NULL)
  {
  }
}
