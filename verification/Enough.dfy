/** How much memory is enough for the system to start. */
module Enough {
  import opened Mmu
  import opened Radix
  import opened Supply
  import opened Stock
  import opened LoaderInit
  import opened Create
  import opened Queue
  import opened Memory
  import opened Scheduling
  import opened Effects
  import opened Runs
  import opened Handover
  import opened Whole
  import Boot

  /** A page needs no more than one table of each level. */
  lemma NewAtMost(P: iset<Vpage>, v: Vpage)
    ensures New(P, v) <= 3
  {
    hide Used;
    assert NewTo(P, v, 0) == 0;
    assert NewTo(P, v, 1) <= 1;
    assert NewTo(P, v, 2) <= 2;
  }

  /** The page after a mapped one needs no table, unless it is the first of a page table. */
  lemma NewBeside(P: iset<Vpage>, i: nat)
    requires Nth(i) in P && (i + 1) % TABLE_SIZE != 0
    ensures New(P, Nth(i + 1)) == 0
  {
    var v, w := Nth(i + 1), Nth(i);
    SameTable(i);
    assert Used(P, v, 1) && Used(P, v, 2) && Used(P, v, 3);
    assert NewTo(P, v, 0) == 0;
    assert NewTo(P, v, 1) == 0;
    assert NewTo(P, v, 2) == 0;
  }

  lemma SameTable(i: nat)
    requires (i + 1) % TABLE_SIZE != 0
    ensures Under(Nth(i + 1), Nth(i), 1) && Under(Nth(i + 1), Nth(i), 2) && Under(Nth(i + 1), Nth(i), 3)
  {
    assert (i + 1) / TABLE_SIZE == i / TABLE_SIZE;
  }

  /** How many page tables the pages with the numbers from `n` on lie in. */
  function Spanned(n: nat, cnt: nat): nat {
    if cnt == 0 then 0 else (n + cnt - 1) / TABLE_SIZE - n / TABLE_SIZE + 1
  }

  lemma SpannedStep(n: nat, cnt: nat)
    requires cnt > 0
    ensures Spanned(n, cnt) == Spanned(n, cnt - 1) + if cnt == 1 || (n + cnt - 1) % TABLE_SIZE == 0 then 1 else 0
  {
    var i := n + cnt - 1;
    if cnt > 1 { assert i / TABLE_SIZE == (i - 1) / TABLE_SIZE + if i % TABLE_SIZE == 0 then 1 else 0; }
  }

  /** Consecutive pages need at most three tables for each page table they lie in. */
  lemma {:induction false} RangeTables(P: iset<Vpage>, n: nat, cnt: nat)
    ensures TablesFor(P + Range(n, cnt)) <= TablesFor(P) + 3 * Spanned(n, cnt)
  {
    hide TablesFor, New, Nth, Spanned, Range;
    if cnt == 0 {
      RangeNone(n);
      assert P + Range(n, 0) == P;
    } else {
      RangeTables(P, n, cnt - 1);
      RangeStep(n, cnt - 1);
      SpannedStep(n, cnt);
      var Q, i := P + Range(n, cnt - 1), n + cnt - 1;
      assert Q + iset{Nth(i)} == P + Range(n, cnt);
      TablesAdd(Q, Nth(i));
      NewAtMost(Q, Nth(i));
      if cnt > 1 && i % TABLE_SIZE != 0 {
        InRange(n, cnt - 1, i - 1);
        NewBeside(Q, i - 1);
      }
    }
  }

  lemma InRange(n: nat, cnt: nat, i: nat)
    requires n <= i < n + cnt
    ensures Nth(i) in Range(n, cnt)
  {
    hide Nth;
  }

  // ------------------------------------------------------------------------
  // The loader

  lemma {:induction false} MinusShorter(f: seq<nat>, p: nat)
    ensures |Minus(f, p)| >= |f| - 1
  {
    if |f| > 0 { MinusShorter(f[1..], p); }
  }

  /** The pages a section may take: tables, and pages to keep that are on the list. */
  function Takes(n: nat, cnt: nat, hard: bool): nat { 3 * Spanned(n, cnt) + if hard then cnt else 0 }

  lemma {:induction false} SectionLong(f: seq<nat>, P: iset<Vpage>, n: nat, p: nat, cnt: nat, hard: bool)
    requires |f| + TablesFor(P) >= TablesFor(P + Range(n, cnt)) + if hard then cnt else 0
    ensures SectionList(f, P, n, p, cnt, hard).Some?
    ensures |SectionList(f, P, n, p, cnt, hard).value| + TablesFor(P + Range(n, cnt)) + (if hard then cnt else 0) >=
              |f| + TablesFor(P)
  {
    hide Range, TablesFor, New, Nth;
    if cnt == 0 {
      assert P + Range(n, 0) == P by { RangeNone(n); }
    } else {
      var Q, v := P + Range(n, cnt - 1), Nth(n + cnt - 1);
      RangeStep(n, cnt - 1);
      assert Q + iset{v} == P + Range(n, cnt);
      TablesAdd(Q, v);
      SectionLong(f, P, n, p, cnt - 1, hard);
      var g := SectionList(f, P, n, p, cnt - 1, hard).value;
      if hard { MinusShorter(g[New(Q, v)..], p + cnt - 1); }
    }
  }

  /** The pages the first `s` sections may take. */
  function Needs(b: Plan, s: nat): nat {
    if s == 0 then 0 else Needs(b, s - 1) + Takes(PieceOf(b, s - 1).first, PieceOf(b, s - 1).cnt, s - 1 < 5)
  }

  lemma {:induction false} ListLong(f: seq<nat>, b: Plan, s: nat)
    requires |f| >= Needs(b, s)
    ensures ListAfter(f, b, s).Some? && |ListAfter(f, b, s).value| >= |f| - Needs(b, s)
  {
    hide SectionList, Range, TablesFor, PieceOf, Spanned;
    if s > 0 {
      ListLong(f, b, s - 1);
      var P, c := Covered(b, s - 1), PieceOf(b, s - 1);
      RangeTables(P, c.first, c.cnt);
      SectionLong(ListAfter(f, b, s - 1).value, P, c.first, c.frame, c.cnt, s - 1 < 5);
    }
  }

  // ------------------------------------------------------------------------
  // The kernel

  /** A new page takes at most four. */
  lemma {:induction false} LeftLong(F: nat, vs: seq<Vpage>)
    requires F >= 4 * |vs|
    ensures Left(F, vs).Some? && Left(F, vs).value >= F - 4 * |vs|
  {
    hide New, PagesOf;
    if |vs| > 0 {
      var n := |vs| - 1;
      LeftLong(F, vs[..n]);
      NewAtMost(PagesOf(vs[..n]), vs[n]);
    }
  }

  lemma StartsLong(free: nat, magic: bool, segments: seq<Segment>)
    requires free >= 10 + 4 * |Attempt(segments)|
    ensures Starts(free, magic, segments)
    ensures magic && FirstBad(segments) == |segments| ==> Suffices(free - 4, magic, segments)
  {
    hide Left, Stuck, FirstBad, Attempt;
    LeftLong(free - 5, Attempt(segments));
  }

  /** The system starts whenever as many pages are available as the sections, the stacks and the first
      tasks can take at most, and with a proper program so does the user task. */
  lemma EnoughStarts(avail: seq<bool>, b: Plan, magic: bool, segments: seq<Segment>)
    requires |Down(avail, |avail|)| >= Needs(b, 6) + 10 + 4 * |Attempt(segments)|
    ensures var f := ListAfter(Down(avail, |avail|), b, 6);
            && f.Some? && Starts(|f.value|, magic, segments)
            && (magic && FirstBad(segments) == |segments| ==> Suffices(|f.value| - 4, magic, segments))
  {
    hide Down, Needs, ListAfter, Starts, Suffices, Attempt, FirstBad;
    ListLong(Down(avail, |avail|), b, 6);
    StartsLong(|ListAfter(Down(avail, |avail|), b, 6).value|, magic, segments);
  }

  // ------------------------------------------------------------------------
  // 64 MB

  const SMALL_MEMORY: nat := 0x400_0000

  /** 64 MB of which the first four are in use, with the boot stack and the configuration in them. */
  const SMALL_PLAN: Plan := Planned(0x8000, 0x1_0000, 0x40_0000, SMALL_MEMORY)

  function SmallAvail(): (r: seq<bool>)
    ensures |r| == SMALL_MEMORY / PAGE_SIZE && forall p :: 0 <= p < |r| ==> r[p] == (p >= 0x400)
  {
    seq(SMALL_MEMORY / PAGE_SIZE, p => p >= 0x400)
  }

  lemma {:induction false} DownLong(avail: seq<bool>, i: nat, low: nat)
    requires i <= |avail| && forall p: nat :: low <= p < |avail| ==> avail[p]
    ensures |Down(avail, i)| >= i - low
  {
    if i > 0 { DownLong(avail, i - 1, low); }
  }

  lemma SmallNeeds()
    ensures SMALL_PLAN == Plan(8, 16, 0x400, 0x4000) && Fitting(SMALL_PLAN) && Needs(SMALL_PLAN, 6) == 1141
  {
    var b := SMALL_PLAN;
    assert b == Plan(8, 16, 0x400, 0x4000);
    assert Needs(b, 0) == 0;
    assert Needs(b, 1) == 11;
    assert Needs(b, 2) == 15;
    assert Needs(b, 3) == 15;
    assert Needs(b, 4) == 15;
    assert Needs(b, 5) == 1045;
  }

  /** In 64 MB the system starts with every proper program of up to 3500 pages. */
  lemma SmallStarts(segments: seq<Segment>)
    requires FirstBad(segments) == |segments| && |Flat(segments)| <= 3500
    ensures Fitting(SMALL_PLAN) && AvailBelow(SmallAvail(), 0x8_0000) && !SmallAvail()[0]
    ensures var f := ListAfter(Down(SmallAvail(), |SmallAvail()|), SMALL_PLAN, 6);
            f.Some? && Starts(|f.value|, true, segments) && Suffices(|f.value| - 4, true, segments)
  {
    hide Down, Needs, ListAfter, Starts, Suffices, FirstBad, Fitting;
    SmallNeeds();
    AttemptAll(segments);
    DownLong(SmallAvail(), |SmallAvail()|, 0x400);
    EnoughStarts(SmallAvail(), SMALL_PLAN, true, segments);
  }

  /** So does the whole way from the loader on: both first tasks are there, whatever the memory held. */
  method StartSmall(phys: seq<seq<Word>>, l: Place32, place: Boot.Place, segments: seq<Segment>,
          env: (nat, int) -> Input, steps: nat)
    returns (user: int, idle: int, o: Outcome, ghost xs: seq<Snap>, ghost log: seq<Effect>)
    requires |phys| == SMALL_MEMORY / PAGE_SIZE && (forall p :: 0 <= p < |phys| ==> |phys[p]| == TABLE_SIZE)
    requires l.base > 0 && l.head > 0 && HeadOutside(place, SMALL_MEMORY / PAGE_SIZE)
    requires FirstBad(segments) == |segments| && |Flat(segments)| <= 3500 && forall g :: g in segments ==> Low(g)
    ensures user != NULL && idle != NULL && user != idle && Run(env, xs, log)
    ensures FirstTasks(xs[0].s.m, xs[0].p, user, idle, segments) && OnlyActive(xs[0].p, user, idle)
    ensures if o == Resumed then |log| == steps else |log| < steps && Stops(env, xs, log, o)
    ensures Gentle(env, idle) ==> o != NoTasks
  {
    hide Run, Stops, OnlyActive, Sees, Flat, Low, Gentle, Agrees, Limbo, Grounded, Alive, Starts, Suffices, FirstBad;
    hide ListAfter, Down, FreeAfter, HeadOutside, Fitting;
    SmallStarts(segments);
    Reachable();
    user, idle, o, xs, log := BootAndRun(phys, 1, SmallAvail(), 0x8000, 0x1_0000, 0x40_0000, SMALL_MEMORY, l, place,
      true, segments, env, steps);
  }

  lemma Reachable()
    ensures AvailBelow(SmallAvail(), 0x10_0000)
  {
  }
}
