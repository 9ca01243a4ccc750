/** The intrusive doubly linked list of src/stdlib/queue.h over elements `0..n`.

    `le_next` is an element or NULL; `le_prev` is the address of the pointer that leads to the
    element: the list head or the `le_next` field of the element before it. */
module Queue {
  const NULL: int := -1

  datatype Back = Nil | Head | NextOf(i: nat)

  ghost predicate NoDup(s: seq<nat>) {
    forall i, j :: 0 <= i < j < |s| ==> s[i] != s[j]
  }

  /** The pointers spell out the sequence `s`. */
  ghost predicate Linked(next: seq<int>, prev: seq<Back>, first: int, s: seq<nat>) {
    && |next| == |prev| && NoDup(s)
    && (forall i :: 0 <= i < |s| ==> s[i] < |next|)
    && first == (if |s| == 0 then NULL else s[0])
    && (forall i :: 0 <= i < |s| ==> next[s[i]] == After(s, i))
    && (forall i :: 0 <= i < |s| ==> prev[s[i]] == Before(s, i))
  }

  function After(s: seq<nat>, i: nat): int {
    if i + 1 < |s| then s[i + 1] else NULL
  }

  function Before(s: seq<nat>, i: nat): Back
    requires i <= |s|
  {
    if i == 0 then Head else NextOf(s[i - 1])
  }

  /** Every element off the list has zero links. */
  ghost predicate OffListZero(next: seq<int>, prev: seq<Back>, s: seq<nat>)
    requires |next| == |prev|
  {
    forall x: nat :: x < |next| && x !in s ==> next[x] == NULL && prev[x] == Nil
  }

  /** The sequence `s` without its element `i`. */
  function Without(s: seq<nat>, i: nat): (r: seq<nat>)
    requires i < |s|
    ensures |r| == |s| - 1
    ensures forall j :: 0 <= j < |r| ==> r[j] == s[if j < i then j else j + 1]
  {
    s[..i] + s[i + 1..]
  }

  lemma WithoutMembers(s: seq<nat>, i: nat)
    requires i < |s| && NoDup(s)
    ensures NoDup(Without(s, i))
    ensures forall x :: x in Without(s, i) <==> x in s && x != s[i]
  {
    var r := Without(s, i);
    forall x | x in s && x != s[i] ensures x in r {
      var j :| 0 <= j < |s| && s[j] == x;
      assert r[if j < i then j else j - 1] == x;
    }
  }

  lemma Neighbours(next: seq<int>, prev: seq<Back>, first: int, s: seq<nat>, i: nat)
    requires Linked(next, prev, first, s) && i < |s|
    ensures |next| == |prev| && s[i] < |next| && next[s[i]] == After(s, i) && prev[s[i]] == Before(s, i)
    ensures After(s, i) != NULL ==> After(s, i) in s && 0 <= After(s, i) < |next| && After(s, i) != s[i]
    ensures i > 0 ==> s[i - 1] in s && s[i - 1] < |next| && s[i - 1] != s[i]
  {
  }

  /** The pointers after element `i` has been bypassed. */
  ghost predicate Bypassed(next: seq<int>, prev: seq<Back>, first: int, s: seq<nat>, i: nat, next': seq<int>,
          prev': seq<Back>, first': int) {
    && Linked(next, prev, first, s) && i < |s|
    && first' == (if i == 0 then After(s, i) else first)
    && |next'| == |next| && |prev'| == |prev|
    && (forall y :: 0 <= y < |next| ==> next'[y] == if i > 0 && y == s[i - 1] then After(s, i) else next[y])
    && (forall y :: 0 <= y < |prev| ==> prev'[y] == if y == After(s, i) then Before(s, i) else prev[y])
  }

  lemma WithoutNeighbours(s: seq<nat>, i: nat, j: nat)
    requires i < |s| && j < |s| - 1
    ensures var k := if j < i then j else j + 1; var r := Without(s, i);
            && r[j] == s[k] && After(r, j) == After(s, if j + 1 == i then i else k)
            && Before(r, j) == Before(s, if j == i then i else k)
  {
  }

  lemma UnlinkAt(next: seq<int>, prev: seq<Back>, first: int, s: seq<nat>, i: nat, next': seq<int>, prev': seq<Back>,
          first': int, k: nat)
    requires Bypassed(next, prev, first, s, i, next', prev', first') && k < |s| && k != i
    ensures s[k] < |next'| && s[k] != s[i]
    ensures next'[s[k]] == After(s, if k + 1 == i then i else k)
    ensures prev'[s[k]] == Before(s, if k == i + 1 then i else k)
  {
    Neighbours(next, prev, first, s, k);
  }

  /** Bypassing element `i` leaves the pointers spelling out the rest. */
  lemma Unlink(next: seq<int>, prev: seq<Back>, first: int, s: seq<nat>, i: nat, next': seq<int>, prev': seq<Back>,
          first': int)
    requires Bypassed(next, prev, first, s, i, next', prev', first')
    ensures Linked(next', prev', first', Without(s, i)) && s[i] !in Without(s, i)
  {
    WithoutMembers(s, i);
    var r := Without(s, i);
    forall j | 0 <= j < |r| ensures r[j] < |next'| && next'[r[j]] == After(r, j) && prev'[r[j]] == Before(r, j) {
      UnlinkAt(next, prev, first, s, i, next', prev', first', if j < i then j else j + 1);
      WithoutNeighbours(s, i, j);
    }
  }

  ghost predicate Prepended(next: seq<int>, prev: seq<Back>, first: int, s: seq<nat>, x: nat, next': seq<int>,
          prev': seq<Back>) {
    && Linked(next, prev, first, s) && x < |next| && x !in s
    && next' == next[x := first]
    && |prev'| == |prev| && prev'[x] == Head
    && (|s| > 0 ==> prev'[s[0]] == NextOf(x))
    && (forall y :: 0 <= y < |prev| && y != x && (|s| == 0 || y != s[0]) ==> prev'[y] == prev[y])
  }

  lemma PrependAt(next: seq<int>, prev: seq<Back>, first: int, s: seq<nat>, x: nat, next': seq<int>, prev': seq<Back>,
          j: nat)
    requires Prepended(next, prev, first, s, x, next', prev') && j < |s|
    ensures s[j] != x && s[j] < |next|
    ensures next'[s[j]] == After(s, j)
    ensures prev'[s[j]] == if j == 0 then NextOf(x) else Before(s, j)
  {
    assert s[j] in s;
  }

  /** Putting `x` in front of the list. */
  lemma Prepend(next: seq<int>, prev: seq<Back>, first: int, s: seq<nat>, x: nat, next': seq<int>, prev': seq<Back>)
    requires Prepended(next, prev, first, s, x, next', prev')
    ensures Linked(next', prev', x, [x] + s)
  {
    var r := [x] + s;
    forall j | 0 <= j < |r| ensures r[j] < |next'| && next'[r[j]] == After(r, j) && prev'[r[j]] == Before(r, j) {
      if j > 0 {
        PrependAt(next, prev, first, s, x, next', prev', j - 1);
        assert After(r, j) == After(s, j - 1);
        assert j > 1 ==> Before(r, j) == Before(s, j - 1);
      }
    }
  }

  class List {
    const next: array<int>
    const prev: array<Back>
    var first: int
    ghost var elems: seq<nat>

    ghost predicate Valid()
      reads this, next, prev
    {
      Linked(next[..], prev[..], first, elems)
    }

    ghost function Repr(): set<object> {
      {this, next, prev}
    }

    constructor (n: nat)
      ensures Valid() && elems == [] && next.Length == n
      ensures fresh(next) && fresh(prev)
      ensures OffListZero(next[..], prev[..], elems)
    {
      next := new int[n](_ => NULL);
      prev := new Back[n](_ => Nil);
      first, elems := NULL, [];
    }

    /** A list with the given links. */
    constructor FromLinks(nx: seq<int>, pv: seq<Back>, f: int, ghost s: seq<nat>)
      requires Linked(nx, pv, f, s)
      ensures Valid() && elems == s && next.Length == |nx| && fresh(next) && fresh(prev)
    {
      next := new int[|nx|](i requires 0 <= i < |nx| => nx[i]);
      prev := new Back[|pv|](i requires 0 <= i < |pv| => pv[i]);
      first, elems := f, s;
      new;
      assert next[..] == nx && prev[..] == pv;
    }

    /** LIST_FIRST */
    method First() returns (x: int)
      requires Valid()
      ensures x == if |elems| == 0 then NULL else elems[0]
      ensures x != NULL ==> 0 <= x < next.Length == prev.Length && x in elems
    {
      x := first;
    }

    /** LIST_INSERT_HEAD */
    method InsertHead(x: nat)
      requires Valid() && x < next.Length && x !in elems
      modifies this, next, prev
      ensures Valid() && elems == [x] + old(elems)
      ensures forall y: nat :: y < next.Length && y !in elems ==> next[y] == old(next[y]) && prev[y] == old(prev[y])
    {
      ghost var nx, pv := next[..], prev[..];
      next[x] := first;
      if next[x] != NULL {
        assert first == elems[0];
        prev[first] := NextOf(x);
      }
      first := x;
      prev[x] := Head;
      Prepend(nx, pv, old(first), elems, x, next[..], prev[..]);
      elems := [x] + elems;
    }

    /** LIST_REMOVE; it leaves the links of the removed element as they were. */
    method Remove(x: nat, ghost i: nat)
      requires Valid() && i < |elems| && elems[i] == x
      modifies this, next, prev
      ensures Valid() && elems == Without(old(elems), i) && x !in elems
      ensures forall y: nat :: y < next.Length && y !in old(elems) ==>
                next[y] == old(next[y]) && prev[y] == old(prev[y])
    {
      hide Linked;
      ghost var nx, pv, fs := next[..], prev[..], first;
      Neighbours(nx, pv, first, elems, i);
      Bypass(x, After(elems, i), Before(elems, i));
      Unlink(nx, pv, fs, elems, i, next[..], prev[..], first);
      elems := Without(elems, i);
    }

    /** The pointer writes of LIST_REMOVE for an element between `b` and `a`. */
    method Bypass(x: nat, ghost a: int, ghost b: Back)
      requires x < next.Length == prev.Length && next[x] == a && prev[x] == b != Nil
      requires a != NULL ==> 0 <= a < prev.Length && a != x
      requires b.NextOf? ==> b.i < next.Length && b.i != x
      modifies this`first, next, prev
      ensures first == if b == Head then a else old(first)
      ensures forall y :: 0 <= y < next.Length ==> next[y] == if b == NextOf(y) then a else old(next[y])
      ensures forall y :: 0 <= y < prev.Length ==> prev[y] == if y == a then b else old(prev[y])
    {
      if next[x] != NULL {
        prev[next[x]] := prev[x];
      }
      match prev[x] {
        case Head => first := next[x];
        case NextOf(j) => next[j] := next[x];
      }
    }

    /** The zeroing of the links of an element off the list. */
    method Clear(x: nat)
      requires Valid() && x < next.Length && x !in elems
      modifies next, prev
      ensures Valid() && next[x] == NULL && prev[x] == Nil
      ensures forall y: nat :: y < next.Length && y != x ==> next[y] == old(next[y]) && prev[y] == old(prev[y])
    {
      next[x], prev[x] := NULL, Nil;
    }
  }
}
