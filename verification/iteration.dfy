/** The pull-based iteration protocol the graph utilities consume, and the two
    decorators they compose over it.

    A `Cursor` is a closeable iteration over a finite sequence: `hasNext`,
    `next` and an idempotent `close`. The filter and converting decorators are
    given by their meaning on the sequence they wrap: `Filter` keeps the
    accepted elements in order, `Map` converts every element in order. */
module Iteration {
  import opened Results

  /** The elements of `s` that `keep` accepts, in their original order. */
  function Filter<T>(keep: T -> bool, s: seq<T>): (r: seq<T>)
    ensures |r| <= |s|
    ensures forall i :: 0 <= i < |r| ==> keep(r[i])
    ensures forall i :: 0 <= i < |r| ==> r[i] in s
  {
    if s == [] then [] else (if keep(s[0]) then [s[0]] else []) + Filter(keep, s[1..])
  }

  /** Every element of `s` converted by `convert`, in the same order. */
  function Map<T, U>(convert: T --> U, s: seq<T>): (r: seq<U>)
    requires forall i :: 0 <= i < |s| ==> convert.requires(s[i])
    ensures |r| == |s|
    ensures forall i :: 0 <= i < |s| ==> r[i] == convert(s[i])
  {
    if s == [] then [] else [convert(s[0])] + Map(convert, s[1..])
  }

  /** An element survives the filter exactly when it is in the source and accepted. */
  lemma {:induction false} FilterMembership<T>(keep: T -> bool, s: seq<T>, x: T)
    ensures x in Filter(keep, s) <==> x in s && keep(x)
  {
    if s != [] {
      FilterMembership(keep, s[1..], x);
      assert s == [s[0]] + s[1..];
    }
  }

  /** Filtering preserves order: filtering a concatenation concatenates the filtered parts. */
  lemma {:induction false} FilterAppend<T>(keep: T -> bool, a: seq<T>, b: seq<T>)
    ensures Filter(keep, a + b) == Filter(keep, a) + Filter(keep, b)
  {
    if a == [] {
      assert a + b == b;
    } else {
      assert (a + b)[1..] == a[1..] + b;
      FilterAppend(keep, a[1..], b);
    }
  }

  /** A filter that accepts everything is the identity. */
  lemma {:induction false} FilterAll<T>(keep: T -> bool, s: seq<T>)
    requires forall i :: 0 <= i < |s| ==> keep(s[i])
    ensures Filter(keep, s) == s
  {
    if s != [] {
      FilterAll(keep, s[1..]);
    }
  }

  /** Two filters that agree on every element of the source keep the same elements. */
  lemma {:induction false} FilterSame<T>(keep: T -> bool, other: T -> bool, s: seq<T>)
    requires forall i :: 0 <= i < |s| ==> keep(s[i]) == other(s[i])
    ensures Filter(keep, s) == Filter(other, s)
  {
    if s != [] {
      FilterSame(keep, other, s[1..]);
    }
  }

  /** Two filters that disagree on every element split the source between them. */
  lemma {:induction false} FilterSplit<T>(keep: T -> bool, other: T -> bool, s: seq<T>)
    requires forall i :: 0 <= i < |s| ==> keep(s[i]) != other(s[i])
    ensures |Filter(keep, s)| + |Filter(other, s)| == |s|
  {
    if s != [] {
      FilterSplit(keep, other, s[1..]);
    }
  }

  /** Converting a concatenation concatenates the converted parts. */
  lemma {:induction false} MapAppend<T, U>(convert: T --> U, a: seq<T>, b: seq<T>)
    requires forall i :: 0 <= i < |a| ==> convert.requires(a[i])
    requires forall i :: 0 <= i < |b| ==> convert.requires(b[i])
    ensures Map(convert, a + b) == Map(convert, a) + Map(convert, b)
  {
  }

  /** A closeable iteration over the finite sequence `elems`: a forward-only
      position, a closed flag, and (for the proofs) the number of `close` calls. */
  class Cursor<T> {
    const elems: seq<T>
    var pos: nat
    var closed: bool
    ghost var closeCalls: nat

    ghost predicate Valid()
      reads this
    {
      pos <= |elems|
    }

    /** The elements not yet returned by `next`. */
    ghost function Remaining(): seq<T>
      reads this
      requires Valid()
    {
      elems[pos..]
    }

    constructor (s: seq<T>)
      ensures Valid() && elems == s && Remaining() == s
      ensures !closed && closeCalls == 0
    {
      elems := s;
      pos := 0;
      closed := false;
      closeCalls := 0;
    }

    /** Whether `next` has an element to return; a closed iteration refuses. */
    method HasNext() returns (r: Result<bool>)
      requires Valid()
      ensures closed ==> r == Err(IllegalState)
      ensures !closed ==> r == Ok(Remaining() != [])
    {
      if closed {
        r := Err(IllegalState);
      } else {
        r := Ok(pos < |elems|);
      }
    }

    /** Returns the next element and moves past it; a closed or exhausted
        iteration refuses and does not move. */
    method Next() returns (r: Result<T>)
      requires Valid()
      modifies this`pos
      ensures Valid()
      ensures old(closed) ==> r == Err(IllegalState) && pos == old(pos)
      ensures !closed && old(Remaining()) == [] ==> r == Err(NoSuchElement) && pos == old(pos)
      ensures !closed && old(Remaining()) != [] ==>
        r == Ok(old(Remaining())[0]) && Remaining() == old(Remaining())[1..]
    {
      if closed {
        r := Err(IllegalState);
      } else if pos < |elems| {
        r := Ok(elems[pos]);
        pos := pos + 1;
      } else {
        r := Err(NoSuchElement);
      }
    }

    /** Releases the iteration; closing again is harmless. */
    method Close()
      modifies this`closed, this`closeCalls
      ensures closed && closeCalls == old(closeCalls) + 1
    {
      closed := true;
      closeCalls := closeCalls + 1;
    }
  }
}
