/** Where a cursor stands, what the engine does to it, and what the cursor loops of the table layer amount to
    (include/database/ConstCursor.hpp, include/database/Table.hpp). */
module Cursors {
  import opened Wrappers
  import opened Records

  /** A cursor of the engine. After the record under it was deleted it stands at the next one with `gone` set,
      so that the next `to_next` stays where it is. */
  datatype Position = Unset | At(index: nat, gone: bool)

  predicate Eof(n: nat, p: Position) {
    p.Unset? || p.index >= n
  }

  function ToNext(p: Position): Position {
    match p
    case Unset => At(0, false)
    case At(i, gone) => if gone then At(i, false) else At(i + 1, false)
  }

  /** The engine keeps every open cursor of the transaction up to date. */
  function AfterErase(p: Position, i: nat): Position {
    match p
    case Unset => Unset
    case At(j, gone) => if j == i then At(j, true) else if j > i then At(j - 1, gone) else p
  }

  function AfterInsert(p: Position, i: nat): Position {
    match p
    case Unset => Unset
    case At(j, gone) => if j >= i then At(j + 1, gone) else p
  }

  /** The same for a whole range of positions, from `lo` up to but excluding `hi`. */
  function AfterCut(p: Position, lo: nat, hi: nat): Position
    requires lo <= hi
  {
    match p
    case Unset => Unset
    case At(j, gone) => if j < lo then p else if j < hi then At(lo, true) else At(j - (hi - lo), gone)
  }

  /** Erasing the first record behind a range that is already gone widens the range. */
  lemma CutOneMore(p: Position, lo: nat, k: nat)
    ensures AfterErase(AfterCut(p, lo, lo + k), lo) == AfterCut(p, lo, lo + k + 1)
  {
  }

  /** A cursor outside the range still stands at its record, and one inside stands before the first record behind
      the range. */
  lemma CutMovesOthers(t: seq<Record>, lo: nat, hi: nat, p: Position)
    requires lo <= hi <= |t| && !Eof(|t|, p)
    ensures var u, q := Cut(t, lo, hi), AfterCut(p, lo, hi);
      if lo <= p.index < hi then q.gone && q.index == lo && u[lo..] == t[hi..]
      else !Eof(|u|, q) && u[q.index] == t[p.index] && q.gone == p.gone
  {
    assert Cut(t, lo, hi)[lo..] == t[hi..];
  }

  /** A cursor of the engine that has no record gets none by an insertion or a deletion. */
  lemma EofStays(n: nat, p: Position, i: nat)
    requires Eof(n, p)
    ensures i <= n ==> Eof(n + 1, AfterInsert(p, i))
    ensures i < n ==> Eof(n - 1, AfterErase(p, i))
  {
  }

  /** A cursor that the engine moved along still stands at its record. */
  lemma ErasePreservesOthers(t: seq<Record>, i: nat, p: Position)
    requires i < |t| && !Eof(|t|, p) && p.index != i
    ensures var q := AfterErase(p, i);
      !Eof(|t| - 1, q) && Remove(t, i)[q.index] == t[p.index] && q.gone == p.gone
  {
  }

  lemma InsertPreservesOthers(t: seq<Record>, key: string, value: string, p: Position)
    requires !Eof(|t|, p)
    ensures var q := AfterInsert(p, Seek(t, key));
      !Eof(|t| + 1, q) && Insert(t, key, value)[q.index] == t[p.index] && q.gone == p.gone
  {
  }

  /** Erasing a record and stepping on lands on its successor. */
  lemma EraseThenNext(t: seq<Record>, p: Position)
    requires !Eof(|t|, p)
    ensures var u, q := Remove(t, p.index), ToNext(AfterErase(p, p.index));
      && (Eof(|u|, q) <==> p.index == |t| - 1)
      && (!Eof(|u|, q) ==> u[q.index] == t[p.index + 1])
  {
  }

  /** A cursor object as the table layer sees it: finished (`m_end`), or standing somewhere. */
  datatype Spot = Past | Slot(index: nat)

  /** The end of a loop: the end marker, or another cursor. */
  datatype Bound = NoBound | UpTo(spot: Spot)

  datatype Answer<+T> = Value(value: T) | Throws(what: string)

  const BAD_CURSOR := "bad cursor"
  const BAD_CURRENT := "bad current"

  /** `equal`: by the end flags if one is set, otherwise by position; a cursor without a record throws. */
  function Equals(n: nat, a: Spot, b: Bound): Answer<bool> {
    if b.NoBound? then Value(a.Past?)
    else if a.Past? || b.spot.Past? then Value(a.Past? == b.spot.Past?)
    else if a.index >= n || b.spot.index >= n then Throws(BAD_CURRENT)
    else Value(a.index == b.spot.index)
  }

  /** The positions a range erase removes, in a table of `n` records. `None`: the loop runs past the end of the
      table without ever meeting its bound; the exception then leaves a `noexcept` function. */
  function Range(n: nat, a: Spot, b: Bound): (r: Option<(nat, nat)>)
    ensures r.Some? ==> r.value.0 <= r.value.1 <= n
  {
    if b.NoBound? || b.spot.Past? then
      if a.Past? || a.index >= n then Some((n, n)) else Some((a.index, n))
    else if a.Past? || a.index >= n || b.spot.index >= n || a.index > b.spot.index then None
    else Some((a.index, b.spot.index))
  }

  /** The position from which the range erase removes. */
  function StartOf(n: nat, a: Spot): (p: nat)
    ensures p <= n
  {
    if a.Past? || a.index > n then n else a.index
  }

  /** The bound of the range erase when `k` records from `p` on are gone. */
  function BoundAfter(b: Bound, p: nat, k: nat): Bound {
    if b.NoBound? || b.spot.Past? then b else UpTo(Slot(AfterCut(At(b.spot.index, false), p, p + k).index))
  }

  /** The loop of the range erase has removed `k` records and its cursor stands at `spot`. */
  predicate Reached(n: nat, a: Spot, b: Bound, k: nat, spot: Spot) {
    var p := StartOf(n, a);
    && p + k <= n
    && (if p + k < n then spot == Slot(p) else spot.Past? || (k == 0 && spot == a && a.index >= n))
    && (b.UpTo? && b.spot.Slot? ==>
          && (spot.Past? ==> a.Past? || k > 0)
          && (k > 0 ==> b.spot.index < n && (b.spot.index >= p ==> k <= b.spot.index - p)))
  }

  /** What the next round of that loop does: it ends where the range does, it throws where there is none, and
      otherwise it goes on. */
  lemma RoundDecides(n: nat, a: Spot, b: Bound, k: nat, spot: Spot)
    requires Reached(n, a, b, k, spot)
    ensures var p, met := StartOf(n, a), Equals(n - k, spot, BoundAfter(b, StartOf(n, a), k));
      && (met.Throws? ==> Range(n, a, b).None?)
      && (met == Value(true) ==>
            Range(n, a, b) == Some((p, p + k)) && spot == if p + k == n then Past else Slot(p))
      && (met == Value(false) ==>
            if spot.Past? then Range(n, a, b).None?
            else if spot.index >= n - k then Reached(n, a, b, k, Past)
            else spot == Slot(p) && Reached(n, a, b, k + 1, if p + k + 1 == n then Past else spot))
      && (k == 0 && b == UpTo(spot) ==> met != Value(false))
  {
  }

  /** A predicate of a scan, which may throw. */
  datatype Verdict = Yes | No | Raises(what: string)

  /** How a scan ends, and the position it has come to. */
  datatype Scan = Stopped(index: nat) | Failed(index: nat, what: string)

  /** The loop of `find` from position `p`. A bound that lies before `p` is never met: then only the predicate can
      stop the loop, and otherwise it fails at the end of the table. */
  function ScanFrom(t: seq<Record>, p: nat, bound: Option<nat>, cond: Record -> Verdict): (r: Scan)
    requires p <= |t|
    ensures p <= r.index <= |t|
    decreases |t| - p
  {
    if p == |t| then if bound.None? then Stopped(p) else Failed(p, BAD_CURSOR)
    else if bound == Some(p) then Stopped(p)
    else match cond(t[p])
      case Yes => Stopped(p)
      case No => ScanFrom(t, p + 1, bound, cond)
      case Raises(what) => Failed(p, what)
  }

  /** `find` as a whole. A finished cursor searched up to the end marker stops at once, wherever the engine's
      cursor underneath it stands. */
  function FindFrom(t: seq<Record>, a: Spot, b: Bound, cond: Record -> Verdict): (r: Scan)
    ensures r.Stopped? ==> r.index <= |t|
  {
    if b.NoBound? || b.spot.Past? then
      if a.Past? then Stopped(|t|)
      else if a.index >= |t| then Failed(a.index, BAD_CURRENT)
      else ScanFrom(t, a.index, None, cond)
    else if a.Past? then Failed(|t|, BAD_CURSOR)
    else if a.index >= |t| || b.spot.index >= |t| then Failed(a.index, BAD_CURRENT)
    else ScanFrom(t, a.index, Some(b.spot.index), cond)
  }

  /** How one round of the loop of `find` ends: it goes on, it stops, or it throws. */
  function Round(t: seq<Record>, spot: Spot, b: Bound, cond: Record -> Verdict): Verdict {
    var met := Equals(|t|, spot, b);
    if met.Throws? then Raises(met.what)
    else if met.value then Yes
    else if spot.Past? then Raises(BAD_CURSOR)
    else if spot.index >= |t| then Raises(BAD_CURRENT)
    else cond(t[spot.index])
  }

  /** The loop of `find` at `spot` ends as the round does, or goes on at the next position. */
  lemma RoundScans(t: seq<Record>, spot: Spot, b: Bound, cond: Record -> Verdict)
    ensures var f, here := FindFrom(t, spot, b, cond), if spot.Past? then |t| else spot.index;
      match Round(t, spot, b, cond)
      case Yes => f == Stopped(here)
      case Raises(what) => f == Failed(here, what)
      case No => here < |t| && f == FindFrom(t, if here + 1 == |t| then Past else Slot(here + 1), b, cond)
  {
    var bound := if b.UpTo? && b.spot.Slot? then Some(b.spot.index) else None;
    if Round(t, spot, b, cond).No? {
      assert FindFrom(t, spot, b, cond) == ScanFrom(t, spot.index + 1, bound, cond);
    }
  }

  /** Nothing before position `i` ends the scan. */
  predicate Passes(t: seq<Record>, p: nat, i: nat, bound: Option<nat>, cond: Record -> Verdict)
    requires i <= |t|
  {
    forall j :: p <= j < i ==> cond(t[j]).No? && bound != Some(j)
  }

  /** The scan stops at the first position that satisfies the predicate or is the bound, and at the end of the
      table if there is no bound. */
  lemma {:induction false} ScanStopsAtFirst(t: seq<Record>, p: nat, bound: Option<nat>, cond: Record -> Verdict, i: nat)
    requires p <= |t|
    ensures ScanFrom(t, p, bound, cond) == Stopped(i) <==>
      && p <= i <= |t| && Passes(t, p, i, bound, cond)
      && (if i == |t| then bound.None? else bound == Some(i) || cond(t[i]).Yes?)
    decreases |t| - p
  {
    if p < |t| && bound != Some(p) && cond(t[p]).No? {
      ScanStopsAtFirst(t, p + 1, bound, cond, i);
      assert p < i <= |t| ==> (Passes(t, p, i, bound, cond) <==> Passes(t, p + 1, i, bound, cond));
    } else {
      assert p < i <= |t| ==> !(cond(t[p]).No? && bound != Some(p));
    }
  }

  /** The scan fails at the first position where the predicate throws, and at the end of the table if there is a
      bound that was never met. */
  lemma {:induction false} ScanFailsAtFirst(
      t: seq<Record>, p: nat, bound: Option<nat>, cond: Record -> Verdict, i: nat, what: string)
    requires p <= |t|
    ensures ScanFrom(t, p, bound, cond) == Failed(i, what) <==>
      && p <= i <= |t| && Passes(t, p, i, bound, cond)
      && (if i == |t| then bound.Some? && what == BAD_CURSOR else bound != Some(i) && cond(t[i]) == Raises(what))
    decreases |t| - p
  {
    if p < |t| && bound != Some(p) && cond(t[p]).No? {
      ScanFailsAtFirst(t, p + 1, bound, cond, i, what);
      assert p < i <= |t| ==> (Passes(t, p, i, bound, cond) <==> Passes(t, p + 1, i, bound, cond));
    } else {
      assert p < i <= |t| ==> !(cond(t[p]).No? && bound != Some(p));
    }
  }

  /** A search up to a cursor before the start runs like a search up to the end marker, but fails where that one
      comes to the end: it stops if and only if the predicate does. */
  lemma {:induction false} BoundBeforeStart(t: seq<Record>, p: nat, e: nat, cond: Record -> Verdict)
    requires e < p <= |t|
    ensures ScanFrom(t, p, Some(e), cond) ==
      if ScanFrom(t, p, None, cond) == Stopped(|t|) then Failed(|t|, BAD_CURSOR) else ScanFrom(t, p, None, cond)
    ensures ScanFrom(t, p, Some(e), cond) == Failed(|t|, BAD_CURSOR) <==>
      forall j :: p <= j < |t| ==> cond(t[j]).No?
    decreases |t| - p
  {
    if p < |t| {
      BoundBeforeStart(t, p + 1, e, cond);
    }
  }

  function KeyIs(key: string): Record -> Verdict {
    (r: Record) => if r.key == key then Yes else No
  }

  function KeyAtLeast(key: string): Record -> Verdict {
    (r: Record) => if Less(r.key, key) then No else Yes
  }

  /** Where `begin` stands. */
  function First(t: seq<Record>): Spot {
    if t == [] then Past else Slot(0)
  }

  /** Searching the whole table for a key finds what `get` finds. */
  lemma FindAgreesWithGet(t: seq<Record>, key: string)
    requires Sorted(t)
    ensures FindFrom(t, First(t), NoBound, KeyIs(key)) == Stopped(if Has(t, key) then Seek(t, key) else |t|)
  {
    var i := if Has(t, key) then Seek(t, key) else |t|;
    forall j | 0 <= j < i ensures t[j].key != key {
      if t[j].key == key {
        SeekFinds(t, j);
      }
    }
    ScanStopsAtFirst(t, 0, None, KeyIs(key), i);
  }

  /** Searching the whole table for the first key at least `key` finds what `lowerBound` finds. */
  lemma FindAgreesWithLowerBound(t: seq<Record>, key: string)
    requires Sorted(t)
    ensures FindFrom(t, First(t), NoBound, KeyAtLeast(key)) == Stopped(Seek(t, key))
  {
    ScanStopsAtFirst(t, 0, None, KeyAtLeast(key), Seek(t, key));
  }

  lemma {:induction false} ScanSettles(t: seq<Record>, p: nat, cond: Record -> Verdict)
    requires p <= |t|
    requires forall j :: 0 <= j < |t| ==> !cond(t[j]).Raises?
    ensures ScanFrom(t, p, None, cond).Stopped?
    decreases |t| - p
  {
    if p < |t| {
      ScanSettles(t, p + 1, cond);
    }
  }

  /** A search of the whole table returns the least key that satisfies the predicate, and the end if none does. */
  lemma FindReturnsLeast(t: seq<Record>, cond: Record -> Verdict)
    requires Sorted(t)
    requires forall j :: 0 <= j < |t| ==> !cond(t[j]).Raises?
    ensures FindFrom(t, First(t), NoBound, cond).Stopped?
    ensures var i := FindFrom(t, First(t), NoBound, cond).index;
      && (i < |t| ==> cond(t[i]).Yes?)
      && (forall j :: 0 <= j < |t| && cond(t[j]).Yes? ==> i < |t| && (j == i || Less(t[i].key, t[j].key)))
  {
    if t != [] {
      ScanSettles(t, 0, cond);
      ScanStopsAtFirst(t, 0, None, cond, ScanFrom(t, 0, None, cond).index);
    }
  }

  /** The keys a range erase removes when its cursors come from two lower bounds. */
  lemma KeysBetweenBounds(t: seq<Record>, lo: string, hi: string, key: string)
    requires Sorted(t) && Seek(t, lo) <= Seek(t, hi)
    ensures key in KeysBetween(t, Seek(t, lo), Seek(t, hi)) <==>
      key in Contents(t) && !Less(key, lo) && Less(key, hi)
  {
    SeekSplits(t, lo);
    SeekSplits(t, hi);
    if key in Contents(t) && !Less(key, lo) && Less(key, hi) {
      var i :| 0 <= i < |t| && t[i].key == key;
    }
  }
}
