/** The table layer with its cursors, updated in place (include/database/Table.hpp, ConstCursor.hpp, Cursor.hpp). */
module Tables {
  import opened Wrappers
  import opened Records
  import opened Cursors
  import S = TableSpec

  /** An update of the sorted table is an update of the map. */
  lemma UpdateWork(t: seq<Record>, key: string, value: string, result: S.Result)
    requires Sorted(t) && Has(t, key)
    ensures Sorted(Update(t, key, value))
    ensures S.Work(Contents(Update(t, key, value)), result) ==
      S.Exec(S.Work(Contents(t), result), S.Update(key, value, None))
  {
    HasIsMember(t, key);
    UpdateContents(t, key, value);
  }

  /** Erasing from one position up to another erases the keys in between. */
  lemma EraseWork(t: seq<Record>, lo: nat, hi: nat, result: S.Result)
    requires Sorted(t) && lo <= hi <= |t|
    ensures Sorted(Cut(t, lo, hi))
    ensures S.Work(Contents(Cut(t, lo, hi)), result) ==
      S.Exec(S.Work(Contents(t), result), S.Erase(KeysBetween(t, lo, hi)))
  {
    CutContents(t, lo, hi);
  }

  lemma EraseOneWork(t: seq<Record>, i: nat, result: S.Result)
    requires Sorted(t) && i < |t|
    ensures Sorted(Remove(t, i))
    ensures S.Work(Contents(Remove(t, i)), result) ==
      S.Exec(S.Work(Contents(t), result), S.Erase({t[i].key}))
  {
    RemoveContents(t, i);
  }

  lemma EraseNothingWork(t: seq<Record>, key: string, result: S.Result)
    requires Sorted(t) && !Has(t, key)
    ensures S.Work(Contents(t), result) == S.Exec(S.Work(Contents(t), result), S.Erase({key}))
  {
    HasIsMember(t, key);
    assert Contents(t) - {key} == Contents(t);
  }

  /** The part of a reader or writer that the table layer works on: its view of the table, the result mark and
      the cursors the engine keeps up to date. */
  class Txn {
    var records: seq<Record>
    var result: S.Result
    var cursors: set<Cursor>

    ghost predicate Valid()
      reads this
    {
      Sorted(records)
    }

    ghost function Work(): S.Work
      requires Valid()
      reads this
    {
      S.Work(Contents(records), result)
    }

    constructor (records: seq<Record>)
      requires Sorted(records)
      ensures Valid() && this.records == records && result == S.OK && cursors == {}
    {
      this.records, result, cursors := records, S.OK, {};
    }

    /** What every `catch` block of the table layer does. */
    method Mark(what: string)
      modifies this`result
      ensures result == S.Result(S.Error, what)
    {
      result := S.Result(S.Error, what);
    }

    /** Opens a cursor of the engine and wraps it; `failed` is the error code handed to the constructor. */
    method MakeCursor(raw: Position, failed: bool) returns (c: Cursor)
      modifies this`cursors
      ensures fresh(c) && c.txn == this && cursors == old(cursors) + {c}
      ensures c.raw == raw && c.end == (failed || Eof(|records|, raw))
    {
      c := new Cursor(this, raw, failed);
      cursors := cursors + {c};
    }
  }

  class Cursor {
    const txn: Txn
    var end: bool
    var raw: Position

    /** A cursor that is not finished sits on a cursor of the engine. */
    ghost predicate Valid()
      reads this, txn
    {
      this in txn.cursors && (raw.Unset? ==> end)
    }

    ghost function Spot(): Spot
      requires raw.Unset? ==> end
      reads this
    {
      if end then Past else Slot(raw.index)
    }

    constructor (txn: Txn, raw: Position, failed: bool)
      ensures this.txn == txn && this.raw == raw && end == (failed || Eof(|txn.records|, raw))
    {
      this.txn, this.raw := txn, raw;
      end := failed || raw.Unset? || raw.index >= |txn.records|;
    }

    method Current() returns (a: Answer<Record>)
      requires Valid()
      ensures end ==> a == Throws(BAD_CURSOR)
      ensures !end && raw.index >= |txn.records| ==> a == Throws(BAD_CURRENT)
      ensures !end && raw.index < |txn.records| ==> a == Value(txn.records[raw.index])
    {
      if end {
        return Throws(BAD_CURSOR);
      }
      if raw.index >= |txn.records| {
        return Throws(BAD_CURRENT);
      }
      a := Value(txn.records[raw.index]);
    }

    /** `equal`, with null for the end marker. Comparing two cursors by key and value is comparing them by
        position. */
    method Equal(other: Cursor?) returns (a: Answer<bool>)
      requires Valid() && txn.Valid()
      requires other != null ==> other.Valid() && other.txn == txn
      ensures a == Equals(|txn.records|, Spot(), BoundOf(other))
    {
      if other == null {
        return Value(end);
      }
      if end || other.end {
        return Value(end == other.end);
      }
      var mine := Current();
      if mine.Throws? {
        return Throws(mine.what);
      }
      var theirs := other.Current();
      if theirs.Throws? {
        return Throws(theirs.what);
      }
      KeyPosition(txn.records, raw.index, other.raw.index);
      a := Value(mine.value.key == theirs.value.key && mine.value.value == theirs.value.value);
    }

    /** `operator++`; the answer is false where it throws. */
    method Next() returns (ok: bool)
      requires Valid()
      modifies this
      ensures Valid() && ok == !old(end)
      ensures ok ==> raw == ToNext(old(raw)) && end == Eof(|txn.records|, raw)
      ensures !ok ==> end == old(end) && raw == old(raw)
    {
      if end {
        return false;
      }
      raw := ToNext(raw);
      end := raw.index >= |txn.records|;
      ok := true;
    }

    /** `setRawValue` writes the record under the cursor. */
    method SetRawValue(value: string) returns (thrown: Option<string>)
      requires Valid() && txn.Valid()
      modifies txn`records
      ensures txn.Valid() && |txn.records| == |old(txn.records)|
      ensures thrown.Some? <==> end || raw.index >= |old(txn.records)|
      ensures thrown.Some? ==> txn.records == old(txn.records)
      ensures thrown.None? ==>
        && txn.records == old(txn.records)[raw.index := Record(old(txn.records)[raw.index].key, value)]
        && txn.Work() == S.Exec(old(txn.Work()), S.Update(old(txn.records)[raw.index].key, value, None))
    {
      var here := Current();
      if here.Throws? {
        return Some(here.what);
      }
      SeekFinds(txn.records, raw.index);
      UpdateWork(txn.records, here.value.key, value, txn.result);
      txn.records := txn.records[raw.index := Record(here.value.key, value)];
      thrown := None;
    }
  }

  /** The end of a loop over cursors; null is the end marker. */
  ghost function BoundOf(c: Cursor?): Bound
    requires c != null ==> (c.raw.Unset? ==> c.end)
    reads c
  {
    if c == null then NoBound else UpTo(c.Spot())
  }

  /** Where the engine's cursor is left by a scan that ends at position `i`: a scan from a finished cursor has not
      moved it. */
  predicate StandsAt(n: nat, finished: bool, from: Position, raw: Position, i: nat) {
    if finished then raw == from
    else if i >= n then Eof(n, raw)
    else raw.At? && raw.index == i
  }

  /** The cursors of the transaction but one stand where the removal of the positions from `lo` to `hi` has left them;
      `was` says where they stood before. */
  ghost predicate Followed(txn: Txn, but: Cursor, was: map<Cursor, Position>, lo: nat, hi: nat)
    reads txn, txn.cursors
  {
    && lo <= hi
    && forall d :: d in txn.cursors && d != but ==> d in was && d.raw == AfterCut(was[d], lo, hi)
  }

  /** `b` is where the end cursor stood before the range erase; a cursor that bounds itself has not moved. */
  ghost predicate Bounds(begin: Cursor, end: Cursor?, was: map<Cursor, Position>, b: Bound, k: nat)
    requires begin.raw.Unset? ==> begin.end
    reads begin, end
  {
    if end == null then b == NoBound
    else if end == begin then k == 0 && b == UpTo(begin.Spot())
    else end in was && if end.end then b == UpTo(Past) else was[end].At? && b == UpTo(Slot(was[end].index))
  }

  /** The range erase from `a` up to `b` in the records `t` has removed `k` of them. */
  ghost predicate Erasing(
      begin: Cursor, end: Cursor?, was: map<Cursor, Position>, t: seq<Record>, a: Spot, b: Bound, k: nat)
    reads begin, begin.txn, begin.txn.cursors, end
  {
    && begin.txn.Valid() && begin.Valid() && (end != null ==> end.txn == begin.txn && end.Valid())
    && Reached(|t|, a, b, k, begin.Spot())
    && begin.txn.records == Cut(t, StartOf(|t|, a), StartOf(|t|, a) + k)
    && Followed(begin.txn, begin, was, StartOf(|t|, a), StartOf(|t|, a) + k)
    && Bounds(begin, end, was, b, k)
  }

  lemma BoundFollows(
      begin: Cursor, end: Cursor?, was: map<Cursor, Position>, t: seq<Record>, a: Spot, b: Bound, k: nat)
    requires Erasing(begin, end, was, t, a, b, k)
    ensures BoundOf(end) == BoundAfter(b, StartOf(|t|, a), k)
    ensures end == begin ==> Equals(|t| - k, begin.Spot(), BoundOf(end)) != Value(false)
  {
  }

  /** Where the next test of that loop ends it. */
  lemma TestEnds(begin: Cursor, end: Cursor?, was: map<Cursor, Position>, t: seq<Record>, a: Spot, b: Bound, k: nat)
    requires Erasing(begin, end, was, t, a, b, k)
    ensures var p, met := StartOf(|t|, a), Equals(|begin.txn.records|, begin.Spot(), BoundOf(end));
      && (met.Throws? || (met == Value(false) && begin.end) ==> Range(|t|, a, b).None?)
      && (met == Value(true) ==>
            Range(|t|, a, b) == Some((p, p + k)) && begin.Spot() == if p + k == |t| then Past else Slot(p))
  {
    BoundFollows(begin, end, was, t, a, b, k);
    RoundDecides(|t|, a, b, k, begin.Spot());
  }

  /** The operations of a table; the table itself has no mutable state. */
  class Table {
    constructor () {}

    method Begin(txn: Txn) returns (c: Cursor)
      requires txn.Valid()
      modifies txn`cursors
      ensures fresh(c) && c.txn == txn && c.Valid() && txn.cursors == old(txn.cursors) + {c}
      ensures c.Spot() == First(txn.records) && c.raw == At(0, false)
    {
      c := txn.MakeCursor(At(0, false), |txn.records| == 0);
    }

    method Empty(txn: Txn) returns (b: bool)
      requires txn.Valid()
      modifies txn`cursors
      ensures b <==> Contents(txn.records) == map[]
    {
      var c := Begin(txn);
      var a := c.Equal(null);
      b := a.value;
      assert txn.records != [] ==> txn.records[0].key in Contents(txn.records);
    }

    method Get(txn: Txn, key: string) returns (c: Cursor)
      requires txn.Valid()
      modifies txn`cursors
      ensures fresh(c) && c.txn == txn && c.Valid() && txn.cursors == old(txn.cursors) + {c}
      ensures !c.end <==> key in Contents(txn.records)
      ensures c.raw == if c.end then Unset else At(Seek(txn.records, key), false)
      ensures !c.end ==>
        && c.raw.index < |txn.records|
        && txn.records[c.raw.index] == Record(key, Contents(txn.records)[key])
    {
      HasIsMember(txn.records, key);
      var i := Seek(txn.records, key);
      var found := i < |txn.records| && txn.records[i].key == key;
      c := txn.MakeCursor(if found then At(i, false) else Unset, !found);
    }

    /** The cursor stands at the least key that is not less than `key`, or is finished if there is none. */
    method LowerBound(txn: Txn, key: string) returns (c: Cursor)
      requires txn.Valid()
      modifies txn`cursors
      ensures fresh(c) && c.txn == txn && c.Valid() && txn.cursors == old(txn.cursors) + {c}
      ensures c.end <==> forall k :: k in Contents(txn.records) ==> Less(k, key)
      ensures c.raw == At(Seek(txn.records, key), false)
      ensures !c.end ==>
        && c.raw.index < |txn.records|
        && !Less(txn.records[c.raw.index].key, key)
        && forall k :: k in Contents(txn.records) && !Less(k, key) ==> !Less(k, txn.records[c.raw.index].key)
    {
      var t := txn.records;
      var i := Seek(t, key);
      SeekSplits(t, key);
      if i < |t| {
        assert t[i].key in Contents(t);
        forall k | k in Contents(t) && !Less(k, key) ensures !Less(k, t[i].key) {
          var j :| 0 <= j < |t| && t[j].key == k;
          LessTotal(t[i].key, t[j].key);
        }
      }
      c := txn.MakeCursor(At(i, false), i == |t|);
    }

    method InsertNew(txn: Txn, key: string, value: string) returns (c: Cursor)
      requires txn.Valid() && !Has(txn.records, key)
      modifies txn`records, txn`cursors, txn.cursors`raw
      ensures txn.Valid() && Contents(txn.records) == old(Contents(txn.records))[key := value]
      ensures fresh(c) && c.txn == txn && c.Valid() && txn.cursors == old(txn.cursors) + {c}
      ensures !c.end && c.raw.index < |txn.records| && txn.records[c.raw.index] == Record(key, value)
      ensures c.raw == At(Seek(old(txn.records), key), false)
      ensures forall d :: d in old(txn.cursors) ==> d.raw == AfterInsert(old(d.raw), c.raw.index)
    {
      var t := txn.records;
      var i := Seek(t, key);
      InsertContents(t, key, value);
      txn.records := t[..i] + [Record(key, value)] + t[i..];
      forall d | d in txn.cursors {
        d.raw := AfterInsert(d.raw, i);
      }
      c := txn.MakeCursor(At(i, false), false);
    }

    /** On a failure the cursor is finished; if the key is present, the engine's cursor underneath it stands at that
        key. */
    method Insert(txn: Txn, key: string, value: string, fault: Option<string>) returns (c: Cursor)
      requires txn.Valid()
      modifies txn, txn.cursors`raw
      ensures txn.Valid() && txn.Work() == S.Exec(old(txn.Work()), S.Insert(key, value, fault))
      ensures fresh(c) && c.txn == txn && c.Valid() && txn.cursors == old(txn.cursors) + {c}
      ensures c.end <==> fault.Some? || key in old(Contents(txn.records))
      ensures c.raw == if fault.Some? then Unset else At(Seek(old(txn.records), key), false)
      ensures !c.end ==> c.raw.index < |txn.records| && txn.records[c.raw.index] == Record(key, value)
      ensures !c.end ==> forall d :: d in old(txn.cursors) ==> d.raw == AfterInsert(old(d.raw), c.raw.index)
      ensures c.end ==> txn.records == old(txn.records) && forall d :: d in old(txn.cursors) ==> d.raw == old(d.raw)
    {
      if fault.Some? {
        txn.Mark(fault.value);
        c := txn.MakeCursor(Unset, true);
        return;
      }
      var t := txn.records;
      HasIsMember(t, key);
      var i := Seek(t, key);
      if i < |t| && t[i].key == key {
        txn.Mark(S.KEY_EXISTS);
        c := txn.MakeCursor(At(i, false), true);
        return;
      }
      c := InsertNew(txn, key, value);
    }

    method Update(txn: Txn, key: string, value: string, fault: Option<string>) returns (c: Cursor)
      requires txn.Valid()
      modifies txn
      ensures txn.Valid() && txn.Work() == S.Exec(old(txn.Work()), S.Update(key, value, fault))
      ensures fresh(c) && c.txn == txn && c.Valid() && txn.cursors == old(txn.cursors) + {c}
      ensures c.end <==> fault.Some? || key !in old(Contents(txn.records))
      ensures c.raw == if c.end then Unset else At(Seek(old(txn.records), key), false)
      ensures !c.end ==> c.raw.index < |txn.records| && txn.records[c.raw.index] == Record(key, value)
    {
      if fault.Some? {
        txn.Mark(fault.value);
        c := txn.MakeCursor(Unset, true);
        return;
      }
      var t := txn.records;
      HasIsMember(t, key);
      var i := Seek(t, key);
      if i == |t| || t[i].key != key {
        txn.Mark(S.NOT_FOUND);
        c := txn.MakeCursor(Unset, true);
        return;
      }
      UpdateWork(t, key, value, txn.result);
      txn.records := t[i := Record(key, value)];
      c := txn.MakeCursor(At(i, false), false);
    }

    method Upsert(txn: Txn, key: string, value: string, fault: Option<string>) returns (c: Cursor)
      requires txn.Valid()
      modifies txn, txn.cursors`raw
      ensures txn.Valid() && txn.Work() == S.Exec(old(txn.Work()), S.Upsert(key, value, fault))
      ensures fresh(c) && c.txn == txn && c.Valid() && txn.cursors == old(txn.cursors) + {c}
      ensures c.end <==> fault.Some?
      ensures c.raw == if c.end then Unset else At(Seek(old(txn.records), key), false)
      ensures !c.end ==> c.raw.index < |txn.records| && txn.records[c.raw.index] == Record(key, value)
      ensures forall d :: d in old(txn.cursors) ==>
        d.raw == if c.end || key in old(Contents(txn.records)) then old(d.raw) else AfterInsert(old(d.raw), c.raw.index)
    {
      HasIsMember(txn.records, key);
      S.UpsertIsInsertOrUpdate(txn.Work(), key, value, fault);
      if fault.Some? {
        txn.Mark(fault.value);
        c := txn.MakeCursor(Unset, true);
      } else if Has(txn.records, key) {
        c := Update(txn, key, value, None);
      } else {
        c := Insert(txn, key, value, None);
      }
    }

    /** Erases the record under the cursor; every open cursor of the transaction is kept up to date. */
    method EraseAt(cursor: Cursor)
      requires cursor.Valid() && cursor.txn.Valid()
      modifies cursor.txn`records, cursor.txn.cursors`raw
      ensures cursor.txn.Valid()
      ensures old(cursor.end || Eof(|cursor.txn.records|, cursor.raw)) ==>
        && cursor.txn.records == old(cursor.txn.records)
        && forall d :: d in cursor.txn.cursors ==> d.raw == old(d.raw)
      ensures !old(cursor.end || Eof(|cursor.txn.records|, cursor.raw)) ==>
        && cursor.txn.records == Remove(old(cursor.txn.records), old(cursor.raw.index))
        && forall d :: d in cursor.txn.cursors ==> d.raw == AfterErase(old(d.raw), old(cursor.raw.index))
    {
      if cursor.end {
        return;
      }
      var txn := cursor.txn;
      var i := cursor.raw.index;
      if i >= |txn.records| {
        return;
      }
      RemoveContents(txn.records, i);
      txn.records := txn.records[..i] + txn.records[i + 1..];
      forall d | d in txn.cursors {
        d.raw := AfterErase(d.raw, i);
      }
    }

    /** The body of the range erase and its increment; the answer is false where the increment throws. */
    method EraseAndStep(c: Cursor) returns (stepped: bool)
      requires c.Valid() && c.txn.Valid()
      modifies c.txn`records, c.txn.cursors`raw, c
      ensures c.txn.Valid() && c.Valid() && stepped == !old(c.end)
      ensures old(c.end || c.raw.index >= |c.txn.records|) ==>
        && c.end
        && c.txn.records == old(c.txn.records)
        && forall d :: d in c.txn.cursors && d != c ==> d.raw == old(d.raw)
      ensures !old(c.end || c.raw.index >= |c.txn.records|) ==>
        && c.txn.records == Remove(old(c.txn.records), old(c.raw.index))
        && c.raw == At(old(c.raw.index), false)
        && c.end == (c.raw.index == |c.txn.records|)
        && forall d :: d in c.txn.cursors && d != c ==> d.raw == AfterErase(old(d.raw), old(c.raw.index))
    {
      EraseAt(c);
      stepped := c.Next();
    }

    /** A round of the range erase that removes one more record behind the `k` that are gone. */
    method EraseOneMore(c: Cursor, ghost was: map<Cursor, Position>, ghost k: nat)
      requires c.Valid() && c.txn.Valid() && !c.end && c.raw.index < |c.txn.records|
      requires Followed(c.txn, c, was, c.raw.index, c.raw.index + k)
      modifies c.txn`records, c.txn.cursors`raw, c
      ensures c.txn.Valid() && c.Valid()
      ensures c.txn.records == Remove(old(c.txn.records), old(c.raw.index))
      ensures c.raw == At(old(c.raw.index), false) && c.end == (c.raw.index == |c.txn.records|)
      ensures Followed(c.txn, c, was, c.raw.index, c.raw.index + k + 1)
    {
      ghost var p := c.raw.index;
      var stepped := EraseAndStep(c);
      forall d | d in c.txn.cursors && d != c ensures d.raw == AfterCut(was[d], p, p + k + 1) {
        CutOneMore(was[d], p, k);
      }
    }

    /** One round of the range erase that has not met its end yet; the answer is false where the increment throws. */
    method EraseRound(begin: Cursor, end: Cursor?, ghost was: map<Cursor, Position>,
                      ghost t: seq<Record>, ghost a: Spot, ghost b: Bound, ghost k: nat)
      returns (stepped: bool, ghost more: nat)
      requires Erasing(begin, end, was, t, a, b, k)
      requires Equals(|begin.txn.records|, begin.Spot(), BoundOf(end)) == Value(false)
      modifies begin.txn`records, begin.txn.cursors`raw, begin
      ensures begin.txn.Valid() && stepped == !old(begin.end)
      ensures stepped ==> Erasing(begin, end, was, t, a, b, more)
      ensures stepped ==> more > k || (more == k && begin.end)
    {
      BoundFollows(begin, end, was, t, a, b, k);
      RoundDecides(|t|, a, b, k, begin.Spot());
      if begin.end || begin.raw.index >= |begin.txn.records| {
        stepped := EraseAndStep(begin);
        more := k;
      } else {
        EraseOneMore(begin, was, k);
        stepped, more := true, k + 1;
      }
    }

    /** The loop of the range erase. False stands for `std::terminate`: an exception that leaves the `noexcept`
        function because the loop ran past its end or met a cursor without a record. */
    method EraseLoop(begin: Cursor, end: Cursor?, ghost was: map<Cursor, Position>,
                     ghost t: seq<Record>, ghost a: Spot, ghost b: Bound)
      returns (finished: bool)
      requires Erasing(begin, end, was, t, a, b, 0)
      modifies begin.txn`records, begin.txn.cursors`raw, begin
      ensures begin.txn.Valid() && (finished <==> Range(|t|, a, b).Some?)
      ensures finished ==>
        var (lo, hi) := Range(|t|, a, b).value;
        && begin.Valid() && begin.txn.records == Cut(t, lo, hi)
        && begin.Spot() == (if hi == |t| then Past else Slot(lo))
        && Followed(begin.txn, begin, was, lo, hi)
    {
      ghost var k := 0;
      while true
        invariant Erasing(begin, end, was, t, a, b, k)
        decreases |t| - k, if begin.end then 0 else 1
      {
        TestEnds(begin, end, was, t, a, b, k);
        var met := begin.Equal(end);
        if met.Throws? {
          return false;
        }
        if met.value {
          break;
        }
        var stepped;
        stepped, k := EraseRound(begin, end, was, t, a, b, k);
        if !stepped {
          return false;
        }
      }
      finished := true;
    }

    /** Erases from `begin` up to `end`, null being the end marker: the keys in between and no others. Other cursors
        stay at their records, and those at a record that goes stand before the first record behind the range. */
    method EraseRange(begin: Cursor, end: Cursor?) returns (finished: bool)
      requires begin.Valid() && begin.txn.Valid()
      requires end != null ==> end.Valid() && end.txn == begin.txn
      modifies begin.txn`records, begin.txn.cursors`raw, begin
      ensures begin.txn.Valid()
      ensures finished <==> old(Range(|begin.txn.records|, begin.Spot(), BoundOf(end))).Some?
      ensures finished ==>
        var (lo, hi) := old(Range(|begin.txn.records|, begin.Spot(), BoundOf(end))).value;
        && begin.txn.records == Cut(old(begin.txn.records), lo, hi)
        && begin.txn.Work() == S.Exec(old(begin.txn.Work()), S.Erase(KeysBetween(old(begin.txn.records), lo, hi)))
        && begin.Valid()
        && begin.Spot() == (if hi == old(|begin.txn.records|) then Past else Slot(lo))
        && forall d :: d in begin.txn.cursors && d != begin ==> d.raw == AfterCut(old(d.raw), lo, hi)
    {
      ghost var t, a, b := begin.txn.records, begin.Spot(), BoundOf(end);
      finished := EraseLoop(begin, end, map d | d in begin.txn.cursors :: d.raw, t, a, b);
      if finished {
        EraseWork(t, Range(|t|, a, b).value.0, Range(|t|, a, b).value.1, begin.txn.result);
      }
    }

    /** `clear` always leaves the table empty. */
    method Clear(txn: Txn)
      requires txn.Valid()
      modifies txn`records, txn`cursors, txn.cursors`raw
      ensures txn.Valid() && txn.records == []
      ensures txn.Work() == S.Exec(old(txn.Work()), S.Erase(old(Contents(txn.records)).Keys))
      ensures forall d :: d in old(txn.cursors) ==> d.raw == AfterCut(old(d.raw), 0, old(|txn.records|))
    {
      var begin := Begin(txn);
      var finished := EraseRange(begin, null);
      assert Contents(txn.records) == map[];
    }

    method EraseKey(txn: Txn, key: string)
      requires txn.Valid()
      modifies txn`records, txn`cursors, txn.cursors`raw
      ensures txn.Valid() && txn.Work() == S.Exec(old(txn.Work()), S.Erase({key}))
      ensures forall d :: d in old(txn.cursors) ==>
        d.raw == if key !in old(Contents(txn.records)) then old(d.raw)
                 else AfterErase(old(d.raw), Seek(old(txn.records), key))
    {
      var t := txn.records;
      HasIsMember(t, key);
      var i := Seek(t, key);
      if i == |t| || t[i].key != key {
        EraseNothingWork(t, key, txn.result);
        return;
      }
      EraseOneWork(t, i, txn.result);
      var c := txn.MakeCursor(At(i, false), false);
      EraseAt(c);
    }

    /** The test and the body of the loop of `find`. */
    method Probe(i: Cursor, end: Cursor?, cond: Record -> Verdict) returns (v: Verdict)
      requires i.Valid() && i.txn.Valid()
      requires end != null ==> end.Valid() && end.txn == i.txn
      ensures v == Round(i.txn.records, i.Spot(), BoundOf(end), cond)
    {
      var met := i.Equal(end);
      if met.Throws? {
        return Raises(met.what);
      }
      if met.value {
        return Yes;
      }
      var record := i.Current();
      if record.Throws? {
        return Raises(record.what);
      }
      v := cond(record.value);
    }

    /** The loop of `find`, inside its `try` block. */
    method Scan(begin: Cursor, end: Cursor?, cond: Record -> Verdict) returns (what: Option<string>)
      requires begin.Valid() && begin.txn.Valid()
      requires end != null ==> end.Valid() && end.txn == begin.txn
      modifies begin
      ensures begin.Valid()
      ensures var f := old(FindFrom(begin.txn.records, begin.Spot(), BoundOf(end), cond));
        && what == (if f.Failed? then Some(f.what) else None)
        && StandsAt(|begin.txn.records|, old(begin.end), old(begin.raw), begin.raw, f.index)
    {
      var txn := begin.txn;
      ghost var t, a, b := txn.records, begin.Spot(), BoundOf(end);
      ghost var f := FindFrom(t, a, b, cond);
      while true
        invariant begin.Valid() && (end != null ==> end.Valid()) && BoundOf(end) == b
        invariant FindFrom(t, begin.Spot(), b, cond) == f
        invariant a.Past? ==> begin.Spot() == a && begin.raw == old(begin.raw)
        invariant a.Slot? && begin.end ==> Eof(|t|, begin.raw)
        decreases if begin.end then 0 else |t| + 1 - begin.raw.index, if begin.raw.At? && begin.raw.gone then 1 else 0
      {
        RoundScans(t, begin.Spot(), b, cond);
        var v := Probe(begin, end, cond);
        if v.Raises? {
          return Some(v.what);
        }
        if v.Yes? {
          return None;
        }
        var stepped := begin.Next();
      }
    }

    /** Scans from `begin` up to `end`, null being the end marker. The cursor returned stands where the scan
        stopped; a scan that throws marks the transaction and returns a finished cursor. */
    method Find(begin: Cursor, end: Cursor?, cond: Record -> Verdict) returns (c: Cursor)
      requires begin.Valid() && begin.txn.Valid()
      requires end != null ==> end.Valid() && end.txn == begin.txn
      modifies begin.txn`result, begin.txn`cursors, begin
      ensures fresh(c) && c.txn == begin.txn && c.Valid() && c.txn.cursors == old(begin.txn.cursors) + {c}
      ensures var f := old(FindFrom(begin.txn.records, begin.Spot(), BoundOf(end), cond));
        && c.txn.Valid()
        && c.txn.Work() == (if f.Failed? then S.Exec(old(begin.txn.Work()), S.Fail(f.what)) else old(begin.txn.Work()))
        && c.txn.result == (if f.Failed? then S.Result(S.Error, f.what) else old(begin.txn.result))
        && c.end == (f.Failed? || Eof(|c.txn.records|, c.raw))
        && StandsAt(|c.txn.records|, old(begin.end), old(begin.raw), c.raw, f.index)
    {
      var txn := begin.txn;
      var what := Scan(begin, end, cond);
      if what.Some? {
        txn.Mark(what.value);
      }
      c := txn.MakeCursor(begin.raw, what.Some?);
      begin.raw := Unset;
    }

    /** Searching on from what a failing `insert` returned: although that cursor is finished, the search returns one
        that is not, at the key that was present, unless the engine failed for reasons of its own. */
    method FindAfterInsert(txn: Txn, key: string, value: string, fault: Option<string>, cond: Record -> Verdict)
      returns (c: Cursor)
      requires txn.Valid() && (fault.Some? || key in Contents(txn.records))
      modifies txn, txn.cursors`raw
      ensures txn.Valid() && txn.Work() == S.Exec(old(txn.Work()), S.Insert(key, value, fault))
      ensures c.txn == txn && (c.end <==> fault.Some?)
      ensures !c.end ==> c.raw.At? && c.raw.index < |txn.records| && txn.records[c.raw.index].key == key
    {
      HasIsMember(txn.records, key);
      var failed := Insert(txn, key, value, fault);
      c := Find(failed, null, cond);
    }

    /** Searching on from what a search returned that came to the end or threw: the search returns a finished cursor
        exactly if the first one had no record under it any more. */
    method FindAfterFind(begin: Cursor, end: Cursor?, cond: Record -> Verdict, again: Record -> Verdict)
      returns (c: Cursor)
      requires begin.Valid() && begin.txn.Valid() && !begin.end
      requires end != null ==> end.Valid() && end.txn == begin.txn
      requires var f := FindFrom(begin.txn.records, begin.Spot(), BoundOf(end), cond);
        f.Failed? || f.index >= |begin.txn.records|
      modifies begin.txn, begin.txn.cursors
      ensures var f := old(FindFrom(begin.txn.records, begin.Spot(), BoundOf(end), cond));
        && c.txn == begin.txn
        && (c.end <==> f.index >= |c.txn.records|)
        && (!c.end ==> c.raw.At? && c.raw.index == f.index)
    {
      var finished := Find(begin, end, cond);
      c := Find(finished, null, again);
    }

    /** Searching on from what an unsuccessful `get` or `lowerBound` returned gives a finished cursor. */
    method FindAfterMiss(txn: Txn, key: string, exactly: bool, cond: Record -> Verdict) returns (c: Cursor)
      requires txn.Valid()
      requires if exactly then key !in Contents(txn.records) else forall k :: k in Contents(txn.records) ==> Less(k, key)
      modifies txn
      ensures c.txn == txn && c.end && txn.Valid() && txn.Work() == old(txn.Work())
    {
      var missed;
      if exactly {
        missed := Get(txn, key);
      } else {
        missed := LowerBound(txn, key);
      }
      c := Find(missed, null, cond);
    }
  }
}
