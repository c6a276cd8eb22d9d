/** What an open reader can ask of a table, stated on the map of its contents, and how it is answered on the sorted
    sequence of its records (include/database/Table.hpp, include/database/ConstCursor.hpp). */
module Lookups {
  import opened Wrappers
  import opened Records
  import opened Cursors

  type Table = map<string, string>

  /** The keys a look-up admits. */
  datatype From = Any | AtLeast(key: string) | After(key: string)

  predicate Admits(from: From, key: string) {
    match from
    case Any => true
    case AtLeast(k) => !Less(key, k)
    case After(k) => Less(k, key)
  }

  /** `a` is the record with the least admitted key, and nothing if no key is admitted. */
  predicate IsLeast(t: Table, from: From, a: Option<Record>) {
    match a
    case None => forall k :: k in t ==> !Admits(from, k)
    case Some(r) =>
      && r.key in t && t[r.key] == r.value && Admits(from, r.key)
      && forall k :: k in t && Admits(from, k) ==> !Less(k, r.key)
  }

  function RecordOf(t: Table, key: string): Option<Record> {
    if key in t then Some(Record(key, t[key])) else None
  }

  /** Every look-up has an answer, and only one. */
  lemma {:induction false} LeastExists(t: Table, from: From) returns (a: Option<Record>)
    ensures IsLeast(t, from, a)
    decreases |t|
  {
    if k :| k in t && Admits(from, k) {
      var rest := LeastExists(t - {k}, from);
      assert forall x :: x in t <==> x == k || x in t - {k};
      LessTotal(k, k);
      if rest.None? || Less(k, rest.value.key) {
        a := RecordOf(t, k);
        forall x | x in t - {k} && Admits(from, x) ensures !Less(x, k) {
          LessTotal(x, k);
          if Less(x, k) {
            LessTransitive(x, k, rest.value.key);
          }
        }
      } else {
        a := rest;
      }
    } else {
      a := None;
    }
  }

  lemma LeastIsUnique(t: Table, from: From, a: Option<Record>, b: Option<Record>)
    requires IsLeast(t, from, a) && IsLeast(t, from, b)
    ensures a == b
  {
    if a.Some? && b.Some? {
      LessTotal(a.value.key, b.value.key);
    }
  }

  /** A record of a sorted table by position, nothing at its end. */
  function RecordAt(t: seq<Record>, i: nat): Option<Record> {
    if i < |t| then Some(t[i]) else None
  }

  /** In a sorted table the least admitted record is the first one behind those that are not admitted. */
  lemma LeastIsFirst(t: seq<Record>, from: From, i: nat)
    requires Sorted(t) && i <= |t|
    requires forall j :: 0 <= j < |t| ==> (Admits(from, t[j].key) <==> i <= j)
    ensures IsLeast(Contents(t), from, RecordAt(t, i))
  {
    forall k | k in Contents(t) && Admits(from, k) ensures i < |t| && !Less(k, t[i].key) {
      var j :| 0 <= j < |t| && t[j].key == k;
      LessTotal(t[i].key, k);
    }
  }

  /** The first record is the one at position 0. */
  lemma FirstRecord(t: seq<Record>, a: Option<Record>)
    requires Sorted(t)
    ensures IsLeast(Contents(t), Any, a) <==> a == RecordAt(t, 0)
  {
    LeastIsFirst(t, Any, 0);
    if IsLeast(Contents(t), Any, a) {
      LeastIsUnique(Contents(t), Any, a, RecordAt(t, 0));
    }
  }

  /** `lowerBound` answers with the record at the position that the engine seeks and that `find` stops at. */
  lemma LowerBoundRecord(t: seq<Record>, key: string, a: Option<Record>)
    requires Sorted(t)
    ensures IsLeast(Contents(t), AtLeast(key), a) <==> a == RecordAt(t, Seek(t, key))
    ensures FindFrom(t, First(t), NoBound, KeyAtLeast(key)) == Stopped(Seek(t, key))
  {
    SeekSplits(t, key);
    LeastIsFirst(t, AtLeast(key), Seek(t, key));
    if IsLeast(Contents(t), AtLeast(key), a) {
      LeastIsUnique(Contents(t), AtLeast(key), a, RecordAt(t, Seek(t, key)));
    }
    FindAgreesWithLowerBound(t, key);
  }

  /** `get` answers with the record that `find` finds. */
  lemma GetRecord(t: seq<Record>, key: string)
    requires Sorted(t)
    ensures RecordOf(Contents(t), key) == if Has(t, key) then RecordAt(t, Seek(t, key)) else None
    ensures var found := FindFrom(t, First(t), NoBound, KeyIs(key));
      found.Stopped? && RecordOf(Contents(t), key) == RecordAt(t, found.index)
  {
    HasIsMember(t, key);
    FindAgreesWithGet(t, key);
  }

  /** An increment leads from a record to the one at the next position. */
  lemma NextRecord(t: seq<Record>, i: nat, a: Option<Record>)
    requires Sorted(t) && i < |t|
    ensures IsLeast(Contents(t), After(t[i].key), a) <==> a == RecordAt(t, i + 1)
  {
    forall j | 0 <= j < |t| ensures Admits(After(t[i].key), t[j].key) <==> i + 1 <= j {
      LessTotal(t[i].key, t[j].key);
    }
    LeastIsFirst(t, After(t[i].key), i + 1);
    if IsLeast(Contents(t), After(t[i].key), a) {
      LeastIsUnique(Contents(t), After(t[i].key), a, RecordAt(t, i + 1));
    }
  }

  /** A question of a reader. The first three open the cursor `c`, the last one increments it. */
  datatype Query =
    | Front(c: nat, table: string)
    | Get(c: nat, table: string, key: string)
    | LowerBound(c: nat, table: string, key: string)
    | Increment(c: nat)

  /** An open cursor: its table and the key it stands at, none if it is finished. */
  datatype Mark = Mark(table: string, at: Option<string>)

  /** `a` is what the tables in `store` answer to `q`. An increment of a finished cursor throws and reads nothing. */
  predicate Answers(store: map<string, Table>, cursors: map<nat, Mark>, q: Query, a: Option<Record>) {
    match q
    case Front(_, table) => table in store && IsLeast(store[table], Any, a)
    case Get(_, table, key) => table in store && a == RecordOf(store[table], key)
    case LowerBound(_, table, key) => table in store && IsLeast(store[table], AtLeast(key), a)
    case Increment(c) =>
      && c in cursors && cursors[c].at.Some? && cursors[c].table in store
      && IsLeast(store[cursors[c].table], After(cursors[c].at.value), a)
  }

  function TableOf(cursors: map<nat, Mark>, q: Query): string
    requires q.Increment? ==> q.c in cursors
  {
    if q.Increment? then cursors[q.c].table else q.table
  }

  /** The cursors after the question was answered. */
  function Moved(cursors: map<nat, Mark>, q: Query, a: Option<Record>): map<nat, Mark>
    requires q.Increment? ==> q.c in cursors
  {
    cursors[q.c := Mark(TableOf(cursors, q), if a.Some? then Some(a.value.key) else None)]
  }

  /** Where an opened cursor stands in the sorted table. */
  function Opening(t: seq<Record>, q: Query): nat
    requires !q.Increment?
  {
    match q
    case Front(_, _) => 0
    case Get(_, _, key) => if Has(t, key) then Seek(t, key) else |t|
    case LowerBound(_, _, key) => Seek(t, key)
  }

  lemma OpeningAnswer(t: seq<Record>, store: map<string, Table>, cursors: map<nat, Mark>, q: Query, a: Option<Record>)
    requires !q.Increment? && Answers(store, cursors, q, a)
    requires Sorted(t) && Contents(t) == store[q.table]
    ensures a == RecordAt(t, Opening(t, q))
  {
    match q {
      case Front(_, _) => FirstRecord(t, a);
      case Get(_, _, key) => GetRecord(t, key);
      case LowerBound(_, _, key) => LowerBoundRecord(t, key, a);
    }
  }
}
