/** What the calls on a table mean: a finite map together with the result mark of the transaction
    (include/database/Table.hpp, include/util/Result.hpp). */
module TableSpec {
  import opened Wrappers

  datatype Code = Success | Error | Critical
  datatype Result = Result(code: Code, message: string) {
    predicate IsOk() { code.Success? }
  }

  const OK := Result(Success, "")
  const KEY_EXISTS := "key exists"
  const NOT_FOUND := "not found"

  type Table = map<string, string>

  datatype Work = Work(table: Table, result: Result)

  /** `fault` is an exception the storage engine throws for reasons of its own. `Fail` is a scan that ends in an
      exception. */
  datatype Call =
    | Insert(key: string, value: string, fault: Option<string>)
    | Update(key: string, value: string, fault: Option<string>)
    | Upsert(key: string, value: string, fault: Option<string>)
    | Erase(keys: set<string>)
    | Fail(what: string)

  /** The text of the exception the engine throws for a call, if it throws one. */
  function Thrown(t: Table, c: Call): Option<string> {
    match c
    case Insert(key, _, fault) => if fault.Some? then fault else if key in t then Some(KEY_EXISTS) else None
    case Update(key, _, fault) => if fault.Some? then fault else if key !in t then Some(NOT_FOUND) else None
    case Upsert(_, _, fault) => fault
    case Erase(_) => None
    case Fail(what) => Some(what)
  }

  function Exec(w: Work, c: Call): Work {
    if Thrown(w.table, c).Some? then w.(result := Result(Error, Thrown(w.table, c).value))
    else match c
      case Insert(key, value, _) => w.(table := w.table[key := value])
      case Update(key, value, _) => w.(table := w.table[key := value])
      case Upsert(key, value, _) => w.(table := w.table[key := value])
      case Erase(keys) => w.(table := w.table - keys)
      case Fail(_) => w
  }

  function ExecAll(w: Work, calls: seq<Call>): Work
    decreases |calls|
  {
    if calls == [] then w else ExecAll(Exec(w, calls[0]), calls[1..])
  }

  /** `upsert` is `insert` where the key is absent and `update` where it is present. */
  lemma UpsertIsInsertOrUpdate(w: Work, key: string, value: string, fault: Option<string>)
    ensures Exec(w, Upsert(key, value, fault)) ==
      if key in w.table then Exec(w, Update(key, value, fault)) else Exec(w, Insert(key, value, fault))
  {
  }

  /** An `insert` or `update` fails exactly on a fault or on a key that is present (absent); a failing call leaves
      the records alone and marks the transaction, a succeeding one leaves the mark alone. */
  lemma FailureMarks(w: Work, c: Call)
    requires c.Insert? || c.Update?
    ensures var failed := c.fault.Some? || (c.Insert? <==> c.key in w.table);
      && (failed ==> Exec(w, c) == Work(w.table, Result(Error,
           if c.fault.Some? then c.fault.value else if c.Insert? then "key exists" else "not found")))
      && (!failed ==> Exec(w, c) == Work(w.table[c.key := c.value], w.result))
  {
  }

  /** No sequence of table calls clears a mark. */
  lemma {:induction false} MarkIsSticky(w: Work, calls: seq<Call>)
    requires !w.result.code.Success?
    ensures !ExecAll(w, calls).result.code.Success?
    decreases |calls|
  {
    if calls != [] {
      MarkIsSticky(Exec(w, calls[0]), calls[1..]);
    }
  }

  /** Nothing is thrown when `calls` are made one after the other. */
  predicate NothingThrown(w: Work, calls: seq<Call>)
    decreases |calls|
  {
    calls == [] || (Thrown(w.table, calls[0]).None? && NothingThrown(Exec(w, calls[0]), calls[1..]))
  }

  /** The table calls of a transaction leave its mark ok exactly when none of them threw. */
  lemma {:induction false} OkMeansNothingThrown(w: Work, calls: seq<Call>)
    requires w.result.code.Success?
    ensures ExecAll(w, calls).result.code.Success? <==> NothingThrown(w, calls)
    decreases |calls|
  {
    if calls != [] {
      if Thrown(w.table, calls[0]).Some? {
        MarkIsSticky(Exec(w, calls[0]), calls[1..]);
      } else {
        OkMeansNothingThrown(Exec(w, calls[0]), calls[1..]);
      }
    }
  }

  /** The calls that throw nothing when all are made one after the other. */
  function Succeeding(w: Work, calls: seq<Call>): seq<Call>
    decreases |calls|
  {
    if calls == [] then []
    else (if Thrown(w.table, calls[0]).None? then [calls[0]] else []) + Succeeding(Exec(w, calls[0]), calls[1..])
  }

  /** A failing call changes no record: the records after any sequence of calls are those after its succeeding calls
      alone, which leave the mark as it was. */
  lemma {:induction false} FailedCallsVanish(w: Work, calls: seq<Call>, result: Result)
    ensures ExecAll(Work(w.table, result), Succeeding(w, calls)) == Work(ExecAll(w, calls).table, result)
    decreases |calls|
  {
    if calls != [] {
      var c := calls[0];
      if c.Insert? || c.Update? {
        FailureMarks(w, c);
      }
      var rest := Succeeding(Exec(w, c), calls[1..]);
      FailedCallsVanish(Exec(w, c), calls[1..], result);
      if Thrown(w.table, c).None? {
        assert Succeeding(w, calls)[1..] == rest;
        assert Exec(Work(w.table, result), c) == Work(Exec(w, c).table, result);
      } else {
        assert Succeeding(w, calls) == rest;
      }
    }
  }
}
