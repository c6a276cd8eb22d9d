/** The double-checked construction of `Singleton::instance` for any number of threads (include/util/Singleton.hpp).
    Objects are numbered in the order of their construction. */
module Singleton {
  import opened Wrappers
  import opened Runs

  /** Where a thread is: before the first load; having found null; holding the mutex; having found null again;
      having constructed an object; having stored it; before the last load; returned. */
  datatype Stage =
    | Start
    | FoundNull
    | Holding
    | FoundNullAgain
    | Constructed(ptr: nat)
    | Unlocking
    | Loading
    | Returned(result: Option<nat>)

  /** `instance` is the static pointer, `owner` who holds the mutex, `built` how many objects were constructed. */
  datatype State = State(instance: Option<nat>, owner: Option<nat>, built: nat, threads: map<nat, Stage>)

  const INIT := State(None, None, 0, map[])

  datatype Event =
    | Call(t: nat)
    | FirstLoad(t: nat)
    | Acquire(t: nat)
    | SecondLoad(t: nat)
    | Construct(t: nat)
    | Store(t: nat)
    | Unlock(t: nat)
    | LastLoad(t: nat)

  predicate At(s: State, t: nat, stage: Stage) {
    t in s.threads && s.threads[t] == stage
  }

  predicate Enabled(s: State, e: Event) {
    match e
    case Call(t) => t !in s.threads || s.threads[t].Returned?
    case FirstLoad(t) => At(s, t, Start)
    case Acquire(t) => At(s, t, FoundNull) && s.owner.None?
    case SecondLoad(t) => At(s, t, Holding)
    case Construct(t) => At(s, t, FoundNullAgain)
    case Store(t) => t in s.threads && s.threads[t].Constructed?
    case Unlock(t) => At(s, t, Unlocking)
    case LastLoad(t) => At(s, t, Loading)
  }

  function Go(s: State, t: nat, stage: Stage): State {
    s.(threads := s.threads[t := stage])
  }

  function Step(s: State, e: Event): State
    requires Enabled(s, e)
  {
    match e
    case Call(t) => Go(s, t, Start)
    case FirstLoad(t) => Go(s, t, if s.instance.None? then FoundNull else Loading)
    case Acquire(t) => Go(s.(owner := Some(t)), t, Holding)
    case SecondLoad(t) => Go(s, t, if s.instance.None? then FoundNullAgain else Unlocking)
    case Construct(t) => Go(s.(built := s.built + 1), t, Constructed(s.built))
    case Store(t) => Go(s.(instance := Some(s.threads[t].ptr)), t, Unlocking)
    case Unlock(t) => Go(s.(owner := None), t, Loading)
    case LastLoad(t) => Go(s, t, Returned(s.instance))
  }

  predicate Inside(stage: Stage) {
    stage.Holding? || stage.FoundNullAgain? || stage.Constructed? || stage.Unlocking?
  }

  /** A thread inside holds the mutex; only there can the pointer be null while an object exists. */
  ghost predicate Inv(s: State) {
    && (forall t :: t in s.threads && Inside(s.threads[t]) ==> s.owner == Some(t))
    && (s.owner.Some? ==> s.owner.value in s.threads && Inside(s.threads[s.owner.value]))
    && (forall t :: t in s.threads && s.threads[t].FoundNullAgain? ==> s.instance.None? && s.built == 0)
    && (forall t :: t in s.threads && s.threads[t].Constructed? ==>
          s.instance.None? && s.built == 1 && s.threads[t].ptr == 0)
    && (forall t :: t in s.threads && (s.threads[t].Unlocking? || s.threads[t].Loading?) ==> s.instance.Some?)
    && (forall t :: t in s.threads && s.threads[t].Returned? ==>
          s.instance.Some? && s.threads[t].result == Some(0))
    && (s.instance.Some? ==> s.instance.value == 0 && s.built == 1)
    && (s.instance.None? && s.built > 0 ==>
          s.owner.Some? && s.owner.value in s.threads && s.threads[s.owner.value].Constructed?)
  }

  lemma StepKeepsInv(s: State, e: Event)
    requires Inv(s) && Enabled(s, e)
    ensures Inv(Step(s, e))
  {
  }

  function Next(s: State, e: Event): Option<State> {
    if Enabled(s, e) then Some(Step(s, e)) else None
  }

  lemma RunKeepsInv(s: State, trace: seq<Event>)
    requires Inv(s) && Fires(Next, s, trace)
    ensures Inv(Run(Next, s, trace))
  {
    forall x, e | Inv(x) && Next(x, e).Some? ensures Inv(Next(x, e).value) {
      StepKeepsInv(x, e);
    }
    Invariant(Next, Inv, s, trace);
  }

  /** Whatever the interleaving, at most one object is constructed, and every call that has returned returned
      that object, never null. */
  lemma OneInstance(trace: seq<Event>)
    requires Fires(Next, INIT, trace)
    ensures var s := Run(Next, INIT, trace);
      && s.built <= 1
      && forall t :: t in s.threads && s.threads[t].Returned? ==>
           s.threads[t].result.Some? && s.threads[t].result == s.instance
  {
    RunKeepsInv(INIT, trace);
  }

  /** What a thread that is in a call does next. */
  function Continue(t: nat, stage: Stage): Event
    requires !stage.Returned?
  {
    match stage
    case Start => FirstLoad(t)
    case FoundNull => Acquire(t)
    case Holding => SecondLoad(t)
    case FoundNullAgain => Construct(t)
    case Constructed(_) => Store(t)
    case Unlocking => Unlock(t)
    case Loading => LastLoad(t)
  }

  /** How many steps a call still takes at most. */
  function Remaining(stage: Stage): nat {
    match stage
    case Start => 7
    case FoundNull => 6
    case Holding => 5
    case FoundNullAgain => 4
    case Constructed(_) => 3
    case Unlocking => 2
    case Loading => 1
    case Returned(_) => 0
  }

  /** No deadlock: a thread in a call can go on and comes nearer to its end, unless it waits for the mutex; then the
      thread that holds it can. */
  lemma SomebodyGoesOn(s: State, t: nat)
    requires Inv(s) && t in s.threads && !s.threads[t].Returned?
    ensures var u := if s.threads[t].FoundNull? && s.owner.Some? then s.owner.value else t;
      && u in s.threads && !s.threads[u].Returned? && Enabled(s, Continue(u, s.threads[u]))
      && Remaining(Step(s, Continue(u, s.threads[u])).threads[u]) < Remaining(s.threads[u])
  {
  }

  /** Once set, the stored pointer never changes. */
  lemma {:induction false} InstanceStays(s: State, trace: seq<Event>)
    requires Inv(s) && Fires(Next, s, trace) && s.instance.Some?
    ensures Run(Next, s, trace).instance == s.instance && Run(Next, s, trace).built == s.built
  {
    if trace != [] {
      var n := |trace| - 1;
      InstanceStays(s, trace[..n]);
      RunKeepsInv(s, trace[..n]);
    }
  }

  /** The static members of `instance` together with the threads that are in it. */
  class Statics {
    var instance: Option<nat>
    var owner: Option<nat>
    ghost var built: nat
    ghost var threads: map<nat, Stage>

    ghost function View(): State
      reads this
    {
      State(instance, owner, built, threads)
    }

    constructor ()
      ensures View() == INIT
    {
      instance, owner, built, threads := None, None, 0, map[];
    }

    /** The step `e` has just been taken. */
    ghost method Log(start: State, trace: seq<Event>, e: Event) returns (longer: seq<Event>)
      requires Fires(Next, start, trace) && Enabled(Run(Next, start, trace), e)
      requires View() == Step(Run(Next, start, trace), e).(threads := threads)
      modifies this`threads
      ensures Fires(Next, start, longer) && Run(Next, start, longer) == View()
      ensures View() == Step(Run(Next, start, trace), e)
    {
      threads := Step(Run(Next, start, trace), e).threads;
      Runs.Snoc(Next, start, trace, e);
      longer := trace + [e];
    }

    /** `instance = new T`: the object is constructed, then stored. */
    method Build(t: nat, made: nat, ghost start: State, ghost before: seq<Event>) returns (ghost trace: seq<Event>)
      requires Fires(Next, start, before) && Run(Next, start, before) == View()
      requires At(View(), t, FoundNullAgain) && made == built
      modifies this
      ensures Fires(Next, start, trace) && Run(Next, start, trace) == View()
      ensures View() == State(Some(made), old(owner), old(built) + 1, old(threads)[t := Unlocking])
    {
      built := built + 1;
      trace := Log(start, before, Construct(t));
      instance := Some(made);
      trace := Log(start, trace, Store(t));
      assert threads == old(threads)[t := Unlocking];
    }

    /** The part behind the first check, under the mutex. */
    method SlowPath(t: nat, made: nat, ghost start: State, ghost before: seq<Event>) returns (ghost trace: seq<Event>)
      requires Fires(Next, start, before) && Run(Next, start, before) == View()
      requires At(View(), t, FoundNull) && owner.None? && instance.None? && made == built
      modifies this
      ensures Fires(Next, start, trace) && Run(Next, start, trace) == View()
      ensures View() == State(Some(made), None, old(built) + 1, old(threads)[t := Loading])
    {
      owner := Some(t);
      trace := Log(start, before, Acquire(t));
      var isLoaded := instance.Some?;
      trace := Log(start, trace, SecondLoad(t));
      if !isLoaded {
        trace := Build(t, made, start, trace);
      }
      owner := None;
      trace := Log(start, trace, Unlock(t));
      assert threads == old(threads)[t := Loading];
    }

    /** A call of `instance` by thread `t` that no other thread interrupts is a run of the transition system. `made`
        is the object that the constructor call yields. */
    method Instance(t: nat, made: nat) returns (ptr: Option<nat>, ghost trace: seq<Event>)
      requires (t in threads ==> threads[t].Returned?) && owner.None? && made == built
      modifies this
      ensures Fires(Next, old(View()), trace) && Run(Next, old(View()), trace) == View()
      ensures ptr.Some? && ptr == instance && threads == old(threads)[t := Returned(ptr)]
      ensures owner.None? && built == old(built) + if old(instance).None? then 1 else 0
      ensures old(instance).Some? ==> instance == old(instance)
    {
      ghost var start := View();
      trace := Log(start, [], Call(t));
      var isLoaded := instance.Some?;
      trace := Log(start, trace, FirstLoad(t));
      if !isLoaded {
        trace := SlowPath(t, made, start, trace);
      }
      ptr := instance;
      trace := Log(start, trace, LastLoad(t));
      assert threads == old(threads)[t := Returned(ptr)];
    }
  }
}
