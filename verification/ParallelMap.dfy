/** `Ev::map`: run an action per input in its own greenthread, wait for all of
    them, then return the results in order or raise one of the exceptions. */
module ParallelMap {
  import opened Wrappers

  datatype Outcome<V, E> = Value(value: V) | Raised(exc: E)

  datatype Answer<V, E> = Values(values: seq<V>) | Failure(error: E) | NullResult

  /** `MapRun`: `next` is the loop position, `finished` the history of outcomes and
      `answers` what the caller was given. */
  datatype Map<V, E> = Map(
    next: nat, running: set<nat>,
    results: seq<Option<V>>, exc: Option<E>, pending: int, waiter: bool, awaiting: bool,
    finished: map<nat, Outcome<V, E>>, answers: seq<Answer<V, E>>)

  function Init<V, E>(n: nat): Map<V, E> {
    Map(0, {}, seq(n, i => None), None, n, false, false, map[], [])
  }

  function AllPresent<V>(rs: seq<Option<V>>): bool {
    forall i :: 0 <= i < |rs| ==> rs[i].Some?
  }

  function Unwrapped<V>(rs: seq<Option<V>>): seq<V>
    requires AllPresent(rs)
  {
    seq(|rs|, i requires 0 <= i < |rs| => rs[i].value)
  }

  /** `extract`: dereferencing an empty result would be undefined. */
  function Extract<V, E>(m: Map<V, E>): Map<V, E> {
    var a := if m.exc.Some? then Failure(m.exc.value)
             else if AllPresent(m.results) then Values(Unwrapped(m.results))
             else NullResult;
    m.(answers := m.answers + [a])
  }

  /** One turn of `loop`. */
  function Launch<V, E>(m: Map<V, E>): Map<V, E> {
    m.(running := m.running + {m.next}, next := m.next + 1)
  }

  /** `wait_completion`. */
  function Await<V, E>(m: Map<V, E>): Map<V, E> {
    if m.pending == 0 then Extract(m.(awaiting := true)) else m.(awaiting := true, waiter := true)
  }

  /** Store the outcome of action `i`, then `finish`. */
  function Complete<V, E>(m: Map<V, E>, i: nat, o: Outcome<V, E>): Map<V, E>
    requires i < |m.results|
  {
    var m2 := Stored(m, i, o);
    if m2.pending == 0 && m2.waiter then Extract(m2.(waiter := false)) else m2
  }

  function Stored<V, E>(m: Map<V, E>, i: nat, o: Outcome<V, E>): Map<V, E>
    requires i < |m.results|
  {
    m.(results := if o.Value? then m.results[i := Some(o.value)] else m.results,
       exc := if o.Raised? then Some(o.exc) else m.exc,
       pending := m.pending - 1, running := m.running - {i}, finished := m.finished[i := o])
  }

  datatype Event<V, E> = LoopTurn | WaitForAll | Completed(i: nat, outcome: Outcome<V, E>)

  predicate Enabled<V, E>(m: Map<V, E>, e: Event<V, E>) {
    match e
    case LoopTurn => m.next < |m.results|
    case WaitForAll => m.next == |m.results| && !m.awaiting
    case Completed(i, _) => i in m.running && i < |m.results|
  }

  ghost predicate Tracked<V, E>(m: Map<V, E>) {
    && m.next <= |m.results|
    && (forall i :: 0 <= i < m.next <==> i in m.running || i in m.finished)
    && m.running !! m.finished.Keys
    && m.pending + |m.finished| == |m.results|
    && (m.awaiting ==> m.next == |m.results|)
    && (m.waiter <==> m.awaiting && m.pending > 0)
  }

  ghost predicate Recorded<V, E>(m: Map<V, E>) {
    && (forall i :: 0 <= i < |m.results| ==>
          m.results[i] == if i in m.finished && m.finished[i].Value? then Some(m.finished[i].value) else None)
    && (m.exc.Some? ==> exists i :: i in m.finished && m.finished[i] == Raised(m.exc.value))
    && (m.exc.None? ==> forall i :: i in m.finished ==> m.finished[i].Value?)
  }

  ghost predicate Answered<V, E>(m: Map<V, E>) {
    if m.awaiting && m.pending == 0 then |m.answers| == 1 && Correct(m, m.answers[0]) else m.answers == []
  }

  ghost predicate Inv<V, E>(m: Map<V, E>) {
    Tracked(m) && Recorded(m) && Answered(m)
  }

  /** The answer the documentation promises. */
  ghost predicate Correct<V, E>(m: Map<V, E>, a: Answer<V, E>) {
    match a
    case Values(vs) =>
      |vs| == |m.results| && forall i :: 0 <= i < |vs| ==> i in m.finished && m.finished[i] == Value(vs[i])
    case Failure(e) => exists i :: i in m.finished && m.finished[i] == Raised(e)
    case NullResult => false
  }

  lemma FinishedCount<V, E>(m: Map<V, E>)
    requires Tracked(m)
    ensures m.pending >= 0
    ensures m.pending == 0 ==> forall i :: 0 <= i < |m.results| ==> i in m.finished
    ensures m.running != {} ==> m.pending > 0
  {
    assert m.finished.Keys <= Below(m.next) && m.running <= Below(m.next);
    Contained(m.finished.Keys, Below(m.next));
  }

  function Below(n: nat): (s: set<nat>)
    ensures |s| == n && forall i: nat :: i in s <==> i < n
  {
    if n == 0 then {} else Below(n - 1) + {n - 1}
  }

  lemma Contained(a: set<nat>, b: set<nat>)
    requires a <= b
    ensures |a| <= |b| && (|a| == |b| ==> a == b)
  {
    assert b == a + (b - a);
    assert |b| == |a| + |b - a|;
  }

  lemma ExtractCorrect<V, E>(m: Map<V, E>)
    requires m.answers == [] && Recorded(m)
    requires forall i :: 0 <= i < |m.results| ==> i in m.finished
    ensures |Extract(m).answers| == 1 && Correct(m, Extract(m).answers[0])
    ensures m.exc.None? ==> AllPresent(m.results)
  {
  }

  function Do<V, E>(m: Map<V, E>, e: Event<V, E>): Map<V, E>
    requires Enabled(m, e)
  {
    match e
    case LoopTurn => Launch(m)
    case WaitForAll => Await(m)
    case Completed(i, o) => Complete(m, i, o)
  }

  lemma StoredTracked<V, E>(m: Map<V, E>, i: nat, o: Outcome<V, E>)
    requires Tracked(m) && i in m.running && i < |m.results|
    ensures Tracked(Stored(m, i, o).(waiter := m.waiter && m.pending > 1))
  {
    FinishedCount(m);
    var finished := m.finished[i := o];
    assert finished.Keys == m.finished.Keys + {i};
    assert |finished.Keys| == |m.finished.Keys| + 1;
  }

  lemma StoredRecorded<V, E>(m: Map<V, E>, i: nat, o: Outcome<V, E>)
    requires Recorded(m) && i !in m.finished && i < |m.results|
    ensures Recorded(Stored(m, i, o))
  {
    var m2 := Stored(m, i, o);
    if o.Raised? {
      assert m2.finished[i] == Raised(o.exc);
    } else if m.exc.Some? {
      var j :| j in m.finished && m.finished[j] == Raised(m.exc.value);
      assert m2.finished[j] == m.finished[j];
    }
  }

  lemma CompleteInv<V, E>(m: Map<V, E>, i: nat, o: Outcome<V, E>)
    requires Inv(m) && i in m.running && i < |m.results|
    ensures Inv(Complete(m, i, o)) && m.pending > 0
    ensures m.pending == 1 && Stored(m, i, o).exc.None? ==> AllPresent(Stored(m, i, o).results)
  {
    RunningIsPending(m, i);
    StoredTracked(m, i, o);
    StoredRecorded(m, i, o);
    hide Recorded, Tracked, Correct, AllPresent, Extract, Stored;
    var m2 := Stored(m, i, o);
    StoredCounts(m, i, o);
    SameOutcomes(m2, m2.(waiter := false));
    if m.pending == 1 {
      LastOne(m2.(waiter := false));
      ExtractAnswers(m2.(waiter := false));
    }
  }

  lemma StoredCounts<V, E>(m: Map<V, E>, i: nat, o: Outcome<V, E>)
    requires i < |m.results|
    ensures var m2 := Stored(m, i, o);
            && m2.pending == m.pending - 1 && m2.waiter == m.waiter && m2.awaiting == m.awaiting
            && m2.answers == m.answers && |m2.results| == |m.results|
  {
  }

  /** Answering leaves the record as it is. */
  lemma ExtractAnswers<V, E>(m: Map<V, E>)
    ensures var m' := Extract(m);
            && Recorded(m') == Recorded(m) && (forall a :: Correct(m', a) == Correct(m, a))
            && m'.pending == m.pending && m'.awaiting == m.awaiting && |m'.results| == |m.results|
  {
    hide Recorded, Correct;
    SameOutcomes(m, Extract(m));
  }

  lemma RunningIsPending<V, E>(m: Map<V, E>, i: nat)
    requires Tracked(m) && i in m.running
    ensures m.pending > 0 && i !in m.finished && (m.waiter <==> m.awaiting)
  {
    FinishedCount(m);
  }

  lemma LastOne<V, E>(m: Map<V, E>)
    requires Tracked(m) && Recorded(m) && m.pending == 0 && m.answers == []
    ensures |Extract(m).answers| == 1 && Correct(m, Extract(m).answers[0]) && Tracked(Extract(m))
    ensures m.exc.None? ==> AllPresent(m.results)
  {
    FinishedCount(m);
    ExtractCorrect(m);
  }

  lemma LaunchInv<V, E>(m: Map<V, E>)
    requires Inv(m) && m.next < |m.results|
    ensures Inv(Launch(m))
  {
    LaunchTracked(m);
    hide Tracked, Recorded, Correct;
    SameOutcomes(m, Launch(m));
  }

  lemma LaunchTracked<V, E>(m: Map<V, E>)
    requires Tracked(m) && m.next < |m.results|
    ensures Tracked(Launch(m)) && !m.awaiting
  {
    assert m.next !in m.running && m.next !in m.finished;
  }

  lemma SameOutcomes<V, E>(m: Map<V, E>, m': Map<V, E>)
    requires m'.results == m.results && m'.exc == m.exc && m'.finished == m.finished
    ensures Recorded(m') == Recorded(m) && forall a :: Correct(m', a) == Correct(m, a)
  {
  }

  lemma AwaitInv<V, E>(m: Map<V, E>)
    requires Inv(m) && m.next == |m.results| && !m.awaiting
    ensures Inv(Await(m)) && (m.pending == 0 && m.exc.None? ==> AllPresent(m.results))
  {
    FinishedCount(m);
    hide Recorded, Correct;
    SameOutcomes(m, Await(m));
    if m.pending == 0 {
      SameOutcomes(m, m.(awaiting := true));
      ExtractCorrect(m.(awaiting := true));
      SameOutcomes(m.(awaiting := true), Await(m));
    }
  }

  lemma DoInv<V, E>(m: Map<V, E>, e: Event<V, E>)
    requires Inv(m) && Enabled(m, e)
    ensures Inv(Do(m, e)) && |Do(m, e).results| == |m.results|
  {
    hide Inv, AllPresent;
    match e
    case LoopTurn => LaunchInv(m);
    case WaitForAll => AwaitInv(m);
    case Completed(i, o) => CompleteInv(m, i, o);
  }

  datatype Reach<V, E> = Impossible | Reached(m: Map<V, E>)

  function After<V, E>(m: Map<V, E>, events: seq<Event<V, E>>): Reach<V, E>
    decreases |events|
  {
    if events == [] then Reached(m)
    else if Enabled(m, events[0]) then After(Do(m, events[0]), events[1..])
    else Impossible
  }

  lemma {:induction false} AfterInv<V, E>(m: Map<V, E>, events: seq<Event<V, E>>)
    requires Inv(m) && After(m, events).Reached?
    ensures Inv(After(m, events).m) && |After(m, events).m.results| == |m.results|
    decreases |events|
  {
    hide Inv;
    if events != [] {
      DoInv(m, events[0]);
      AfterInv(Do(m, events[0]), events[1..]);
    }
  }

  /** The record of outcomes is that of the completions. */
  lemma {:induction false} AfterFinished<V, E>(m: Map<V, E>, events: seq<Event<V, E>>, i: nat)
    requires Inv(m) && After(m, events).Reached?
    ensures var f := After(m, events).m.finished;
            i in f <==> i in m.finished || exists o :: Completed(i, o) in events
    ensures var f := After(m, events).m.finished;
            i in f ==> if i in m.finished then f[i] == m.finished[i] else Completed(i, f[i]) in events
    decreases |events|
  {
    hide Inv, Do, Enabled;
    if events != [] {
      var e := events[0];
      DoInv(m, e);
      DoFinished(m, e, i);
      AfterFinished(Do(m, e), events[1..], i);
      assert events == [e] + events[1..];
      assert e.Completed? && e.i == i ==> Completed(i, e.outcome) in events;
    }
  }

  lemma FinishedWereCompleted<V, E>(n: nat, events: seq<Event<V, E>>)
    requires Inv(Init<V, E>(n)) && After(Init<V, E>(n), events).Reached?
    ensures var m := After(Init<V, E>(n), events).m;
            forall i :: i in m.finished ==> Completed(i, m.finished[i]) in events
  {
    hide Inv, After;
    var m := After(Init<V, E>(n), events).m;
    forall i | i in m.finished ensures Completed(i, m.finished[i]) in events {
      AfterFinished(Init(n), events, i);
    }
  }

  lemma DoFinished<V, E>(m: Map<V, E>, e: Event<V, E>, i: nat)
    requires Inv(m) && Enabled(m, e)
    ensures var f := Do(m, e).finished;
            && (i in f <==> i in m.finished || (e.Completed? && e.i == i))
            && (i in m.finished ==> f[i] == m.finished[i])
            && (i !in m.finished && e.Completed? && e.i == i ==> f[i] == e.outcome)
  {
  }

  /** For every completion order of `n` actions, also none at all: the map answers
      at most once and only when all `n` have finished and are awaited; then it has
      answered, with result `i` from action `i`, or with an exception one of them
      raised. */
  lemma AnswersOnceWithAllResults<V, E>(n: nat, events: seq<Event<V, E>>)
    requires After(Init<V, E>(n), events).Reached?
    ensures var m := After(Init(n), events).m;
            && (m.answers != [] <==> m.awaiting && forall i :: 0 <= i < n ==> i in m.finished)
            && (m.answers != [] ==> |m.answers| == 1 && Correct(m, m.answers[0]))
            && (m.answers != [] ==>
                  (m.answers[0].Values? <==> forall i :: 0 <= i < n ==> m.finished[i].Value?))
            && (forall i :: i in m.finished ==> Completed(i, m.finished[i]) in events)
  {
    InitInv<V, E>(n);
    AfterInv(Init(n), events);
    var m := After(Init(n), events).m;
    FinishedWereCompleted(n, events);
    hide Recorded, After;
    FinishedCount(m);
    if forall i :: 0 <= i < n ==> i in m.finished {
      assert Below(n) <= m.finished.Keys;
      Contained(Below(n), m.finished.Keys);
    }
  }

  lemma InitInv<V, E>(n: nat)
    ensures Inv(Init<V, E>(n))
  {
  }

  class MapRun<V, E> {
    var results: seq<Option<V>>
    var exc: Option<E>
    var pending: int
    var waiter: bool
    ghost var next: nat
    ghost var running: set<nat>
    ghost var awaiting: bool
    ghost var finished: map<nat, Outcome<V, E>>
    ghost var answers: seq<Answer<V, E>>

    ghost function Abs(): Map<V, E>
      reads this
    {
      Map(next, running, results, exc, pending, waiter, awaiting, finished, answers)
    }

    constructor (n: nat)
      ensures Abs() == Init(n) && Inv(Abs())
    {
      results, exc, pending, waiter := Init<V, E>(n).results, None, n, false;
      next, running, awaiting, finished, answers := 0, {}, false, map[], [];
    }

    /** `extract`: called with every result in place. */
    method ExtractAll() returns (answer: Answer<V, E>)
      requires exc.None? ==> AllPresent(results)
      modifies `answers
      ensures Abs() == Extract(old(Abs())) && answers == old(answers) + [answer]
    {
      if exc.Some? {
        answer := Failure(exc.value);
      } else {
        var rv := [];
        for i := 0 to |results|
          invariant |rv| == i && forall j :: 0 <= j < i ==> rv[j] == results[j].value
        {
          rv := rv + [results[i].value];
        }
        assert rv == Unwrapped(results);
        answer := Values(rv);
      }
      answers := answers + [answer];
    }

    method WaitCompletion()
      requires Inv(Abs()) && Enabled(Abs(), WaitForAll)
      modifies this
      ensures Abs() == Await(old(Abs())) && Inv(Abs())
    {
      hide Inv, AllPresent, Extract;
      AwaitInv(Abs());
      awaiting := true;
      if pending == 0 {
        var _ := ExtractAll();
      } else {
        waiter := true;
      }
    }

    /** The callback for a value, or for an exception. */
    method Store(i: nat, o: Outcome<V, E>)
      requires i < |results|
      modifies this
      ensures Abs() == Stored(old(Abs()), i, o)
    {
      match o {
        case Value(v) => results := results[i := Some(v)];
        case Raised(e) => exc := Some(e);
      }
      running, finished := running - {i}, finished[i := o];
      pending := pending - 1;
    }

    /** The completion of one action: store, and wake the waiter after the last. */
    method OnComplete(i: nat, o: Outcome<V, E>)
      requires Inv(Abs()) && i in running && i < |results|
      modifies this
      ensures old(pending > 0) && Abs() == Complete(old(Abs()), i, o) && Inv(Abs())
    {
      hide Inv, AllPresent, Extract;
      CompleteInv(Abs(), i, o);
      Store(i, o);
      if pending == 0 && waiter {
        waiter := false;
        var _ := ExtractAll();
      }
    }
  }
}
