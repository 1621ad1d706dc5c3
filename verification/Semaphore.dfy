/** `Ev::Semaphore`: at most a fixed number of actions run at a time; the others
    wait in a queue.  The action handed to the semaphore always yields first, so it
    never completes inside the call that starts it. */
module Semaphores {
  type Id = nat

  datatype Sem = Sem(
    max: nat, remaining: nat, blocked: seq<Id>, running: set<Id>,
    submitted: seq<Id>, started: seq<Id>,
    resolved: seq<(Id, bool)>,    // callers answered, and whether with an exception
    assertFailed: bool)

  function Init(max: nat): Sem {
    Sem(max, max, [], {}, [], [], [], false)
  }

  /** `handle`. */
  function Start(s: Sem, id: Id): Sem {
    s.(running := s.running + {id}, started := s.started + [id])
  }

  /** The body of the action returned by `run`. */
  function Submit(s: Sem, id: Id): Sem {
    var s1 := s.(submitted := s.submitted + [id]);
    if s.remaining > 0 then Start(s1.(remaining := s.remaining - 1), id)
    else s1.(blocked := s.blocked + [id])
  }

  /** `unblock`. */
  function Unblock(s: Sem): Sem {
    if s.blocked != [] then
      Start(s.(assertFailed := s.assertFailed || s.remaining != 0, blocked := s.blocked[1..]), s.blocked[0])
    else s.(remaining := s.remaining + 1)
  }

  /** The action passes or throws: let the next one in, then answer the caller. */
  function Complete(s: Sem, id: Id, threw: bool): Sem {
    var s1 := Unblock(s.(running := s.running - {id}));
    s1.(resolved := s1.resolved + [(id, threw)])
  }

  datatype Event = Submitted(id: Id) | Completed(id: Id, threw: bool)

  predicate Enabled(s: Sem, e: Event) {
    match e
    case Submitted(id) => id !in s.submitted
    case Completed(id, _) => id in s.running
  }

  function Do(s: Sem, e: Event): Sem {
    match e
    case Submitted(id) => Submit(s, id)
    case Completed(id, threw) => Complete(s, id, threw)
  }

  predicate IsResolved(s: Sem, id: Id) {
    exists k :: 0 <= k < |s.resolved| && s.resolved[k].0 == id
  }

  ghost predicate Inv(s: Sem) {
    && !s.assertFailed
    && s.remaining + |s.running| == s.max
    && (s.blocked != [] ==> s.remaining == 0)
    && s.started + s.blocked == s.submitted
    && (forall i, j :: 0 <= i < j < |s.submitted| ==> s.submitted[i] != s.submitted[j])
    && (forall id :: id in s.started <==> id in s.running || IsResolved(s, id))
    && (forall k :: 0 <= k < |s.resolved| ==> s.resolved[k].0 !in s.running)
    && (forall i, j :: 0 <= i < j < |s.resolved| ==> s.resolved[i].0 != s.resolved[j].0)
  }

  lemma SubmitInv(s: Sem, id: Id)
    requires Inv(s) && id !in s.submitted
    ensures Inv(Submit(s, id))
  {
    var s' := Submit(s, id);
    assert s'.started + s'.blocked == s.started + s.blocked + [id];
    assert id !in s.started by { assert forall x :: x in s.started ==> x in s.submitted; }
    assert forall x :: IsResolved(s', x) == IsResolved(s, x);
  }

  lemma NextIsUnstarted(s: Sem)
    requires s.started + s.blocked == s.submitted && s.blocked != []
    requires forall i, j :: 0 <= i < j < |s.submitted| ==> s.submitted[i] != s.submitted[j]
    ensures s.blocked[0] !in s.started
    ensures s.started + [s.blocked[0]] + s.blocked[1..] == s.submitted
  {
    assert s.blocked[0] == s.submitted[|s.started|];
    assert forall i :: 0 <= i < |s.started| ==> s.started[i] == s.submitted[i];
  }

  lemma ResolvedGrows(s: Sem, s': Sem, id: Id, threw: bool)
    requires s'.resolved == s.resolved + [(id, threw)]
    ensures forall x :: IsResolved(s', x) <==> IsResolved(s, x) || x == id
  {
    assert s'.resolved[|s.resolved|] == (id, threw);
    forall x | IsResolved(s, x) ensures IsResolved(s', x) {
      var k :| 0 <= k < |s.resolved| && s.resolved[k].0 == x;
      assert s'.resolved[k] == s.resolved[k];
    }
  }

  lemma CompleteInv(s: Sem, id: Id, threw: bool)
    requires Inv(s) && id in s.running
    ensures Inv(Complete(s, id, threw))
  {
    var s' := Complete(s, id, threw);
    ResolvedGrows(s, s', id, threw);
    assert forall k :: 0 <= k < |s.resolved| ==> IsResolved(s, s.resolved[k].0);
    hide IsResolved;
    if s.blocked != [] {
      NextIsUnstarted(s);
    }
  }

  lemma DoInv(s: Sem, e: Event)
    requires Inv(s) && Enabled(s, e)
    ensures Inv(Do(s, e)) && Do(s, e).max == s.max
  {
    match e
    case Submitted(id) => SubmitInv(s, id);
    case Completed(id, threw) => CompleteInv(s, id, threw);
  }

  datatype Outcome = Impossible | Reached(sem: Sem)

  function After(s: Sem, events: seq<Event>): Outcome
    decreases |events|
  {
    if events == [] then Reached(s)
    else if Enabled(s, events[0]) then After(Do(s, events[0]), events[1..])
    else Impossible
  }

  lemma {:induction false} AfterInv(s: Sem, events: seq<Event>)
    requires Inv(s) && After(s, events).Reached?
    ensures Inv(After(s, events).sem) && After(s, events).sem.max == s.max
    decreases |events|
  {
    hide Inv;
    if events != [] {
      DoInv(s, events[0]);
      AfterInv(Do(s, events[0]), events[1..]);
    }
  }

  /** What the callers are owed: the completions, in order, each with its own way of
      ending. */
  function Completions(events: seq<Event>): seq<(Id, bool)> {
    if events == [] then []
    else (if events[0].Completed? then [(events[0].id, events[0].threw)] else []) + Completions(events[1..])
  }

  function Submissions(events: seq<Event>): seq<Id> {
    if events == [] then []
    else (if events[0].Submitted? then [events[0].id] else []) + Submissions(events[1..])
  }

  lemma {:induction false} AfterHistory(s: Sem, events: seq<Event>)
    requires After(s, events).Reached?
    ensures After(s, events).sem.resolved == s.resolved + Completions(events)
    ensures After(s, events).sem.submitted == s.submitted + Submissions(events)
    decreases |events|
  {
    if events != [] {
      var s1 := Do(s, events[0]);
      AfterHistory(s1, events[1..]);
      assert s1.resolved == s.resolved + if events[0].Completed? then [(events[0].id, events[0].threw)] else [];
      assert s1.submitted == s.submitted + if events[0].Submitted? then [events[0].id] else [];
    }
  }

  /** In every interleaving: slots are conserved, actions start in the order they
      were submitted and are never dropped or started twice, the semaphore never
      idles a slot while someone waits, the assertion never fires, and the callers are
      answered in the order in which their actions completed, each once and with the
      value or the exception of its own action. */
  lemma SlotsAreConserved(max: nat, events: seq<Event>)
    requires After(Init(max), events).Reached?
    ensures var s := After(Init(max), events).sem;
            && s.remaining + |s.running| == max && !s.assertFailed
            && s.started + s.blocked == s.submitted
            && (forall i, j :: 0 <= i < j < |s.started| ==> s.started[i] != s.started[j])
            && (s.blocked != [] ==> |s.running| == max)
            && (forall id :: id in s.started && id !in s.running <==> IsResolved(s, id))
            && (forall i, j :: 0 <= i < j < |s.resolved| ==> s.resolved[i].0 != s.resolved[j].0)
            && s.resolved == Completions(events) && s.submitted == Submissions(events)
  {
    AfterHistory(Init(max), events);
    AfterInv(Init(max), events);
    var s := After(Init(max), events).sem;
    assert forall i :: 0 <= i < |s.started| ==> s.started[i] == s.submitted[i];
  }

  class Semaphore {
    const max: nat
    var remaining: nat
    var blocked: seq<Id>
    ghost var running: set<Id>
    ghost var submitted: seq<Id>
    ghost var started: seq<Id>
    ghost var resolved: seq<(Id, bool)>

    ghost function Abs(): Sem
      reads this
    {
      Sem(max, remaining, blocked, running, submitted, started, resolved, false)
    }

    constructor (max: nat)
      ensures this.max == max && Abs() == Init(max) && Inv(Abs())
    {
      this.max, remaining, blocked := max, max, [];
      running, submitted, started, resolved := {}, [], [], [];
    }

    method Handle(id: Id)
      modifies `running, `started
      ensures Abs() == Start(old(Abs()), id)
    {
      running := running + {id};
      started := started + [id];
    }

    method Run(id: Id)
      requires Inv(Abs()) && id !in submitted
      modifies this
      ensures Abs() == Submit(old(Abs()), id) && Inv(Abs())
    {
      SubmitInv(Abs(), id);
      hide Inv;
      submitted := submitted + [id];
      if remaining > 0 {
        remaining := remaining - 1;
        Handle(id);
      } else {
        blocked := blocked + [id];
      }
    }

    /** The continuation of a started action: `unblock`, then answer the caller. */
    method Finished(id: Id, threw: bool)
      requires Inv(Abs()) && id in running
      modifies this
      ensures Abs() == Complete(old(Abs()), id, threw) && Inv(Abs())
    {
      CompleteInv(Abs(), id, threw);
      running := running - {id};
      if blocked != [] {
        assert remaining == 0;
        hide Inv;
        var next := blocked[0];
        blocked := blocked[1..];
        Handle(next);
      } else {
        remaining := remaining + 1;
      }
      resolved := resolved + [(id, threw)];
    }
  }
}
