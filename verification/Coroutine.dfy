/** `Ev::coroutine`: the promise of a coroutine that returns an `Ev::Io`, and the
    list of finished frames that an idle handler destroys.  A handle is run at most
    once; every other order of events is possible. */
module Coroutines {
  type Id = nat

  datatype Delivery = Passed | Failed

  /** The promise: its flags, the stored continuations, the stored outcome, and what
      was delivered to the awaiting greenthread. */
  datatype Frame = Frame(
    attached: bool, finalized: bool, scheduled: bool, ioGone: bool,
    pass: bool, fail: bool, value: bool, error: bool,
    left: bool, threw: bool, destroyed: bool,
    delivered: seq<Delivery>, enqueues: nat, destroys: nat)

  datatype State = State(frames: map<Id, Frame>, list: seq<Id>, idle: bool, cleaning: bool)

  const NewFrame := Frame(false, false, false, false, false, false, false, false, false, false, false, [], 0, 0)

  function Init(): State {
    State(map[], [], false, false)
  }

  // ------------------------------------------------------- the code of a promise

  function Deliver(f: Frame, d: Delivery): Frame {
    f.(delivered := f.delivered + [d])
  }

  /** The continuation of the returned action, after `note_attached`. */
  function Receive(f: Frame): Frame {
    if f.value then Deliver(f, Passed)
    else if f.error then Deliver(f, Failed)
    else f.(pass := true, fail := true)
  }

  /** `return_value` and `return_void`. */
  function Returned(f: Frame): Frame {
    if f.pass then Deliver(f.(fail := false, left := true), Passed) else f.(value := true, left := true)
  }

  /** `unhandled_exception`; it also runs when delivering the value threw. */
  function Threw(f: Frame): Frame {
    if f.fail then Deliver(f.(pass := false, left := true, threw := true), Failed)
    else f.(error := true, left := true, threw := true)
  }

  predicate ShouldSchedule(f: Frame) {
    !f.scheduled && f.finalized && (f.attached || f.ioGone)
  }

  /** `try_schedule_cleanup`, on the promise's flag ... */
  function Marked(f: Frame): Frame {
    if ShouldSchedule(f) then f.(scheduled := true, enqueues := f.enqueues + 1) else f
  }

  /** ... and on the list, by `schedule_for_cleaning`. */
  function Enqueue(s: State, id: Id, f: Frame): State {
    if ShouldSchedule(f) then s.(idle := s.idle || s.list == [], list := [id] + s.list) else s
  }

  function Set(s: State, id: Id, f: Frame): State {
    s.(frames := s.frames[id := f])
  }

  datatype Event =
    | Start(id: Id) | Attach(id: Id) | Return(id: Id) | Throw(id: Id)
    | FinalSuspend(id: Id) | HandleGone(id: Id)
    | IdleFires | CleanOne | CleanEnds

  predicate Enabled(s: State, e: Event) {
    match e
    case Start(id) => id !in s.frames
    case Attach(id) => id in s.frames && !s.frames[id].attached && !s.frames[id].ioGone
    case Return(id) => id in s.frames && !s.frames[id].left
    case Throw(id) => id in s.frames && !s.frames[id].threw && !s.frames[id].finalized
    case FinalSuspend(id) => id in s.frames && s.frames[id].left && !s.frames[id].finalized
    case HandleGone(id) => id in s.frames && !s.frames[id].ioGone
    case IdleFires => s.idle && !s.cleaning
    case CleanOne => s.cleaning && s.list != [] && s.list[0] in s.frames
    case CleanEnds => s.cleaning && s.list == []
  }

  function Do(s: State, e: Event): State
    requires Enabled(s, e)
  {
    match e
    case Start(id) => Set(s, id, NewFrame)
    case Attach(id) =>
      var f := s.frames[id].(attached := true);
      Set(Enqueue(s, id, f), id, Receive(Marked(f)))
    case Return(id) => Set(s, id, Returned(s.frames[id]))
    case Throw(id) => Set(s, id, Threw(s.frames[id]))
    case FinalSuspend(id) =>
      var f := s.frames[id].(finalized := true);
      Set(Enqueue(s, id, f), id, Marked(f))
    case HandleGone(id) =>
      var f := s.frames[id].(ioGone := true);
      if f.destroyed then Set(s, id, f) else Set(Enqueue(s, id, f), id, Marked(f))
    case IdleFires => s.(idle := false, cleaning := true)
    case CleanOne =>
      var f := s.frames[s.list[0]];
      Set(s, s.list[0], f.(destroyed := true, destroys := f.destroys + 1)).(list := s.list[1..])
    case CleanEnds => s.(cleaning := false)
  }

  /** The frame whose memory an event touches. */
  predicate Touches(e: Event, id: Id) {
    e == Attach(id) || e == Return(id) || e == Throw(id) || e == FinalSuspend(id)
  }

  // -------------------------------------------------------------- the invariant

  predicate FrameInv(f: Frame) {
    && (f.scheduled <==> f.finalized && (f.attached || f.ioGone))
    && (f.destroyed ==> f.scheduled)
    && f.enqueues == (if f.scheduled then 1 else 0) && f.destroys == (if f.destroyed then 1 else 0)
    && (f.finalized || f.threw ==> f.left)
    && |f.delivered| == (if f.attached && f.left then 1 else 0)
    && (!f.attached ==> !f.pass && !f.fail)
    && (f.attached && !f.left ==> f.pass && f.fail)
    && (f.left && !f.threw ==> !f.fail)
    && (f.left && !f.attached ==> f.value || f.error)
    && (!f.left ==> !f.value && !f.error)
  }

  ghost predicate Inv(s: State) {
    && (forall id :: id in s.frames ==> FrameInv(s.frames[id]))
    && (forall id :: id in s.list <==> id in s.frames && s.frames[id].scheduled && !s.frames[id].destroyed)
    && (forall i, j :: 0 <= i < j < |s.list| ==> s.list[i] != s.list[j])
    && (s.list != [] ==> s.idle || s.cleaning)
  }

  /** No event ever touches a destroyed frame. */
  lemma NoUseAfterDestroy(s: State, e: Event, id: Id)
    requires Inv(s) && Enabled(s, e) && Touches(e, id)
    ensures !s.frames[id].destroyed
  {
  }

  lemma ScheduleInv(s: State, id: Id, f: Frame, g: Frame)
    requires Inv(s) && id in s.frames && !f.destroyed && !s.frames[id].destroyed && !g.destroyed
    requires f.scheduled == s.frames[id].scheduled && g.scheduled == Marked(f).scheduled && FrameInv(g)
    ensures Inv(Set(Enqueue(s, id, f), id, g))
  {
    if ShouldSchedule(f) {
      assert id !in s.list;
      assert ([id] + s.list)[1..] == s.list;
    }
  }

  /** Changing a promise without touching its scheduling flags. */
  lemma SetInv(s: State, id: Id, f: Frame)
    requires Inv(s) && FrameInv(f)
    requires if id in s.frames then f.scheduled == s.frames[id].scheduled && f.destroyed == s.frames[id].destroyed
             else !f.scheduled
    ensures Inv(Set(s, id, f))
  {
  }

  lemma CleanInv(s: State)
    requires Inv(s) && Enabled(s, CleanOne)
    ensures Inv(Do(s, CleanOne))
  {
    var head := s.list[0];
    assert s.list == [head] + s.list[1..];
    assert head in s.list;
    forall id ensures id in s.list[1..] <==> id in s.list && id != head {}
  }

  lemma DoInv(s: State, e: Event)
    requires Inv(s) && Enabled(s, e)
    ensures Inv(Do(s, e))
  {
    match e
    case Start(id) => SetInv(s, id, NewFrame);
    case Attach(id) =>
      var f := s.frames[id].(attached := true);
      ScheduleInv(s, id, f, Receive(Marked(f)));
    case Return(id) => SetInv(s, id, Returned(s.frames[id]));
    case Throw(id) => SetInv(s, id, Threw(s.frames[id]));
    case FinalSuspend(id) =>
      var f := s.frames[id].(finalized := true);
      ScheduleInv(s, id, f, Marked(f));
    case HandleGone(id) =>
      if s.frames[id].destroyed {
        SetInv(s, id, s.frames[id].(ioGone := true));
      } else {
        ScheduleInv(s, id, s.frames[id].(ioGone := true), Marked(s.frames[id].(ioGone := true)));
      }
    case IdleFires =>
    case CleanOne => CleanInv(s);
    case CleanEnds =>
  }

  // -------------------------------------------------------------------- runs

  datatype Outcome = Impossible | Reached(state: State)

  function After(s: State, events: seq<Event>): Outcome
    decreases |events|
  {
    if events == [] then Reached(s)
    else if Enabled(s, events[0]) then After(Do(s, events[0]), events[1..])
    else Impossible
  }

  lemma {:induction false} AfterInv(s: State, events: seq<Event>)
    requires Inv(s) && After(s, events).Reached?
    ensures Inv(After(s, events).state)
    decreases |events|
  {
    hide Inv;
    if events != [] {
      DoInv(s, events[0]);
      AfterInv(Do(s, events[0]), events[1..]);
    }
  }

  // --------------------------------------------------------- what is delivered

  /** Which of its events have happened to a frame. */
  datatype Past = Past(attached: bool, gone: bool, returned: bool, thrown: bool, suspended: bool)

  function PastOf(id: Id, events: seq<Event>): Past {
    Past(Attach(id) in events, HandleGone(id) in events,
         Return(id) in events, Throw(id) in events, FinalSuspend(id) in events)
  }

  /** The flags tell what has happened, and what is stored or was delivered follows: a
      returned value wins over an exception thrown while it was delivered. */
  predicate Answers(f: Frame, p: Past) {
    && f.attached == p.attached && f.ioGone == p.gone && f.finalized == p.suspended
    && (f.left <==> p.returned || p.thrown)
    && (f.left && f.attached ==> f.delivered == [if p.returned then Passed else Failed])
    && (f.left && !f.attached ==> f.delivered == [] && (f.value <==> p.returned) && (!p.returned ==> f.error))
    && (!f.left ==> f.delivered == [] && !f.value && !f.error)
  }

  ghost predicate AllAnswer(s: State, past: seq<Event>) {
    forall id ::
      && (id in s.frames ==> Answers(s.frames[id], PastOf(id, past)))
      && (id !in s.frames ==> PastOf(id, past) == Past(false, false, false, false, false))
  }

  predicate About(e: Event, id: Id) {
    e == Start(id) || e == Attach(id) || e == Return(id) || e == Throw(id) || e == FinalSuspend(id) || e == HandleGone(id)
  }

  lemma PastGrows(id: Id, past: seq<Event>, e: Event)
    ensures var p := PastOf(id, past);
            PastOf(id, past + [e]) == Past(p.attached || e == Attach(id), p.gone || e == HandleGone(id),
              p.returned || e == Return(id), p.thrown || e == Throw(id), p.suspended || e == FinalSuspend(id))
  {
  }

  /** Events about other frames change nothing that is told of this one. */
  lemma OthersAnswer(s: State, e: Event, id: Id, p: Past)
    requires Enabled(s, e) && !About(e, id)
    ensures id in Do(s, e).frames <==> id in s.frames
    ensures id in s.frames && Answers(s.frames[id], p) ==> Answers(Do(s, e).frames[id], p)
  {
    if e.CleanOne? {
      CleanedAnswers(s, id, p);
    } else {
      hide Answers, Returned, Threw, Receive, Marked, ShouldSchedule;
      assert id in s.frames ==> Do(s, e).frames[id] == s.frames[id];
    }
  }

  lemma CleanedAnswers(s: State, id: Id, p: Past)
    requires Enabled(s, CleanOne)
    ensures id in Do(s, CleanOne).frames <==> id in s.frames
    ensures id in s.frames && Answers(s.frames[id], p) ==> Answers(Do(s, CleanOne).frames[id], p)
  {
  }

  lemma OneAnswers(s: State, e: Event, p: Past, p': Past, id: Id)
    requires Enabled(s, e) && About(e, id)
    requires id in s.frames ==> FrameInv(s.frames[id]) && Answers(s.frames[id], p)
    requires id !in s.frames ==> p == Past(false, false, false, false, false)
    requires p' == Past(p.attached || e == Attach(id), p.gone || e == HandleGone(id),
               p.returned || e == Return(id), p.thrown || e == Throw(id), p.suspended || e == FinalSuspend(id))
    ensures id in Do(s, e).frames && Answers(Do(s, e).frames[id], p')
  {
  }

  lemma DoAnswers(s: State, e: Event, past: seq<Event>)
    requires Inv(s) && AllAnswer(s, past) && Enabled(s, e)
    ensures AllAnswer(Do(s, e), past + [e])
  {
    var s' := Do(s, e);
    forall id
      ensures id in s'.frames ==> Answers(s'.frames[id], PastOf(id, past + [e]))
      ensures id !in s'.frames ==> PastOf(id, past + [e]) == Past(false, false, false, false, false)
    {
      assert id in s.frames ==> FrameInv(s.frames[id]) && Answers(s.frames[id], PastOf(id, past));
      assert id !in s.frames ==> PastOf(id, past) == Past(false, false, false, false, false);
      hide Inv, FrameInv, PastOf, Do, Answers, AllAnswer;
      PastGrows(id, past, e);
      if About(e, id) {
        OneAnswers(s, e, PastOf(id, past), PastOf(id, past + [e]), id);
      } else {
        OthersAnswer(s, e, id, PastOf(id, past));
      }
    }
  }

  lemma {:induction false} AfterAnswers(s: State, past: seq<Event>, events: seq<Event>)
    requires Inv(s) && AllAnswer(s, past) && After(s, events).Reached?
    ensures AllAnswer(After(s, events).state, past + events)
    decreases |events|
  {
    hide Inv, AllAnswer, Do, Enabled;
    if events == [] {
      assert past + events == past;
    } else {
      DoInv(s, events[0]);
      DoAnswers(s, events[0], past);
      AfterAnswers(Do(s, events[0]), past + [events[0]], events[1..]);
      assert past + [events[0]] + events[1..] == past + events;
    }
  }

  /** Over every order of events: a frame is enqueued exactly when it has reached its
      final suspension and its handle was run or dropped; it is in the list exactly once until it is
      destroyed, and never lost; a non-empty list always has a cleaner coming; and
      the awaiting greenthread is answered exactly once, when it is attached and
      the body has been left, with the value if one was returned and with the
      exception otherwise. */
  lemma FramesAreCleanedOnce(events: seq<Event>, id: Id)
    requires After(Init(), events).Reached? && id in After(Init(), events).state.frames
    ensures var s := After(Init(), events).state; var f := s.frames[id];
            && (f.scheduled <==> FinalSuspend(id) in events && (Attach(id) in events || HandleGone(id) in events))
            && multiset(s.list)[id] == (if f.scheduled && !f.destroyed then 1 else 0)
            && f.destroys <= f.enqueues <= 1 && f.enqueues == (if f.scheduled then 1 else 0)
            && (s.list != [] ==> s.idle || s.cleaning)
            && f.delivered == (if Attach(id) !in events then []
                               else if Return(id) in events then [Passed]
                               else if Throw(id) in events then [Failed] else [])
  {
    AfterInv(Init(), events);
    AfterAnswers(Init(), [], events);
    assert [] + events == events;
    CountDistinct(After(Init(), events).state.list, id);
  }

  lemma {:induction false} CountDistinct(s: seq<Id>, id: Id)
    requires forall i, j :: 0 <= i < j < |s| ==> s[i] != s[j]
    ensures multiset(s)[id] == if id in s then 1 else 0
  {
    if s != [] {
      assert s == [s[0]] + s[1..];
      CountDistinct(s[1..], id);
    }
  }

  // --------------------------------------------------------- the promise object

  /** The promise inside a frame.  `schedule` tells when `schedule_for_cleaning` is
      called with it. */
  class Promise {
    var attached: bool
    var finalized: bool
    var cleanupScheduled: bool
    var ioGone: bool
    var pass: bool
    var fail: bool
    var pvalue: bool
    var error: bool
    ghost var left: bool
    ghost var threw: bool
    ghost var delivered: seq<Delivery>
    ghost var enqueues: nat

    ghost function Abs(): Frame
      reads this
    {
      Frame(attached, finalized, cleanupScheduled, ioGone, pass, fail, pvalue, error,
            left, threw, false, delivered, enqueues, 0)
    }

    constructor ()
      ensures Abs() == NewFrame
    {
      attached, finalized, cleanupScheduled, ioGone := false, false, false, false;
      pass, fail, pvalue, error := false, false, false, false;
      left, threw, delivered, enqueues := false, false, [], 0;
    }

    method TryScheduleCleanup() returns (schedule: bool)
      modifies `cleanupScheduled, `enqueues
      ensures schedule == ShouldSchedule(old(Abs())) && Abs() == Marked(old(Abs()))
    {
      if cleanupScheduled {
        return false;
      }
      if !finalized {
        return false;
      }
      if !(attached || ioGone) {
        return false;
      }
      cleanupScheduled := true;
      enqueues := enqueues + 1;
      return true;
    }

    /** The body of the action returned by `get_return_object`. */
    method Run() returns (schedule: bool)
      modifies this
      ensures var f := old(Abs()).(attached := true);
              schedule == ShouldSchedule(f) && Abs() == Receive(Marked(f))
    {
      hide Marked, ShouldSchedule, Receive;
      attached := true;
      schedule := TryScheduleCleanup();
      Continue();
    }

    method Continue()
      modifies `delivered, `pass, `fail
      ensures Abs() == Receive(old(Abs()))
    {
      if pvalue {
        delivered := delivered + [Passed];
        return;
      }
      if error {
        delivered := delivered + [Failed];
        return;
      }
      pass := true;
      fail := true;
    }

    method ReturnValue()
      modifies this
      ensures Abs() == Returned(old(Abs()))
    {
      left := true;
      if pass {
        fail := false;
        delivered := delivered + [Passed];
        return;
      }
      pvalue := true;
    }

    method UnhandledException()
      modifies this
      ensures Abs() == Threw(old(Abs()))
    {
      left, threw := true, true;
      if fail {
        pass := false;
        delivered := delivered + [Failed];
        return;
      }
      error := true;
    }

    method NoteFinalSuspend() returns (schedule: bool)
      modifies this
      ensures var f := old(Abs()).(finalized := true); schedule == ShouldSchedule(f) && Abs() == Marked(f)
    {
      hide Marked, ShouldSchedule;
      finalized := true;
      schedule := TryScheduleCleanup();
    }

    method NoteIoGone() returns (schedule: bool)
      modifies this
      ensures var f := old(Abs()).(ioGone := true); schedule == ShouldSchedule(f) && Abs() == Marked(f)
    {
      hide Marked, ShouldSchedule;
      ioGone := true;
      schedule := TryScheduleCleanup();
    }
  }

  // ------------------------------------------------- the embedded linked list

  /** `ToBeCleaned`: a frame carries its own list link. */
  class ToBeCleaned {
    var next: ToBeCleaned?

    constructor ()
      ensures next == null
    {
      next := null;
    }
  }

  ghost function Successor(list: seq<ToBeCleaned>, i: nat): ToBeCleaned? {
    if i + 1 < |list| then list[i + 1] else null
  }

  predicate Distinct(list: seq<ToBeCleaned>) {
    forall i, j :: 0 <= i < j < |list| ==> list[i] != list[j]
  }

  ghost function Elements(list: seq<ToBeCleaned>): set<ToBeCleaned> {
    set o | o in list
  }

  lemma ElementsCons(obj: ToBeCleaned, list: seq<ToBeCleaned>)
    ensures Elements([obj] + list) == Elements(list) + {obj}
    ensures Distinct([obj] + list) ==> obj !in list && Distinct(list)
    ensures obj !in list && Distinct(list) ==> Distinct([obj] + list)
  {
    var both := [obj] + list;
    assert both[0] == obj && forall i :: 0 <= i < |list| ==> both[i + 1] == list[i];
  }

  /** The global `cleaning_list`, its idle watcher, and the frames whose
      `cleanup_scheduled` flag is set. */
  class Cleaner {
    var head: ToBeCleaned?
    var idle: bool
    var scheduled: set<ToBeCleaned>
    ghost var contents: seq<ToBeCleaned>
    ghost var destroyed: set<ToBeCleaned>

    /** The links spell out `contents`, whose members are exactly the frames that
        were scheduled and not destroyed yet. */
    ghost predicate Valid()
      reads this, contents
    {
      && head == (if contents == [] then null else contents[0])
      && (forall i :: 0 <= i < |contents| ==> contents[i].next == Successor(contents, i))
      && Distinct(contents)
      && Elements(contents) == scheduled - destroyed && destroyed <= scheduled
    }

    constructor ()
      ensures Valid() && contents == [] && scheduled == {} && destroyed == {} && !idle
    {
      head, idle, scheduled, contents, destroyed := null, false, {}, [], {};
    }

    /** `schedule_for_cleaning`, guarded by the promise's flag. */
    method Schedule(obj: ToBeCleaned)
      requires Valid()
      modifies this, obj
      ensures Valid() && scheduled == old(scheduled) + {obj} && destroyed == old(destroyed)
      ensures contents == (if obj in old(scheduled) then [] else [obj]) + old(contents)
      ensures idle == (old(idle) || (obj !in old(scheduled) && old(contents) == []))
    {
      if obj in scheduled {
        return;
      }
      ghost var before := contents;
      assert obj !in Elements(before);
      scheduled := scheduled + {obj};
      var needToSchedule := head == null;
      obj.next := head;
      head := obj;
      contents := [obj] + before;
      ElementsCons(obj, before);
      forall i | 0 <= i < |contents| ensures contents[i].next == Successor(contents, i) {
        if i > 0 {
          assert contents[i] == before[i - 1] && Successor(contents, i) == Successor(before, i - 1);
          assert before[i - 1] in Elements(before);
        }
      }
      if needToSchedule {
        idle := true;
      }
    }

    /** One turn of the loop of `do_cleaning_as_scheduled`: unlink and destroy. */
    method CleanHead() returns (obj: ToBeCleaned)
      requires Valid() && head != null
      modifies this, head
      ensures Valid() && [obj] + contents == old(contents)
      ensures scheduled == old(scheduled) && idle == old(idle)
      ensures obj !in old(destroyed) && destroyed == old(destroyed) + {obj} && obj.next == null
    {
      ghost var before := contents;
      obj := head;
      assert obj == before[0] && obj.next == Successor(before, 0);
      assert obj in Elements(before);
      var next := obj.next;
      obj.next := null;
      head := next;
      destroyed := destroyed + {obj};
      contents := before[1..];
      assert before == [obj] + contents;
      ElementsCons(obj, contents);
      forall i | 0 <= i < |contents| ensures contents[i].next == Successor(contents, i) {
        assert contents[i] == before[i + 1] != before[0] && Successor(contents, i) == Successor(before, i + 1);
      }
    }

    /** `do_cleaning_as_scheduled`: destroying a frame may drop the last handles of
        others, which are then enqueued while the loop is running.  The loop still
        ends with an empty list and everything that was ever scheduled destroyed. */
    method DoCleaning(drops: map<ToBeCleaned, seq<ToBeCleaned>>)
      requires Valid()
      modifies this, scheduled, set o, x | o in drops && x in drops[o] :: x
      ensures Valid() && contents == [] && head == null
      ensures destroyed == scheduled && old(scheduled) <= scheduled
    {
      ghost var all := scheduled + set o, x | o in drops && x in drops[o] :: x;
      while head != null
        invariant Valid() && old(scheduled) <= scheduled <= all
        decreases all - destroyed
      {
        assert head in Elements(contents);
        var obj := CleanHead();
        if obj in drops {
          var dropped := drops[obj];
          ghost var gone := destroyed;
          for i := 0 to |dropped|
            invariant Valid() && old(scheduled) <= scheduled <= all && destroyed == gone
          {
            assert dropped[i] in dropped;
            Schedule(dropped[i]);
          }
        }
      }
      assert Elements(contents) == {};
      assert scheduled == destroyed + (scheduled - destroyed);
    }
  }
}
