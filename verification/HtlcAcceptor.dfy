/** `HtlcAcceptor` with `CommandReceiver`: an `htlc_accepted` hook is held while the
    deferrers decide, may be released early by any of them, and is answered through
    the receiver, which writes each answer to the node. */
module HtlcHooks {
  import opened Wrappers

  type Id = nat

  /** What a `Ln::HtlcAccepted::Response` says about its hook. */
  datatype Verdict = Cont | Fail(message: seq<nat>) | Resolve(preimage: nat)
  datatype Response = Response(id: Id, verdict: Verdict)

  datatype Result = HookContinue | HookFail(message: seq<nat>) | HookResolve(key: nat)
                  | Plain(json: nat) | Error(code: int)
  datatype Reply = Reply(id: Id, result: Result)

  /** Where the green thread of one hook stands. */
  datatype Phase =
    | Soliciting      // in `solicit`, not yet past the flags
    | Raising         // the one raising SolicitHtlcAcceptedDeferrer
    | Arrived         // logging the arrival
    | Deciding        // the deferrers are running
    | Waiting         // somebody deferred: the timer is running
    | Finishing       // about to run the body of `finish`
    | Ended
    | Failed          // a deferrer threw

  datatype Receiver = Receiver(pendings: set<Id>, wire: seq<Reply>)

  datatype Acceptor = Acceptor(
    soliciting: bool, solicited: bool, deferrers: nat, deferring: set<Id>, deferred: set<Id>)

  /** Both modules and the messages between them.  `seen` and `taken` are history:
      the command ids that arrived, and the verdict each hook was released with. */
  datatype State = State(
    recv: Receiver, acc: Acceptor, thread: map<Id, Phase>,
    releases: seq<Response>, responses: seq<Reply>,
    seen: set<Id>, taken: map<Id, Verdict>)

  const Start := State(Receiver({}, []), Acceptor(false, false, 0, {}, {}), map[], [], [], {}, map[])

  // -------------------------------------------------------------- the receiver

  function AddPending(r: Receiver, id: Id): Receiver {
    r.(pendings := r.pendings + {id})
  }

  /** Both reply paths: only a pending command is answered, and then no more. */
  function Answer(r: Receiver, reply: Reply): Receiver {
    if reply.id in r.pendings then Receiver(r.pendings - {reply.id}, r.wire + [reply]) else r
  }

  /** `rpc_command` hooks are answered on the spot. */
  function AnswerRpc(r: Receiver, id: Id): Receiver {
    r.(wire := r.wire + [Reply(id, HookContinue)])
  }

  // -------------------------------------------------------------- the acceptor

  function ResultOf(v: Verdict): Result {
    match v case Cont => HookContinue case Fail(m) => HookFail(m) case Resolve(k) => HookResolve(k)
  }

  function DecideIn(a: Acceptor, id: Id): Acceptor {
    if id in a.deferring then a.(deferring := a.deferring - {id}, deferred := a.deferred + {id}) else a
  }

  function Held(a: Acceptor, id: Id): bool {
    id in a.deferred || id in a.deferring
  }

  function Unhold(a: Acceptor, id: Id): Acceptor {
    if id in a.deferred then a.(deferred := a.deferred - {id}) else a.(deferring := a.deferring - {id})
  }

  /** Some deferrer asked for time. */
  predicate AnyOf(results: seq<bool>) {
    exists i :: 0 <= i < |results| && results[i]
  }

  function RemoveAt<T>(s: seq<T>, k: nat): seq<T>
    requires k < |s|
  {
    s[..k] + s[k + 1..]
  }

  // --------------------------------------------------------------------- steps

  datatype Event =
    | Command(id: Id, wellFormedHtlc: bool)   // a command that is not `rpc_command`
    | RpcCommand(id: Id)
    | OtherReply(reply: Reply)                // another module answers its own command
    | Provide
    | Solicit(id: Id)
    | Solicited(id: Id)
    | Inform(id: Id)
    | Decide(id: Id, results: seq<bool>)
    | Throw(id: Id)
    | TimerDone(id: Id)
    | Finish(id: Id)
    | EarlyRelease(response: Response)        // a deferrer releases, at any time
    | DeliverRelease(k: nat)
    | DeliverResponse(k: nat)

  predicate At(s: State, id: Id, p: Phase) {
    id in s.thread && s.thread[id] == p
  }

  predicate Enabled(s: State, e: Event) {
    match e
    case Command(id, _) => id !in s.seen
    case RpcCommand(id) => id !in s.seen
    case OtherReply(reply) => reply.id !in s.thread
    case Provide => true
    case Solicit(id) => At(s, id, Soliciting)
    case Solicited(id) => At(s, id, Raising)
    case Inform(id) => At(s, id, Arrived)
    case Decide(id, results) => At(s, id, Deciding) && |results| == s.acc.deferrers
    case Throw(id) => At(s, id, Deciding) && s.acc.deferrers > 0
    case TimerDone(id) => At(s, id, Waiting)
    case Finish(id) => At(s, id, Finishing)
    case EarlyRelease(_) => true
    case DeliverRelease(k) => k < |s.releases|
    case DeliverResponse(k) => k < |s.responses|
  }

  function DoCommand(s: State, id: Id, htlc: bool): State {
    s.(recv := AddPending(s.recv, id), seen := s.seen + {id},
       thread := if htlc then s.thread[id := Soliciting] else s.thread)
  }

  function DoSolicit(s: State, id: Id): State {
    if s.acc.solicited then s.(thread := s.thread[id := Arrived])
    else if s.acc.soliciting then s
    else s.(acc := s.acc.(soliciting := true), thread := s.thread[id := Raising])
  }

  function DoDecide(s: State, id: Id, results: seq<bool>): State {
    s.(acc := DecideIn(s.acc, id),
       thread := s.thread[id := if id !in s.acc.deferring then Ended
                                else if AnyOf(results) then Waiting else Finishing])
  }

  function DoFinish(s: State, id: Id): State {
    s.(thread := s.thread[id := Ended],
       releases := if id in s.acc.deferred then s.releases + [Response(id, Cont)] else s.releases)
  }

  function DoRelease(s: State, k: nat): State
    requires k < |s.releases|
  {
    var resp := s.releases[k];
    var s' := s.(releases := RemoveAt(s.releases, k));
    if !Held(s.acc, resp.id) then s'
    else s'.(acc := Unhold(s.acc, resp.id), taken := s.taken[resp.id := resp.verdict],
             responses := s.responses + [Reply(resp.id, ResultOf(resp.verdict))])
  }

  function Do(s: State, e: Event): State
    requires Enabled(s, e)
  {
    match e
    case Command(id, htlc) => DoCommand(s, id, htlc)
    case RpcCommand(id) => s.(recv := AnswerRpc(s.recv, id), seen := s.seen + {id})
    case OtherReply(reply) => s.(recv := Answer(s.recv, reply))
    case Provide => if s.acc.soliciting then s.(acc := s.acc.(deferrers := s.acc.deferrers + 1)) else s
    case Solicit(id) => DoSolicit(s, id)
    case Solicited(id) => s.(acc := s.acc.(soliciting := false, solicited := true), thread := s.thread[id := Arrived])
    case Inform(id) => s.(acc := s.acc.(deferring := s.acc.deferring + {id}), thread := s.thread[id := Deciding])
    case Decide(id, results) => DoDecide(s, id, results)
    case Throw(id) => s.(thread := s.thread[id := Failed])
    case TimerDone(id) => s.(thread := s.thread[id := Finishing])
    case Finish(id) => DoFinish(s, id)
    case EarlyRelease(response) => s.(releases := s.releases + [response])
    case DeliverRelease(k) => DoRelease(s, k)
    case DeliverResponse(k) =>
      s.(recv := Answer(s.recv, s.responses[k]), responses := RemoveAt(s.responses, k))
  }

  // -------------------------------------------------------------- the invariant

  function Count(replies: seq<Reply>, id: Id): nat {
    if replies == [] then 0 else Count(replies[..|replies| - 1], id) + if replies[|replies| - 1].id == id then 1 else 0
  }

  predicate HasRelease(releases: seq<Response>, id: Id) {
    exists k :: 0 <= k < |releases| && releases[k].id == id
  }

  datatype Tally = Never | Once | Many

  function TallyOf(replies: seq<Reply>, id: Id): Tally {
    var n := Count(replies, id);
    if n == 0 then Never else if n == 1 then Once else Many
  }

  /** All that the state says about one command. */
  datatype View = View(
    phase: Option<Phase>, deferring: bool, deferred: bool, taken: bool,
    sent: Tally, replied: Tally, pending: bool, seen: bool, release: bool)

  function ViewOf(s: State, id: Id): View {
    View(if id in s.thread then Some(s.thread[id]) else None,
         id in s.acc.deferring, id in s.acc.deferred, id in s.taken,
         TallyOf(s.responses, id), TallyOf(s.recv.wire, id), id in s.recv.pendings, id in s.seen,
         HasRelease(s.releases, id))
  }

  /** The set that holds the hook while nobody has released it: none before it is
      shown to the deferrers, `deferring` until they have all returned. */
  predicate GoodPhase(v: View, p: Phase) {
    && v.deferring == (!v.taken && (p.Deciding? || p.Failed?))
    && v.deferred == (!v.taken && (p.Waiting? || p.Finishing? || p.Ended?))
    && (p.Soliciting? || p.Raising? || p.Arrived? ==> !v.taken)
    && (p.Ended? && v.deferred ==> v.release)
  }

  /** A seen command is pending or has one reply; a hook that was released has its one
      answer on the way or on the wire; a hook not released is held in the set its
      thread expects, and if the thread has ended a release is on the way. */
  predicate Good(v: View) {
    && !v.replied.Many? && (v.replied.Once? ==> v.seen)
    && (v.pending <==> v.seen && v.replied.Never?)
    && (v.phase.None? ==> !v.deferring && !v.deferred && !v.taken && v.sent.Never?)
    && (v.phase.Some? ==> v.seen && GoodPhase(v, v.phase.value))
    && (v.phase.Some? && v.taken ==> (v.sent.Once? && v.replied.Never?) || (v.sent.Never? && v.replied.Once?))
    && (v.phase.Some? && !v.taken ==> v.sent.Never? && v.replied.Never?)
  }

  ghost predicate AllGood(s: State) {
    forall id :: Good(ViewOf(s, id))
  }

  /** Answers say what the hook was released with. */
  predicate Matches(s: State, reply: Reply) {
    reply.id in s.taken && reply.result == ResultOf(s.taken[reply.id])
  }

  predicate Contents(s: State) {
    && (forall k :: 0 <= k < |s.responses| ==> Matches(s, s.responses[k]))
    && (forall k :: 0 <= k < |s.recv.wire| && s.recv.wire[k].id in s.thread ==> Matches(s, s.recv.wire[k]))
  }

  /** One thread at most solicits, and only before anybody got past it. */
  ghost predicate OneSolicits(s: State) {
    && (s.acc.solicited ==> !s.acc.soliciting)
    && (forall i, j :: At(s, i, Raising) && At(s, j, Raising) ==> i == j)
    && (forall i :: At(s, i, Raising) ==> s.acc.soliciting)
    && (s.acc.soliciting ==> exists i :: At(s, i, Raising))
    && (forall i :: i in s.thread && !At(s, i, Raising) && !At(s, i, Soliciting) ==> s.acc.solicited)
  }

  ghost predicate Inv(s: State) {
    AllGood(s) && Contents(s) && OneSolicits(s)
  }

  lemma CountAppend(replies: seq<Reply>, reply: Reply, id: Id)
    ensures Count(replies + [reply], id) == Count(replies, id) + if reply.id == id then 1 else 0
  {
    assert (replies + [reply])[..|replies|] == replies;
  }

  lemma {:induction false} CountRemove(replies: seq<Reply>, k: nat, id: Id)
    requires k < |replies|
    ensures Count(replies, id) == Count(RemoveAt(replies, k), id) + if replies[k].id == id then 1 else 0
    decreases |replies|
  {
    var n := |replies| - 1;
    if k < n {
      CountRemove(replies[..n], k, id);
      CountAppend(RemoveAt(replies[..n], k), replies[n], id);
      assert RemoveAt(replies, k) == RemoveAt(replies[..n], k) + [replies[n]];
    } else {
      assert RemoveAt(replies, k) == replies[..n];
    }
  }

  lemma TallyAppend(replies: seq<Reply>, reply: Reply, id: Id)
    ensures reply.id != id ==> TallyOf(replies + [reply], id) == TallyOf(replies, id)
    ensures reply.id == id && TallyOf(replies, id).Never? ==> TallyOf(replies + [reply], id).Once?
  {
    CountAppend(replies, reply, id);
  }

  lemma TallyRemove(replies: seq<Reply>, k: nat, id: Id)
    requires k < |replies|
    ensures replies[k].id != id ==> TallyOf(RemoveAt(replies, k), id) == TallyOf(replies, id)
    ensures replies[k].id == id ==> !TallyOf(replies, id).Never?
    ensures replies[k].id == id && TallyOf(replies, id).Once? ==> TallyOf(RemoveAt(replies, k), id).Never?
  {
    CountRemove(replies, k, id);
  }

  lemma HasReleaseAppend(releases: seq<Response>, r: Response, id: Id)
    ensures HasRelease(releases + [r], id) <==> HasRelease(releases, id) || r.id == id
  {
    if HasRelease(releases, id) {
      var k :| 0 <= k < |releases| && releases[k].id == id;
      assert (releases + [r])[k].id == id;
    }
    if r.id == id {
      assert (releases + [r])[|releases|].id == id;
    }
  }

  lemma HasReleaseRemove(releases: seq<Response>, k: nat, id: Id)
    requires k < |releases| && releases[k].id != id
    ensures HasRelease(RemoveAt(releases, k), id) <==> HasRelease(releases, id)
  {
    var rest := RemoveAt(releases, k);
    if HasRelease(releases, id) {
      var i :| 0 <= i < |releases| && releases[i].id == id;
      assert rest[if i < k then i else i - 1].id == id;
    }
    assert forall i :: 0 <= i < |rest| ==> rest[i] == releases[if i < k then i else i + 1];
  }

  lemma DeliverReleaseGood(s: State, k: nat)
    requires AllGood(s) && k < |s.releases|
    ensures AllGood(DoRelease(s, k))
  {
    hide TallyOf, RemoveAt, HasRelease;
    var s' := DoRelease(s, k);
    var resp := s.releases[k];
    forall id ensures Good(ViewOf(s', id)) {
      assert Good(ViewOf(s, id));
      hide AllGood;
      var v := ViewOf(s, id);
      TallyAppend(s.responses, Reply(resp.id, ResultOf(resp.verdict)), id);
      if id != resp.id {
        HasReleaseRemove(s.releases, k, id);
        assert ViewOf(s', id) == v;
      } else if v.deferring || v.deferred {
        assert ViewOf(s', id) == v.(deferring := false, deferred := false, taken := true, sent := Once,
                                    release := HasRelease(s'.releases, id));
      } else {
        assert ViewOf(s', id) == v.(release := HasRelease(s'.releases, id));
      }
    }
  }

  lemma DeliverResponseGood(s: State, k: nat)
    requires AllGood(s) && k < |s.responses|
    ensures AllGood(Do(s, DeliverResponse(k)))
  {
    hide TallyOf, RemoveAt, HasRelease;
    var s' := Do(s, DeliverResponse(k));
    var reply := s.responses[k];
    forall id ensures Good(ViewOf(s', id)) {
      assert Good(ViewOf(s, id));
      hide AllGood;
      TallyRemove(s.responses, k, id);
      TallyAppend(s.recv.wire, reply, id);
      if id != reply.id {
        assert ViewOf(s', id) == ViewOf(s, id);
      } else {
        assert ViewOf(s, id).pending;
        assert ViewOf(s', id) == ViewOf(s, id).(pending := false, sent := Never, replied := Once);
      }
    }
  }

  lemma OtherReplyGood(s: State, reply: Reply)
    requires AllGood(s) && reply.id !in s.thread
    ensures AllGood(Do(s, OtherReply(reply)))
  {
    hide TallyOf, HasRelease;
    var s' := Do(s, OtherReply(reply));
    forall id ensures Good(ViewOf(s', id)) {
      assert Good(ViewOf(s, id));
      hide AllGood;
      TallyAppend(s.recv.wire, reply, id);
      if id == reply.id && id in s.recv.pendings {
        assert ViewOf(s', id) == ViewOf(s, id).(pending := false, replied := Once);
      } else {
        assert ViewOf(s', id) == ViewOf(s, id);
      }
    }
  }

  lemma CommandGood(s: State, e: Event)
    requires AllGood(s) && Enabled(s, e) && (e.Command? || e.RpcCommand?)
    ensures AllGood(Do(s, e))
  {
    hide TallyOf, HasRelease;
    var s' := Do(s, e);
    forall id ensures Good(ViewOf(s', id)) {
      assert Good(ViewOf(s, id));
      hide AllGood;
      var v := ViewOf(s, id);
      TallyAppend(s.recv.wire, Reply(e.id, HookContinue), id);
      if id != e.id {
        assert ViewOf(s', id) == v;
      } else if e.RpcCommand? {
        assert ViewOf(s', id) == v.(seen := true, replied := Once);
      } else {
        var phase := if e.wellFormedHtlc then Some(Soliciting) else v.phase;
        assert ViewOf(s', id) == v.(seen := true, pending := true, phase := phase);
      }
    }
  }

  lemma ReleaseSentGood(s: State, e: Event)
    requires AllGood(s) && Enabled(s, e) && (e.Finish? || e.EarlyRelease?)
    ensures AllGood(Do(s, e))
  {
    hide TallyOf, HasRelease;
    var s' := Do(s, e);
    var r := if e.Finish? then Response(e.id, Cont) else e.response;
    forall id ensures Good(ViewOf(s', id)) {
      assert Good(ViewOf(s, id));
      hide AllGood;
      HasReleaseAppend(s.releases, r, id);
      var v := ViewOf(s, id);
      var phase := if e.Finish? && id == e.id then Some(Ended) else v.phase;
      assert ViewOf(s', id) == v.(phase := phase, release := HasRelease(s'.releases, id));
    }
  }

  /** The steps of one thread that send nothing. */
  predicate Quiet(e: Event) {
    e.Provide? || e.Solicit? || e.Solicited? || e.Inform? || e.Decide? || e.Throw? || e.TimerDone?
  }

  /** A step that sends nothing and concerns one command. */
  lemma OthersStayGood(s: State, s': State, id: Id)
    requires AllGood(s) && Good(ViewOf(s', id))
    requires s'.recv == s.recv && s'.releases == s.releases && s'.responses == s.responses
    requires s'.seen == s.seen && s'.taken == s.taken && s'.thread.Keys == s.thread.Keys
    requires forall i :: i != id && i in s.thread ==> s'.thread[i] == s.thread[i]
    requires forall i :: i != id ==> (i in s'.acc.deferring <==> i in s.acc.deferring)
    requires forall i :: i != id ==> (i in s'.acc.deferred <==> i in s.acc.deferred)
    ensures AllGood(s')
  {
    forall i ensures Good(ViewOf(s', i)) {
      hide TallyOf, HasRelease, Good;
      assert Good(ViewOf(s, i));
      if i != id {
        assert ViewOf(s', i) == ViewOf(s, i);
      }
    }
  }

  /** The view of the command a quiet step is about. */
  function QuietView(v: View, e: Event, a: Acceptor): View {
    match e
    case Solicit(_) =>
      if a.solicited then v.(phase := Some(Arrived)) else if a.soliciting then v else v.(phase := Some(Raising))
    case Solicited(_) => v.(phase := Some(Arrived))
    case Inform(_) => v.(phase := Some(Deciding), deferring := true)
    case Decide(_, results) =>
      if !v.deferring then v.(phase := Some(Ended))
      else v.(phase := Some(if AnyOf(results) then Waiting else Finishing), deferring := false, deferred := true)
    case Throw(_) => v.(phase := Some(Failed))
    case TimerDone(_) => v.(phase := Some(Finishing))
    case _ => v
  }

  predicate EnabledIn(v: View, e: Event) {
    match e
    case Solicit(_) => v.phase == Some(Soliciting)
    case Solicited(_) => v.phase == Some(Raising)
    case Inform(_) => v.phase == Some(Arrived)
    case Decide(_, _) => v.phase == Some(Deciding)
    case Throw(_) => v.phase == Some(Deciding)
    case TimerDone(_) => v.phase == Some(Waiting)
    case _ => true
  }

  lemma QuietViewGood(v: View, e: Event, a: Acceptor)
    requires Good(v) && EnabledIn(v, e)
    ensures Good(QuietView(v, e, a))
  {
    hide AnyOf;
  }

  lemma QuietViewIs(s: State, e: Event, id: Id)
    requires Enabled(s, e) && Quiet(e) && (!e.Provide? ==> e.id == id)
    ensures ViewOf(Do(s, e), id) == QuietView(ViewOf(s, id), e, s.acc) && EnabledIn(ViewOf(s, id), e)
  {
    hide TallyOf, HasRelease, AnyOf;
  }

  lemma QuietGood(s: State, e: Event)
    requires AllGood(s) && Enabled(s, e) && Quiet(e)
    ensures AllGood(Do(s, e))
  {
    hide ViewOf, Good, QuietView, EnabledIn, AnyOf;
    var id := if e.Provide? then 0 else e.id;
    assert Good(ViewOf(s, id));
    hide AllGood;
    QuietViewIs(s, e, id);
    QuietViewGood(ViewOf(s, id), e, s.acc);
    OthersStayGood(s, Do(s, e), id);
  }

  lemma DoGood(s: State, e: Event)
    requires AllGood(s) && Enabled(s, e)
    ensures AllGood(Do(s, e))
  {
    hide AllGood;
    if Quiet(e) {
      QuietGood(s, e);
    } else if e.Finish? || e.EarlyRelease? {
      ReleaseSentGood(s, e);
    } else if e.Command? || e.RpcCommand? {
      CommandGood(s, e);
    } else if e.OtherReply? {
      OtherReplyGood(s, e.reply);
    } else if e.DeliverRelease? {
      DeliverReleaseGood(s, e.k);
    } else {
      DeliverResponseGood(s, e.k);
    }
  }

  /** A reply on the wire belongs to a command that was seen. */
  lemma {:induction false} WireIsSeen(replies: seq<Reply>, k: nat)
    requires k < |replies|
    ensures Count(replies, replies[k].id) > 0
    decreases |replies|
  {
    if k < |replies| - 1 {
      WireIsSeen(replies[..|replies| - 1], k);
    }
  }

  lemma DoContents(s: State, e: Event)
    requires AllGood(s) && Contents(s) && Enabled(s, e)
    ensures Contents(Do(s, e))
  {
    var s' := Do(s, e);
    if e.Command? || e.RpcCommand? {
      forall k | 0 <= k < |s.recv.wire| ensures s.recv.wire[k].id in s.seen {
        WireIsSeen(s.recv.wire, k);
        assert Good(ViewOf(s, s.recv.wire[k].id));
      }
      assert Good(ViewOf(s, e.id));
      hide AllGood, Count, HasRelease;
    } else if e.DeliverRelease? {
      ReleaseContents(s, e.k);
    } else {
      hide AllGood, Count, HasRelease;
    }
  }

  lemma ReleaseContents(s: State, k: nat)
    requires AllGood(s) && Contents(s) && k < |s.releases|
    ensures Contents(DoRelease(s, k))
  {
    var id := s.releases[k].id;
    assert Good(ViewOf(s, id));
    hide AllGood, Count, HasRelease, RemoveAt;
  }

  lemma SolicitStep(s: State, id: Id)
    requires OneSolicits(s) && At(s, id, Soliciting)
    ensures OneSolicits(DoSolicit(s, id))
  {
    var s' := DoSolicit(s, id);
    if !s.acc.solicited && !s.acc.soliciting {
      assert forall i :: At(s', i, Raising) ==> i == id;
      assert At(s', id, Raising);
    } else if s.acc.solicited {
      assert forall i :: At(s', i, Raising) ==> At(s, i, Raising);
      assert forall i :: At(s', i, Soliciting) ==> At(s, i, Soliciting);
    }
  }

  lemma SolicitedStep(s: State, id: Id)
    requires OneSolicits(s) && At(s, id, Raising)
    ensures OneSolicits(Do(s, Solicited(id)))
  {
    var s' := Do(s, Solicited(id));
    assert forall i :: At(s', i, Raising) ==> At(s, i, Raising) && i != id;
  }

  lemma DoSolicits(s: State, e: Event)
    requires AllGood(s) && OneSolicits(s) && Enabled(s, e)
    ensures OneSolicits(Do(s, e))
  {
    if e.Command? {
      assert Good(ViewOf(s, e.id));
    }
    hide AllGood, OneSolicits, ViewOf;
    match e {
      case Solicit(id) =>
        SolicitStep(s, id);
      case Solicited(id) =>
        SolicitedStep(s, id);
      case _ =>
        OthersDoNotSolicit(s, e);
        KeepsSoliciting(s, Do(s, e));
    }
  }

  lemma OthersDoNotSolicit(s: State, e: Event)
    requires Enabled(s, e) && !e.Solicit? && !e.Solicited? && (e.Command? ==> e.id !in s.thread)
    ensures var s' := Do(s, e);
            && s'.acc.soliciting == s.acc.soliciting && s'.acc.solicited == s.acc.solicited
            && (forall i :: At(s', i, Raising) <==> At(s, i, Raising))
            && (forall i :: i in s'.thread && !At(s', i, Raising) && !At(s', i, Soliciting) ==>
                  i in s.thread && !At(s, i, Raising) && !At(s, i, Soliciting))
  {
    hide AnyOf, RemoveAt, Answer;
  }

  lemma KeepsSoliciting(s: State, s': State)
    requires OneSolicits(s) && s'.acc.soliciting == s.acc.soliciting && s'.acc.solicited == s.acc.solicited
    requires forall i :: At(s', i, Raising) <==> At(s, i, Raising)
    requires forall i :: i in s'.thread && !At(s', i, Raising) && !At(s', i, Soliciting) ==>
               i in s.thread && !At(s, i, Raising) && !At(s, i, Soliciting)
    ensures OneSolicits(s')
  {
    hide At;
    if s.acc.soliciting {
      var i :| At(s, i, Raising);
      assert At(s', i, Raising);
    }
  }

  lemma DoInv(s: State, e: Event)
    requires Inv(s) && Enabled(s, e)
    ensures Inv(Do(s, e))
  {
    hide AllGood, Contents, OneSolicits, Do;
    DoGood(s, e);
    DoContents(s, e);
    DoSolicits(s, e);
  }

  // --------------------------------------------------------------------- runs

  datatype Outcome = Impossible | Reached(state: State)

  function After(s: State, events: seq<Event>): Outcome
    decreases |events|
  {
    if events == [] then Reached(s)
    else if !Enabled(s, events[0]) then Impossible
    else After(Do(s, events[0]), events[1..])
  }

  lemma {:induction false} AfterInv(s: State, events: seq<Event>)
    requires Inv(s)
    ensures After(s, events).Reached? ==> Inv(After(s, events).state)
    decreases |events|
  {
    hide Inv, Do;
    if events != [] && Enabled(s, events[0]) {
      DoInv(s, events[0]);
      AfterInv(Do(s, events[0]), events[1..]);
    }
  }

  ghost predicate Reachable(s: State) {
    exists events :: After(Start, events) == Reached(s)
  }

  lemma ReachedInv(s: State)
    requires Reachable(s)
    ensures Inv(s)
  {
    var events :| After(Start, events) == Reached(s);
    assert Inv(Start);
    AfterInv(Start, events);
  }

  /** In every reachable state the two sets are disjoint, a command has at most one
      reply, and none while it is pending; once the messages about it have been
      delivered, a hook whose thread ended has exactly one reply, carrying the verdict
      it was released with, and so has a hook whose deferrer threw if and only if
      somebody released it. */
  lemma {:induction false} HooksAreAnsweredOnce(s: State, id: Id)
    requires Reachable(s)
    ensures !(id in s.acc.deferring && id in s.acc.deferred)
    ensures Count(s.recv.wire, id) <= 1
    ensures id in s.recv.pendings <==> id in s.seen && Count(s.recv.wire, id) == 0
    ensures (At(s, id, Ended) || At(s, id, Failed)) && !HasRelease(s.releases, id) && Count(s.responses, id) == 0 ==>
              (Count(s.recv.wire, id) == 1 <==> At(s, id, Ended) || id in s.taken)
    ensures forall k :: 0 <= k < |s.recv.wire| && s.recv.wire[k].id in s.thread ==> Matches(s, s.recv.wire[k])
  {
    hide *;
    ReachedInv(s);
    GoodMeans(s, id);
    ContentsMean(s);
  }

  lemma ContentsMean(s: State)
    requires Inv(s)
    ensures forall k :: 0 <= k < |s.recv.wire| && s.recv.wire[k].id in s.thread ==> Matches(s, s.recv.wire[k])
  {
    hide AllGood, OneSolicits, Matches;
  }

  lemma GoodMeans(s: State, id: Id)
    requires Inv(s)
    ensures !(id in s.acc.deferring && id in s.acc.deferred)
    ensures Count(s.recv.wire, id) <= 1
    ensures id in s.recv.pendings <==> id in s.seen && Count(s.recv.wire, id) == 0
    ensures (At(s, id, Ended) || At(s, id, Failed)) && !HasRelease(s.releases, id) && Count(s.responses, id) == 0 ==>
              (Count(s.recv.wire, id) == 1 <==> At(s, id, Ended) || id in s.taken)
  {
    hide Contents, OneSolicits, HasRelease, Count;
    assert Good(ViewOf(s, id));
  }

  /** A hook whose only deferrer throws, and which nobody releases: nothing is in
      flight and no reply was written. */
  lemma UnansweredExample(id: Id)
    ensures exists s ::
              Reachable(s) && At(s, id, Failed) && s.releases == [] && s.responses == [] && s.recv.wire == []
  {
    hide *;
    var s2 := Asked(id);
    var s := Thrown(s2, id);
    AfterOne(s2, Solicited(id), [Inform(id), Throw(id)]);
    var first := [Command(id, true), Solicit(id), Provide];
    var events := first + ([Solicited(id)] + [Inform(id), Throw(id)]);
    AfterMore(Start, first, [Solicited(id)] + [Inform(id), Throw(id)]);
    IsReachable(events, s);
  }

  lemma IsReachable(events: seq<Event>, s: State)
    requires After(Start, events) == Reached(s)
    ensures Reachable(s)
  {
    hide After;
  }

  lemma Asked(id: Id) returns (s: State)
    ensures After(Start, [Command(id, true), Solicit(id), Provide]) == Reached(s)
    ensures At(s, id, Raising) && s.acc.deferrers == 1
    ensures Enabled(s, Solicited(id))
    ensures s.releases == [] && s.responses == [] && s.recv.wire == []
  {
    var s0 := Do(Start, Command(id, true));
    var s1 := Do(s0, Solicit(id));
    s := Do(s1, Provide);
    AfterTwo(s0, Solicit(id), Provide);
    AfterOne(Start, Command(id, true), [Solicit(id), Provide]);
    assert [Command(id, true)] + [Solicit(id), Provide] == [Command(id, true), Solicit(id), Provide];
  }

  lemma Thrown(s: State, id: Id) returns (s': State)
    requires At(s, id, Raising) && s.acc.deferrers == 1
    ensures Enabled(s, Solicited(id)) && After(Do(s, Solicited(id)), [Inform(id), Throw(id)]) == Reached(s')
    ensures At(s', id, Failed)
    ensures s'.releases == s.releases && s'.responses == s.responses && s'.recv == s.recv
  {
    var s1 := Do(s, Solicited(id));
    var s2 := Do(s1, Inform(id));
    s' := Do(s2, Throw(id));
    AfterTwo(s1, Inform(id), Throw(id));
  }

  lemma {:induction false} AfterMore(s: State, events: seq<Event>, more: seq<Event>)
    requires After(s, events).Reached?
    ensures After(s, events + more) == After(After(s, events).state, more)
    decreases |events|
  {
    hide Do, Enabled;
    if events == [] {
      assert events + more == more;
    } else {
      assert (events + more)[1..] == events[1..] + more;
      AfterMore(Do(s, events[0]), events[1..], more);
    }
  }

  lemma AfterTwo(s: State, e: Event, f: Event)
    requires Enabled(s, e) && Enabled(Do(s, e), f)
    ensures After(s, [e, f]) == Reached(Do(Do(s, e), f))
  {
    hide Do, Enabled;
    AfterOne(Do(s, e), f, []);
    AfterOne(s, e, [f]);
    assert [e] + [f] == [e, f] && [f] + [] == [f];
  }

  lemma AfterOne(s: State, e: Event, events: seq<Event>)
    requires Enabled(s, e)
    ensures After(s, [e] + events) == After(Do(s, e), events)
  {
    hide Do, Enabled;
    assert ([e] + events)[1..] == events;
  }

  // ------------------------------------------------------ where replies come from

  /** What a release is answered with, verdict by verdict. */
  predicate Tells(result: Result, v: Verdict) {
    match v
    case Cont => result == HookContinue
    case Fail(message) => result == HookFail(message)
    case Resolve(preimage) => result == HookResolve(preimage)
  }

  /** "Continue", or what one of the early releases of the hook says. */
  ghost predicate Explained(reply: Reply, past: seq<Event>) {
    || reply.result == HookContinue
    || exists v :: EarlyRelease(Response(reply.id, v)) in past && Tells(reply.result, v)
  }

  /** Where a written reply comes from, by the kind of its command. */
  ghost predicate Sourced(reply: Reply, past: seq<Event>) {
    if Command(reply.id, true) in past then Explained(reply, past)
    else if RpcCommand(reply.id) in past then reply.result == HookContinue
    else OtherReply(reply) in past
  }

  ghost predicate KnowsCommands(s: State, past: seq<Event>) {
    forall id ::
      && (id in s.thread <==> Command(id, true) in past)
      && (Command(id, true) in past || RpcCommand(id) in past ==> id in s.seen)
      && (RpcCommand(id) in past ==> id !in s.recv.pendings && id !in s.thread)
  }

  ghost predicate AllSourced(s: State, past: seq<Event>) {
    && KnowsCommands(s, past)
    && (forall k :: 0 <= k < |s.releases| ==> s.releases[k].verdict == Cont || EarlyRelease(s.releases[k]) in past)
    && (forall k :: 0 <= k < |s.responses| ==> s.responses[k].id in s.thread && Explained(s.responses[k], past))
    && (forall k :: 0 <= k < |s.recv.wire| ==> s.recv.wire[k].id in s.seen && Sourced(s.recv.wire[k], past))
  }

  lemma DoKnows(s: State, e: Event, past: seq<Event>)
    requires KnowsCommands(s, past) && Enabled(s, e) && AllGood(s)
    ensures KnowsCommands(Do(s, e), past + [e])
  {
    if e.Command? {
      assert Good(ViewOf(s, e.id));
    }
    hide AllGood, AnyOf, RemoveAt;
    if e.RpcCommand? {
      RpcIsNew(s, e.id);
    }
  }

  lemma RpcIsNew(s: State, id: Id)
    requires AllGood(s) && id !in s.seen
    ensures id !in s.recv.pendings && id !in s.thread
  {
    assert Good(ViewOf(s, id));
  }

  lemma ExplainedLater(reply: Reply, past: seq<Event>, e: Event)
    requires Explained(reply, past)
    ensures Explained(reply, past + [e])
  {
    if v :| EarlyRelease(Response(reply.id, v)) in past && Tells(reply.result, v) {
      assert EarlyRelease(Response(reply.id, v)) in past + [e];
    }
  }

  /** A later event does not change the source of a reply to a command seen before. */
  lemma SourcedLater(s: State, reply: Reply, past: seq<Event>, e: Event)
    requires Sourced(reply, past) && reply.id in s.seen && Enabled(s, e)
    ensures Sourced(reply, past + [e])
  {
    if Command(reply.id, true) in past {
      ExplainedLater(reply, past, e);
    }
  }

  lemma DoReleases(s: State, e: Event, past: seq<Event>)
    requires AllSourced(s, past) && Enabled(s, e)
    ensures var s' := Do(s, e);
            forall k :: 0 <= k < |s'.releases| ==>
              s'.releases[k].verdict == Cont || EarlyRelease(s'.releases[k]) in past + [e]
  {
    hide KnowsCommands, Explained, Sourced, AnyOf;
    var s' := Do(s, e);
    if e.DeliverRelease? {
      assert forall k :: 0 <= k < |s'.releases| ==> s'.releases[k] == s.releases[if k < e.k then k else k + 1];
    }
  }

  lemma DoResponses(s: State, e: Event, past: seq<Event>)
    requires AllSourced(s, past) && Enabled(s, e) && AllGood(s)
    ensures var s' := Do(s, e);
            forall k :: 0 <= k < |s'.responses| ==> s'.responses[k].id in s'.thread && Explained(s'.responses[k], past + [e])
  {
    var s' := Do(s, e);
    forall k | 0 <= k < |s'.responses|
      ensures s'.responses[k].id in s'.thread && Explained(s'.responses[k], past + [e])
    {
      if e.DeliverRelease? && k == |s.responses| {
        HeldIsThread(s, s.releases[e.k].id);
        ReleaseExplained(s.releases[e.k], past + [e]);
      } else {
        var i := if e.DeliverResponse? && k >= e.k then k + 1 else k;
        hide AllGood, KnowsCommands, Explained, Sourced;
        assert s'.responses[k] == s.responses[i];
        ExplainedLater(s.responses[i], past, e);
      }
    }
  }

  lemma HeldIsThread(s: State, id: Id)
    requires AllGood(s) && Held(s.acc, id)
    ensures id in s.thread
  {
    assert Good(ViewOf(s, id));
  }

  lemma ReleaseExplained(resp: Response, past: seq<Event>)
    requires resp.verdict == Cont || EarlyRelease(resp) in past
    ensures Explained(Reply(resp.id, ResultOf(resp.verdict)), past)
  {
    assert resp == Response(resp.id, resp.verdict);
    assert Tells(ResultOf(resp.verdict), resp.verdict);
  }

  lemma DoWire(s: State, e: Event, past: seq<Event>)
    requires AllSourced(s, past) && Enabled(s, e) && AllGood(s)
    ensures var s' := Do(s, e);
            forall k :: 0 <= k < |s'.recv.wire| ==> s'.recv.wire[k].id in s'.seen && Sourced(s'.recv.wire[k], past + [e])
  {
    var s' := Do(s, e);
    forall k | 0 <= k < |s'.recv.wire|
      ensures s'.recv.wire[k].id in s'.seen && Sourced(s'.recv.wire[k], past + [e])
    {
      if k < |s.recv.wire| {
        assert s'.recv.wire[k] == s.recv.wire[k];
        hide AllGood, Sourced;
        SourcedLater(s, s.recv.wire[k], past, e);
      } else {
        WireGrows(s, e);
        NewReply(s, e, past, s'.recv.wire[k]);
      }
    }
  }

  lemma WireGrows(s: State, e: Event)
    requires Enabled(s, e)
    ensures var w := s.recv.wire; var w' := Do(s, e).recv.wire;
            || w' == w
            || (e.RpcCommand? && w' == w + [Reply(e.id, HookContinue)])
            || (e.OtherReply? && w' == w + [e.reply] && e.reply.id in s.recv.pendings)
            || (e.DeliverResponse? && w' == w + [s.responses[e.k]])
  {
    hide AnyOf, RemoveAt;
  }

  lemma NewReply(s: State, e: Event, past: seq<Event>, reply: Reply)
    requires AllSourced(s, past) && Enabled(s, e) && AllGood(s)
    requires || (e.RpcCommand? && reply == Reply(e.id, HookContinue))
             || (e.OtherReply? && reply == e.reply && e.reply.id in s.recv.pendings)
             || (e.DeliverResponse? && reply == s.responses[e.k])
    ensures reply.id in Do(s, e).seen && Sourced(reply, past + [e])
  {
    assert Good(ViewOf(s, reply.id));
    hide AllGood, AnyOf, RemoveAt, HasRelease, TallyOf;
    if e.RpcCommand? {
      assert RpcCommand(reply.id) in past + [e];
    } else if e.OtherReply? {
      assert OtherReply(reply) in past + [e];
    } else {
      assert Command(reply.id, true) in past;
      ExplainedLater(reply, past, e);
    }
  }

  lemma {:induction false} AfterSourced(s: State, past: seq<Event>, events: seq<Event>)
    requires Inv(s) && AllSourced(s, past) && After(s, events).Reached?
    ensures AllSourced(After(s, events).state, past + events)
    decreases |events|
  {
    hide AllGood, Contents, OneSolicits, KnowsCommands, Do, Enabled, Explained, Sourced;
    if events == [] {
      assert past + events == past;
    } else {
      var e := events[0];
      DoInv(s, e);
      DoKnows(s, e, past);
      DoReleases(s, e, past);
      DoResponses(s, e, past);
      DoWire(s, e, past);
      AfterSourced(Do(s, e), past + [e], events[1..]);
      assert past + [e] + events[1..] == past + events;
    }
  }

  /** Over every run: a hook is answered with "continue", or with what one of its early
      releases says, so with "continue" if there was none; an `rpc_command` is answered
      with "continue"; and any other command with a reply some module gave. */
  lemma RepliesAreExplained(events: seq<Event>, s: State, k: nat)
    requires After(Start, events) == Reached(s) && k < |s.recv.wire|
    ensures var reply := s.recv.wire[k]; var id := reply.id;
            && (Command(id, true) in events ==> Explained(reply, events))
            && (Command(id, true) in events && (forall v :: EarlyRelease(Response(id, v)) !in events) ==>
                  reply.result == HookContinue)
            && (RpcCommand(id) in events ==> reply.result == HookContinue)
            && (Command(id, true) !in events && RpcCommand(id) !in events ==> OtherReply(reply) in events)
  {
    StartSourced();
    AfterSourced(Start, [], events);
    assert [] + events == events;
    assert KnowsCommands(s, events) && Sourced(s.recv.wire[k], events);
  }

  lemma StartSourced()
    ensures Inv(Start) && AllSourced(Start, [])
  {
  }

  // --------------------------------------------------------- when hooks go on

  predicate SomeTrue(results: seq<bool>) {
    exists i :: 0 <= i < |results| && results[i]
  }

  /** The deferrers returned, and some of them asked for time. */
  ghost predicate WasDeferred(id: Id, past: seq<Event>) {
    exists results :: Decide(id, results) in past && SomeTrue(results)
  }

  /** They returned, and none asked for time or the time is over. */
  ghost predicate MayGoOn(id: Id, past: seq<Event>) {
    exists results :: Decide(id, results) in past && (!SomeTrue(results) || TimerDone(id) in past)
  }

  ghost predicate KeepsTime(s: State, past: seq<Event>, id: Id) {
    && (At(s, id, Waiting) || TimerDone(id) in past ==> WasDeferred(id, past))
    && (At(s, id, Finishing) || Finish(id) in past ==> MayGoOn(id, past))
  }

  lemma DoKeepsTime(s: State, e: Event, past: seq<Event>, id: Id)
    requires KeepsTime(s, past, id) && Enabled(s, e)
    ensures KeepsTime(Do(s, e), past + [e], id)
  {
    hide RemoveAt, Answer;
    TimeLater(id, past, e);
    if e.Decide? && e.id == id {
      assert Decide(id, e.results) in past + [e];
      assert AnyOf(e.results) <==> SomeTrue(e.results);
      hide AnyOf, SomeTrue;
    } else if e == TimerDone(id) {
      var results :| Decide(id, results) in past && SomeTrue(results);
      assert Decide(id, results) in past + [e] && TimerDone(id) in past + [e];
      hide SomeTrue;
    }
  }

  lemma TimeLater(id: Id, past: seq<Event>, e: Event)
    ensures WasDeferred(id, past) ==> WasDeferred(id, past + [e])
    ensures MayGoOn(id, past) ==> MayGoOn(id, past + [e])
  {
    hide SomeTrue;
    if WasDeferred(id, past) {
      var results :| Decide(id, results) in past && SomeTrue(results);
      assert Decide(id, results) in past + [e];
    }
    if MayGoOn(id, past) {
      var results :| Decide(id, results) in past && (!SomeTrue(results) || TimerDone(id) in past);
      assert Decide(id, results) in past + [e];
    }
  }

  lemma {:induction false} AfterKeepsTime(s: State, past: seq<Event>, events: seq<Event>, id: Id)
    requires KeepsTime(s, past, id) && After(s, events).Reached?
    ensures KeepsTime(After(s, events).state, past + events, id)
    decreases |events|
  {
    hide KeepsTime, Do, Enabled;
    if events == [] {
      assert past + events == past;
    } else {
      DoKeepsTime(s, events[0], past, id);
      AfterKeepsTime(Do(s, events[0]), past + [events[0]], events[1..], id);
      assert past + [events[0]] + events[1..] == past + events;
    }
  }

  /** Over every run: the acceptor lets a hook go on by itself only after its deferrers
      have returned and either none asked for time or the timer has run out; and the
      timer runs only if some deferrer asked. */
  lemma HooksWaitIfDeferred(events: seq<Event>, id: Id)
    requires After(Start, events).Reached?
    ensures Finish(id) in events ==> MayGoOn(id, events)
    ensures TimerDone(id) in events ==> WasDeferred(id, events)
  {
    AfterKeepsTime(Start, [], events, id);
    assert [] + events == events;
  }

  /** Deferrers are solicited by one thread, once: when a hook is shown to them the
      list is complete and no step changes it afterwards. */
  lemma DeferrersAreFixed(s: State, e: Event)
    requires Reachable(s) && Enabled(s, e)
    requires exists id :: id in s.thread && !At(s, id, Soliciting) && !At(s, id, Raising)
    ensures Do(s, e).acc.deferrers == s.acc.deferrers && !Do(s, e).acc.soliciting
  {
    ReachedInv(s);
    hide Reachable, AllGood, Contents;
  }

  // --------------------------------------------------------------- the modules

  class CommandReceiver {
    var pendings: set<Id>
    var wire: seq<Reply>

    ghost function Abs(): Receiver
      reads this
    {
      Receiver(pendings, wire)
    }

    constructor ()
      ensures Abs() == Start.recv
    {
      pendings, wire := {}, [];
    }

    method OnCommand(id: Id, rpcCommand: bool)
      modifies this
      ensures Abs() == if rpcCommand then AnswerRpc(old(Abs()), id) else AddPending(old(Abs()), id)
    {
      if rpcCommand {
        wire := wire + [Reply(id, HookContinue)];
      } else {
        pendings := pendings + {id};
      }
    }

    method OnCommandResponse(id: Id, response: Result)
      modifies this
      ensures Abs() == Answer(old(Abs()), Reply(id, response))
    {
      if id !in pendings {
        return;
      }
      pendings := pendings - {id};
      wire := wire + [Reply(id, response)];
    }

    method OnCommandFail(id: Id, code: int)
      modifies this
      ensures Abs() == Answer(old(Abs()), Reply(id, Error(code)))
    {
      if id !in pendings {
        return;
      }
      pendings := pendings - {id};
      wire := wire + [Reply(id, Error(code))];
    }
  }

  /** Each method is one atomic body of the module; its results say which message is
      raised and where the thread goes next. */
  class HtlcAcceptor {
    var soliciting: bool
    var solicited: bool
    var deferrers: nat
    var deferring: set<Id>
    var deferred: set<Id>

    ghost function Abs(): Acceptor
      reads this
    {
      Acceptor(soliciting, solicited, deferrers, deferring, deferred)
    }

    constructor ()
      ensures Abs() == Start.acc
    {
      soliciting, solicited, deferrers, deferring, deferred := false, false, 0, {}, {};
    }

    method OnProvide(ghost s: State)
      requires s.acc == Abs()
      modifies this
      ensures Abs() == Do(s, Provide).acc
    {
      if soliciting {
        deferrers := deferrers + 1;
      }
    }

    method OnSolicit(id: Id, ghost s: State) returns (next: Phase)
      requires s.acc == Abs() && At(s, id, Soliciting)
      modifies this
      ensures Abs() == Do(s, Solicit(id)).acc && next == Do(s, Solicit(id)).thread[id]
    {
      if solicited {
        return Arrived;
      }
      if soliciting {
        return Soliciting;
      }
      soliciting := true;
      next := Raising;
    }

    method OnSolicited(id: Id, ghost s: State)
      requires s.acc == Abs() && At(s, id, Raising)
      modifies this
      ensures Abs() == Do(s, Solicited(id)).acc
    {
      soliciting := false;
      solicited := true;
    }

    method OnInform(id: Id, ghost s: State)
      requires s.acc == Abs() && At(s, id, Arrived)
      modifies this
      ensures Abs() == Do(s, Inform(id)).acc
    {
      deferring := deferring + {id};
    }

    method OnDecided(id: Id, results: seq<bool>, ghost s: State) returns (next: Phase)
      requires s.acc == Abs() && Enabled(s, Decide(id, results))
      modifies this
      ensures Abs() == Do(s, Decide(id, results)).acc && next == Do(s, Decide(id, results)).thread[id]
    {
      if id !in deferring {
        return Ended;
      }
      deferring := deferring - {id};
      deferred := deferred + {id};
      next := if AnyOf(results) then Waiting else Finishing;
    }

    method OnFinish(id: Id, ghost s: State) returns (raised: seq<Response>)
      requires s.acc == Abs() && At(s, id, Finishing)
      ensures s.releases + raised == Do(s, Finish(id)).releases && Abs() == Do(s, Finish(id)).acc
    {
      if id !in deferred {
        return [];
      }
      raised := [Response(id, Cont)];
    }

    method OnRelease(resp: Response, ghost s: State, ghost k: nat) returns (raised: seq<Reply>)
      requires s.acc == Abs() && k < |s.releases| && s.releases[k] == resp
      modifies this
      ensures Abs() == DoRelease(s, k).acc && s.responses + raised == DoRelease(s, k).responses
    {
      if resp.id in deferred {
        deferred := deferred - {resp.id};
      } else if resp.id in deferring {
        deferring := deferring - {resp.id};
      } else {
        return [];
      }
      raised := [Reply(resp.id, ResultOf(resp.verdict))];
    }
  }
}
