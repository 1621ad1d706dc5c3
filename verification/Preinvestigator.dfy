/** `ChannelCandidatePreinvestigator`: every Case works through its own queue of
    candidates, all Cases waiting for one node share a single connect attempt, and
    the answer is fanned out to them. */
module Preinvestigator {
  type Node = nat
  type CaseId = nat

  datatype Candidate = Candidate(proposal: Node, patron: Node)

  /** Where the green thread of a Case stands. */
  datatype Phase =
    | Waiting                      // registered under the node of its front candidate
    | Logging(curr: Candidate)     // answered with success; about to propose `curr`
    | Moving                       // about to look at its next candidate
    | Finished

  /** `candidates` and `remaining` are the Case's own fields.  `all` and `limit` are
      what it was created with; `answers` and `proposed` record what happened to it. */
  datatype Case = Case(
    candidates: seq<Candidate>, remaining: nat, phase: Phase,
    all: seq<Candidate>, limit: nat, answers: seq<bool>, proposed: seq<Candidate>)

  /** `scheduled` holds the RequestConnect messages that an action already built will
      raise, `awaited` the ones raised and not answered. */
  datatype State = State(
    offline: bool, waiting: map<Node, seq<CaseId>>, table: seq<Case>,
    scheduled: multiset<Node>, awaited: multiset<Node>)

  const Start := State(false, map[], [], multiset{}, multiset{})

  // ------------------------------------------------------------ what steps do

  function WaitingOn(s: State, n: Node): seq<CaseId> {
    if n in s.waiting then s.waiting[n] else []
  }

  /** `add_case`, and the RequestConnect of the first Case on a node. */
  function Register(s: State, id: CaseId, n: Node): State {
    s.(waiting := s.waiting[n := WaitingOn(s, n) + [id]],
       scheduled := if WaitingOn(s, n) == [] then s.scheduled + multiset{n} else s.scheduled)
  }

  function SetPhase(s: State, id: CaseId, phase: Phase): State
    requires id < |s.table|
  {
    s.(table := s.table[id := s.table[id].(phase := phase)])
  }

  function Ends(c: Case): bool {
    c.candidates == [] || c.remaining == 0
  }

  /** `Case::loop`. */
  function Loop(s: State, id: CaseId): State
    requires id < |s.table|
  {
    if Ends(s.table[id]) then SetPhase(s, id, Finished)
    else Register(SetPhase(s, id, Waiting), id, s.table[id].candidates[0].proposal)
  }

  /** The front candidate is taken off, and a success uses up one of the proposals. */
  function Pop(c: Case, ok: bool): Case
    requires c.candidates != [] && c.remaining > 0
  {
    c.(candidates := c.candidates[1..], answers := c.answers + [ok],
       remaining := if ok then c.remaining - 1 else c.remaining,
       phase := if ok then Logging(c.candidates[0]) else Moving)
  }

  /** `Case::on_connect_response`. */
  function Answered(s: State, id: CaseId, ok: bool): State
    requires id < |s.table| && s.table[id].candidates != [] && s.table[id].remaining > 0
  {
    var s' := s.(table := s.table[id := Pop(s.table[id], ok)]);
    if ok then s' else Loop(s', id)
  }

  /** The fan-out to the detached Cases, in order. */
  ghost function AnswerAll(s: State, ids: seq<CaseId>, n: Node, ok: bool): (s': State)
    requires Inv(s, ids, n)
    ensures Inv(s', [], n)
    decreases |ids|
  {
    if ids == [] then s
    else
      FirstIsWaiting(s, ids, n);
      AnsweredInv(s, ids, n, ok);
      AnswerAll(Answered(s, ids[0], ok), ids[1..], n, ok)
  }

  function Detach(s: State, n: Node): State {
    s.(waiting := s.waiting - {n})
  }

  /** `on_connect`, for the answer to a request of this module or of another one. */
  ghost function OnConnectOf(s: State, n: Node, ok: bool, ours: bool): (s': State)
    requires Inv(s, [], n) && (ours ==> s.awaited[n] > 0)
    ensures Inv(s', [], n)
  {
    var s1 := Seen(s, n, ours);
    if n !in s.waiting || s.waiting[n] == [] then NobodyWaitsInv(s, n, ours); s1
    else
      DetachInv(s, n, ours);
      AnswerAll(Detach(s1, n), s.waiting[n], n, ok)
  }

  function Seen(s: State, n: Node, ours: bool): State
    requires ours ==> s.awaited[n] > 0
  {
    if ours then s.(awaited := s.awaited - multiset{n}) else s
  }

  /** `on_preinv`. */
  function Preinvestigate(s: State, candidates: seq<Candidate>, limit: nat): State {
    if s.offline then s
    else Loop(s.(table := s.table + [NewCase(candidates, limit)]), |s.table|)
  }

  function NewCase(candidates: seq<Candidate>, limit: nat): Case {
    Case(candidates, limit, Moving, candidates, limit, [], [])
  }

  /** The action built by `loop` runs and raises RequestConnect. */
  function RaiseConnect(s: State, n: Node): State
    requires s.scheduled[n] > 0
  {
    s.(scheduled := s.scheduled - multiset{n}, awaited := s.awaited + multiset{n})
  }

  /** `on_success` raises the proposal. */
  function ProposeOf(s: State, id: CaseId): State
    requires id < |s.table| && s.table[id].phase.Logging?
  {
    var c := s.table[id];
    s.(table := s.table[id := c.(phase := Moving, proposed := c.proposed + [c.phase.curr])])
  }

  // -------------------------------------------------------------- the invariant

  /** The candidates whose connect succeeded, in order. */
  function Picked(all: seq<Candidate>, answers: seq<bool>): seq<Candidate>
    requires |answers| <= |all|
  {
    if answers == [] then []
    else
      var k := |answers| - 1;
      Picked(all, answers[..k]) + if answers[k] then [all[k]] else []
  }

  function InHand(p: Phase): seq<Candidate> {
    if p.Logging? then [p.curr] else []
  }

  /** The queue is what has not been answered; the proposals made, and the one about
      to be made, are the successes in order, and with `remaining` fill the limit. */
  predicate CaseInv(c: Case) {
    && |c.answers| <= |c.all| && c.candidates == c.all[|c.answers|..]
    && c.proposed + InHand(c.phase) == Picked(c.all, c.answers)
    && |Picked(c.all, c.answers)| + c.remaining == c.limit
    && (c.phase.Waiting? ==> !Ends(c))
    && (c.phase.Finished? ==> Ends(c))
  }

  predicate AllCases(table: seq<Case>) {
    forall id :: 0 <= id < |table| ==> CaseInv(table[id])
  }

  /** Case `id` wants an answer about node `n`. */
  predicate Wants(table: seq<Case>, id: CaseId, n: Node) {
    && id < |table| && table[id].phase.Waiting?
    && table[id].candidates != [] && table[id].remaining > 0 && table[id].candidates[0].proposal == n
  }

  predicate Distinct(ids: seq<CaseId>) {
    forall i, j :: 0 <= i < j < |ids| ==> ids[i] != ids[j]
  }

  predicate AllWant(table: seq<Case>, ids: seq<CaseId>, n: Node) {
    Distinct(ids) && forall i :: 0 <= i < |ids| ==> Wants(table, ids[i], n)
  }

  /** Every registered Case waits for the node it is registered under. */
  ghost predicate EntriesWant(s: State) {
    forall n :: AllWant(s.table, WaitingOn(s, n), n)
  }

  /** A waiting Case is registered, or is in the list being fanned out, not both. */
  ghost predicate AllRegistered(s: State, loose: seq<CaseId>, n: Node) {
    && AllWant(s.table, loose, n)
    && (forall id :: id in loose ==> id !in WaitingOn(s, n))
    && (forall id, m :: Wants(s.table, id, m) ==> id in WaitingOn(s, m) || id in loose)
  }

  function Outstanding(s: State, n: Node): nat {
    s.scheduled[n] + s.awaited[n]
  }

  /** One connect per node that some Case waits for. */
  function Needed(s: State, n: Node): nat {
    if WaitingOn(s, n) == [] then 0 else 1
  }

  predicate OwedOn(s: State, n: Node) {
    Outstanding(s, n) >= Needed(s, n)
  }

  ghost predicate Owed(s: State) {
    forall n :: OwedOn(s, n)
  }

  ghost predicate Inv(s: State, loose: seq<CaseId>, n: Node) {
    AllCases(s.table) && EntriesWant(s) && AllRegistered(s, loose, n) && Owed(s)
  }

  /** Between fan-outs the node plays no part. */
  lemma InvAnyNode(s: State, n: Node, m: Node)
    requires Inv(s, [], n)
    ensures Inv(s, [], m)
  {
    hide AllCases, EntriesWant, Owed, Wants;
  }

  // ------------------------------------------------------------------ the steps

  lemma FirstIsWaiting(s: State, ids: seq<CaseId>, n: Node)
    requires Inv(s, ids, n) && ids != []
    ensures Wants(s.table, ids[0], n) && ids[0] !in WaitingOn(s, n) && ids[0] !in ids[1..]
  {
    hide AllCases, EntriesWant, Owed, Wants;
    assert ids[0] in ids;
  }

  lemma PopKeepsCase(c: Case, ok: bool)
    requires CaseInv(c) && c.phase.Waiting?
    ensures CaseInv(Pop(c, ok))
  {
    var c' := Pop(c, ok);
    assert c'.answers[..|c.answers|] == c.answers;
    assert c.candidates[0] == c.all[|c.answers|];
    assert Picked(c.all, c'.answers) == Picked(c.all, c.answers) + if ok then [c.candidates[0]] else [];
  }

  /** Changing the row of a Case nobody holds leaves the entries alone. */
  lemma EntriesKeep(s: State, s': State, id: CaseId)
    requires EntriesWant(s) && s'.waiting == s.waiting && |s.table| <= |s'.table|
    requires forall i :: 0 <= i < |s.table| && i != id ==> s'.table[i] == s.table[i]
    requires forall m :: id !in WaitingOn(s, m)
    ensures EntriesWant(s')
  {
    forall m ensures AllWant(s'.table, WaitingOn(s', m), m) {
      assert AllWant(s.table, WaitingOn(s, m), m);
      KeepsWanting(s.table, s'.table, WaitingOn(s, m), m, id);
    }
  }

  lemma KeepsWanting(t: seq<Case>, t': seq<Case>, ids: seq<CaseId>, n: Node, id: CaseId)
    requires AllWant(t, ids, n) && |t| <= |t'| && id !in ids
    requires forall i :: 0 <= i < |t| && i != id ==> t'[i] == t[i]
    ensures AllWant(t', ids, n)
  {
    forall i | 0 <= i < |ids| ensures Wants(t', ids[i], n) {
      assert ids[i] in ids;
      assert Wants(t, ids[i], n);
    }
  }

  /** A Case that is not waiting, or waits elsewhere, is in no entry. */
  lemma NotListed(s: State, id: CaseId, m: Node)
    requires EntriesWant(s) && !Wants(s.table, id, m)
    ensures id !in WaitingOn(s, m)
  {
    assert AllWant(s.table, WaitingOn(s, m), m);
    hide Wants, WaitingOn;
  }

  lemma PopInv(s: State, ids: seq<CaseId>, n: Node, ok: bool)
    requires Inv(s, ids, n) && ids != [] && Wants(s.table, ids[0], n)
    ensures Inv(s.(table := s.table[ids[0] := Pop(s.table[ids[0]], ok)]), ids[1..], n)
  {
    var id := ids[0];
    var s' := s.(table := s.table[id := Pop(s.table[id], ok)]);
    assert AllCases(s'.table) by {
      hide CaseInv, Pop;
      PopKeepsCase(s.table[id], ok);
    }
    hide CaseInv, AllCases;
    FirstIsWaiting(s, ids, n);
    forall m ensures id !in WaitingOn(s, m) {
      if m != n {
        NotListed(s, id, m);
      }
    }
    EntriesKeep(s, s', id);
    PopRegistered(s, ids, n, s');
    assert Owed(s') by {
      hide EntriesWant, AllRegistered;
      forall m ensures OwedOn(s', m) {
        assert OwedOn(s, m);
      }
    }
  }

  lemma PopRegistered(s: State, ids: seq<CaseId>, n: Node, s': State)
    requires AllRegistered(s, ids, n) && ids != [] && ids[0] !in ids[1..] && s'.waiting == s.waiting
    requires |s'.table| == |s.table| && ids[0] < |s.table| && !s'.table[ids[0]].phase.Waiting?
    requires forall i :: 0 <= i < |s.table| && i != ids[0] ==> s'.table[i] == s.table[i]
    ensures AllRegistered(s', ids[1..], n)
  {
    assert AllWant(s.table, ids[1..], n) by {
      hide Wants;
    }
    KeepsWanting(s.table, s'.table, ids[1..], n, ids[0]);
    assert forall m :: WaitingOn(s', m) == WaitingOn(s, m);
    forall id, m | Wants(s'.table, id, m) ensures id in WaitingOn(s', m) || id in ids[1..] {
      assert id != ids[0] && Wants(s.table, id, m);
      assert ids == [ids[0]] + ids[1..];
    }
  }

  lemma FinishInv(s: State, loose: seq<CaseId>, n: Node, id: CaseId)
    requires Inv(s, loose, n) && id < |s.table| && s.table[id].phase.Moving? && Ends(s.table[id])
    ensures Inv(SetPhase(s, id, Finished), loose, n)
  {
    SetPhaseInv(s, loose, n, SetPhase(s, id, Finished), id);
  }

  /** A Case that does not wait before and after is nobody's business. */
  lemma SetPhaseInv(s: State, loose: seq<CaseId>, n: Node, s': State, id: CaseId)
    requires Inv(s, loose, n) && id < |s.table| && !s.table[id].phase.Waiting?
    requires |s'.table| == |s.table| && s' == s.(table := s.table[id := s'.table[id]])
    requires CaseInv(s'.table[id]) && !s'.table[id].phase.Waiting?
    ensures Inv(s', loose, n)
  {
    hide CaseInv;
    assert AllCases(s'.table);
    hide AllCases;
    forall m ensures id !in WaitingOn(s, m) {
      NotListed(s, id, m);
    }
    EntriesKeep(s, s', id);
    assert Owed(s') by {
      hide EntriesWant, AllRegistered;
      forall m ensures OwedOn(s', m) {
        assert OwedOn(s, m);
      }
    }
    hide Owed, EntriesWant;
    assert AllRegistered(s', loose, n) by {
      assert id !in loose;
      KeepsWanting(s.table, s'.table, loose, n, id);
      assert forall m :: WaitingOn(s', m) == WaitingOn(s, m);
      forall i, m | Wants(s'.table, i, m) ensures i in WaitingOn(s', m) || i in loose {
        assert i != id && Wants(s.table, i, m);
      }
    }
  }

  lemma RegisterInv(s: State, loose: seq<CaseId>, n: Node, id: CaseId)
    requires Inv(s, loose, n) && id < |s.table| && s.table[id].phase.Moving? && !Ends(s.table[id])
    ensures Inv(Loop(s, id), loose, n)
  {
    var s1 := SetPhase(s, id, Waiting);
    var m := s.table[id].candidates[0].proposal;
    var s' := Register(s1, id, m);
    assert AllCases(s'.table) by {
      assert CaseInv(s.table[id]);
      hide AllRegistered, EntriesWant, Owed;
    }
    hide AllCases, CaseInv;
    assert Wants(s'.table, id, m);
    forall k ensures id !in WaitingOn(s, k) {
      NotListed(s, id, k);
    }
    EntriesKeep(s, s1, id);
    assert WaitingOn(s1, m) == WaitingOn(s, m);
    RegisterEntries(s1, id, m);
    RegisterOwed(s, s', id, m);
    hide Owed, EntriesWant;
    RegisterRegistered(s, loose, n, s', id, m);
  }

  lemma RegisterEntries(s: State, id: CaseId, m: Node)
    requires EntriesWant(s) && Wants(s.table, id, m) && id !in WaitingOn(s, m)
    ensures EntriesWant(Register(s, id, m))
  {
    hide Wants;
    var s' := Register(s, id, m);
    forall k ensures AllWant(s'.table, WaitingOn(s', k), k) {
      assert AllWant(s.table, WaitingOn(s, k), k);
    }
  }

  lemma RegisterOwed(s: State, s': State, id: CaseId, m: Node)
    requires Owed(s) && s'.waiting == s.waiting[m := WaitingOn(s, m) + [id]]
    requires s'.awaited == s.awaited
    requires s'.scheduled == if WaitingOn(s, m) == [] then s.scheduled + multiset{m} else s.scheduled
    ensures Owed(s')
  {
    forall k ensures OwedOn(s', k) {
      assert OwedOn(s, k);
    }
  }

  lemma RegisterRegistered(s: State, loose: seq<CaseId>, n: Node, s': State, id: CaseId, m: Node)
    requires AllRegistered(s, loose, n) && id < |s.table| && !s.table[id].phase.Waiting?
    requires |s'.table| == |s.table| && forall i :: 0 <= i < |s.table| && i != id ==> s'.table[i] == s.table[i]
    requires s'.waiting == s.waiting[m := WaitingOn(s, m) + [id]] && Wants(s'.table, id, m)
    ensures AllRegistered(s', loose, n)
  {
    assert id !in loose;
    KeepsWanting(s.table, s'.table, loose, n, id);
    forall i, k | Wants(s'.table, i, k) ensures i in WaitingOn(s', k) || i in loose {
      if i != id {
        assert Wants(s.table, i, k);
      }
    }
  }

  lemma LoopInv(s: State, loose: seq<CaseId>, n: Node, id: CaseId)
    requires Inv(s, loose, n) && id < |s.table| && s.table[id].phase.Moving?
    ensures Inv(Loop(s, id), loose, n)
  {
    hide Inv;
    if Ends(s.table[id]) {
      FinishInv(s, loose, n, id);
    } else {
      RegisterInv(s, loose, n, id);
    }
  }

  lemma AnsweredInv(s: State, ids: seq<CaseId>, n: Node, ok: bool)
    requires Inv(s, ids, n) && ids != [] && Wants(s.table, ids[0], n)
    ensures Inv(Answered(s, ids[0], ok), ids[1..], n)
  {
    hide Inv, Loop;
    PopInv(s, ids, n, ok);
    if !ok {
      LoopInv(s.(table := s.table[ids[0] := Pop(s.table[ids[0]], ok)]), ids[1..], n, ids[0]);
    }
  }

  lemma NobodyWaitsInv(s: State, n: Node, ours: bool)
    requires Inv(s, [], n) && WaitingOn(s, n) == [] && (ours ==> s.awaited[n] > 0)
    ensures Inv(Seen(s, n, ours), [], n)
  {
    hide AllCases, Wants;
    var s' := Seen(s, n, ours);
    assert forall m :: WaitingOn(s', m) == WaitingOn(s, m);
    forall m ensures OwedOn(s', m) {
      assert OwedOn(s, m) && OwedOn(s, n);
    }
    hide Owed;
  }

  lemma DetachInv(s: State, n: Node, ours: bool)
    requires Inv(s, [], n) && WaitingOn(s, n) != [] && (ours ==> s.awaited[n] > 0)
    ensures Inv(Detach(Seen(s, n, ours), n), s.waiting[n], n)
  {
    hide AllCases, Wants;
    var s' := Detach(Seen(s, n, ours), n);
    assert forall m :: WaitingOn(s', m) == if m == n then [] else WaitingOn(s, m);
    forall m ensures OwedOn(s', m) {
      assert OwedOn(s, m) && OwedOn(s, n);
    }
    hide Owed, OwedOn, Outstanding;
    assert AllWant(s.table, WaitingOn(s, n), n);
    forall m ensures AllWant(s'.table, WaitingOn(s', m), m) {
      assert AllWant(s.table, WaitingOn(s, m), m);
    }
  }

  lemma NewCaseInv(s: State, n: Node, candidates: seq<Candidate>, limit: nat)
    requires Inv(s, [], n)
    ensures Inv(Preinvestigate(s, candidates, limit), [], n)
  {
    if !s.offline {
      var c := NewCase(candidates, limit);
      var s1 := s.(table := s.table + [c]);
      assert CaseInv(c);
      hide CaseInv;
      forall m ensures OwedOn(s1, m) {
        assert OwedOn(s, m);
      }
      assert AllCases(s1.table);
      hide Owed, AllCases;
      forall m ensures |s.table| !in WaitingOn(s, m) {
        NotListed(s, |s.table|, m);
      }
      EntriesKeep(s, s1, |s.table|);
      assert forall m :: WaitingOn(s1, m) == WaitingOn(s, m);
      forall id: nat, m | Wants(s1.table, id, m) ensures id in WaitingOn(s1, m) {
        assert id < |s.table| && Wants(s.table, id, m);
      }
      assert Inv(s1, [], n);
      hide Inv;
      LoopInv(s1, [], n, |s.table|);
    }
  }

  lemma RaiseInv(s: State, n: Node, m: Node)
    requires Inv(s, [], n) && s.scheduled[m] > 0
    ensures Inv(RaiseConnect(s, m), [], n)
  {
    hide AllCases, Wants;
    var s' := RaiseConnect(s, m);
    assert forall k :: WaitingOn(s', k) == WaitingOn(s, k);
    forall k ensures OwedOn(s', k) {
      assert OwedOn(s, k);
    }
    hide Owed, OwedOn, Outstanding;
  }

  lemma ProposeInv(s: State, n: Node, id: CaseId)
    requires Inv(s, [], n) && id < |s.table| && s.table[id].phase.Logging?
    ensures Inv(ProposeOf(s, id), [], n)
  {
    assert CaseInv(s.table[id]);
    hide Inv;
    SetPhaseInv(s, [], n, ProposeOf(s, id), id);
  }

  // --------------------------------------------------------------------- runs

  datatype Event =
    | Init(offline: bool)
    | Preinv(candidates: seq<Candidate>, limit: nat)
    | Raised(n: Node)
    | Answer(n: Node, ok: bool)
    | ForeignAnswer(n: Node, ok: bool)
    | Proposed(id: CaseId)
    | Continued(id: CaseId)

  predicate Enabled(s: State, e: Event) {
    match e
    case Init(_) => true
    case Preinv(_, _) => true
    case Raised(n) => s.scheduled[n] > 0
    case Answer(n, _) => s.awaited[n] > 0
    case ForeignAnswer(_, _) => true
    case Proposed(id) => id < |s.table| && s.table[id].phase.Logging?
    case Continued(id) => id < |s.table| && s.table[id].phase.Moving?
  }

  ghost predicate Rest(s: State) {
    Inv(s, [], 0)
  }

  ghost function Do(s: State, e: Event): State
    requires Rest(s) && Enabled(s, e)
  {
    match e
    case Init(offline) => s.(offline := offline)
    case Preinv(candidates, limit) => Preinvestigate(s, candidates, limit)
    case Raised(n) => RaiseConnect(s, n)
    case Answer(n, ok) => InvAnyNode(s, 0, n); OnConnectOf(s, n, ok, true)
    case ForeignAnswer(n, ok) => InvAnyNode(s, 0, n); OnConnectOf(s, n, ok, false)
    case Proposed(id) => ProposeOf(s, id)
    case Continued(id) => Loop(s, id)
  }

  lemma OfflineInv(s: State, offline: bool)
    requires Rest(s)
    ensures Rest(s.(offline := offline))
  {
    hide AllCases, Wants;
    var s' := s.(offline := offline);
    assert forall m :: WaitingOn(s', m) == WaitingOn(s, m);
    forall m ensures OwedOn(s', m) {
      assert OwedOn(s, m);
    }
    hide Owed;
  }

  lemma DoInv(s: State, e: Event)
    requires Rest(s) && Enabled(s, e)
    ensures Rest(Do(s, e))
  {
    hide Inv, OnConnectOf, Loop, Preinvestigate;
    match e {
      case Init(offline) => OfflineInv(s, offline);
      case Preinv(candidates, limit) => NewCaseInv(s, 0, candidates, limit);
      case Raised(n) => RaiseInv(s, 0, n);
      case Answer(n, ok) => InvAnyNode(s, 0, n); InvAnyNode(OnConnectOf(s, n, ok, true), n, 0);
      case ForeignAnswer(n, ok) => InvAnyNode(s, 0, n); InvAnyNode(OnConnectOf(s, n, ok, false), n, 0);
      case Proposed(id) => ProposeInv(s, 0, id);
      case Continued(id) => LoopInv(s, [], 0, id);
    }
  }

  lemma StartInv()
    ensures Rest(Start)
  {
  }

  datatype Outcome = Impossible | Reached(state: State)

  ghost function After(s: State, events: seq<Event>): (r: Outcome)
    requires Rest(s)
    ensures r.Reached? ==> Rest(r.state)
    decreases |events|
  {
    if events == [] then Reached(s)
    else if !Enabled(s, events[0]) then Impossible
    else DoInv(s, events[0]); After(Do(s, events[0]), events[1..])
  }

  ghost predicate Reachable(s: State) {
    exists events :: StartInv(); After(Start, events) == Reached(s)
  }

  // ------------------------------------------------------------ who hears what

  predicate SameQuestion(c: Case, c': Case) {
    c'.all == c.all && c'.limit == c.limit
  }

  lemma LoopTable(s: State, id: CaseId)
    requires id < |s.table|
    ensures |Loop(s, id).table| == |s.table|
  {
  }

  lemma LoopHears(s: State, id: CaseId, i: CaseId)
    requires id < |s.table| && i < |s.table|
    ensures |Loop(s, id).table| == |s.table|
    ensures Loop(s, id).table[i].answers == s.table[i].answers && SameQuestion(s.table[i], Loop(s, id).table[i])
  {
  }

  lemma AnsweredHears(s: State, id: CaseId, ok: bool, i: CaseId)
    requires id < |s.table| && s.table[id].candidates != [] && s.table[id].remaining > 0 && i < |s.table|
    ensures |Answered(s, id, ok).table| == |s.table| && SameQuestion(s.table[i], Answered(s, id, ok).table[i])
    ensures Answered(s, id, ok).table[i].answers == s.table[i].answers + if i == id then [ok] else []
  {
    hide Loop;
    var s' := s.(table := s.table[id := Pop(s.table[id], ok)]);
    if !ok {
      LoopHears(s', id, i);
    }
  }

  lemma {:induction false} AnswerAllHears(s: State, ids: seq<CaseId>, n: Node, ok: bool, i: CaseId)
    requires Inv(s, ids, n) && i < |s.table|
    ensures var s' := AnswerAll(s, ids, n, ok);
            && |s'.table| == |s.table| && SameQuestion(s.table[i], s'.table[i])
            && s'.table[i].answers == s.table[i].answers + if i in ids then [ok] else []
    decreases |ids|
  {
    hide Inv, Answered;
    if ids != [] {
      FirstIsWaiting(s, ids, n);
      AnsweredInv(s, ids, n, ok);
      AnsweredHears(s, ids[0], ok, i);
      AnswerAllHears(Answered(s, ids[0], ok), ids[1..], n, ok, i);
      assert ids == [ids[0]] + ids[1..];
    }
  }

  lemma OnConnectHears(s: State, n: Node, ok: bool, ours: bool, i: CaseId)
    requires Inv(s, [], n) && (ours ==> s.awaited[n] > 0) && i < |s.table|
    ensures var s' := OnConnectOf(s, n, ok, ours);
            && |s'.table| == |s.table| && SameQuestion(s.table[i], s'.table[i])
            && s'.table[i].answers == s.table[i].answers + if i in WaitingOn(s, n) then [ok] else []
  {
    hide Inv, AnswerAll;
    if WaitingOn(s, n) != [] {
      DetachInv(s, n, ours);
      AnswerAllHears(Detach(Seen(s, n, ours), n), s.waiting[n], n, ok, i);
    }
  }

  /** An answer about a node is heard, as it is, by exactly the Cases waiting for that
      node; a new Case asks about the candidates it was given; nothing else changes
      what a Case asks or has heard. */
  lemma AnswersAreHeard(s: State, e: Event, i: CaseId)
    requires Rest(s) && Enabled(s, e) && i < |Do(s, e).table|
    ensures var c' := Do(s, e).table[i];
            if i < |s.table|
            then && SameQuestion(s.table[i], c')
                 && c'.answers == s.table[i].answers +
                      if (e.Answer? || e.ForeignAnswer?) && i in WaitingOn(s, e.n) then [e.ok] else []
            else e.Preinv? && !s.offline && i == |s.table|
                 && c'.all == e.candidates && c'.limit == e.limit && c'.answers == []
  {
    hide Inv, OnConnectOf, Loop;
    match e {
      case Init(_) =>
      case Preinv(candidates, limit) =>
        if !s.offline {
          LoopTable(s.(table := s.table + [NewCase(candidates, limit)]), |s.table|);
          LoopHears(s.(table := s.table + [NewCase(candidates, limit)]), |s.table|, i);
        }
      case Raised(_) =>
      case Answer(n, ok) =>
        InvAnyNode(s, 0, n);
        HearsTable(s, n, ok, true);
        OnConnectHears(s, n, ok, true, i);
      case ForeignAnswer(n, ok) =>
        InvAnyNode(s, 0, n);
        HearsTable(s, n, ok, false);
        OnConnectHears(s, n, ok, false, i);
      case Proposed(_) =>
      case Continued(id) => LoopTable(s, id); LoopHears(s, id, i);
    }
  }

  lemma HearsTable(s: State, n: Node, ok: bool, ours: bool)
    requires Inv(s, [], n) && (ours ==> s.awaited[n] > 0)
    ensures |OnConnectOf(s, n, ok, ours).table| == |s.table|
  {
    hide Inv, AnswerAll;
    if WaitingOn(s, n) != [] {
      DetachInv(s, n, ours);
      AnswerAllTable(Detach(Seen(s, n, ours), n), s.waiting[n], n, ok);
    }
  }

  lemma {:induction false} AnswerAllTable(s: State, ids: seq<CaseId>, n: Node, ok: bool)
    requires Inv(s, ids, n)
    ensures |AnswerAll(s, ids, n, ok).table| == |s.table|
    decreases |ids|
  {
    hide Inv;
    if ids != [] {
      FirstIsWaiting(s, ids, n);
      AnsweredInv(s, ids, n, ok);
      AnswerAllTable(Answered(s, ids[0], ok), ids[1..], n, ok);
    }
  }

  // ------------------------------------------------------- connects too many

  /** Connects outstanding beyond what the waiting Cases need. */
  function Surplus(s: State, n: Node): int {
    Outstanding(s, n) - Needed(s, n)
  }

  /** Somebody else's answer serves Cases that still have their own connect coming ... */
  predicate Robs(s: State, e: Event, n: Node) {
    e.ForeignAnswer? && e.n == n && WaitingOn(s, n) != []
  }

  /** ... whose answer then finds nobody waiting, unless others have come meanwhile. */
  predicate Repays(s: State, e: Event, n: Node) {
    e.Answer? && e.n == n && WaitingOn(s, n) == []
  }

  lemma LoopSurplus(s: State, id: CaseId, n: Node)
    requires id < |s.table|
    ensures Surplus(Loop(s, id), n) == Surplus(s, n)
  {
  }

  lemma AnsweredSurplus(s: State, id: CaseId, ok: bool, n: Node)
    requires id < |s.table| && s.table[id].candidates != [] && s.table[id].remaining > 0
    ensures Surplus(Answered(s, id, ok), n) == Surplus(s, n)
  {
    hide Loop;
    var s' := s.(table := s.table[id := Pop(s.table[id], ok)]);
    assert Surplus(s', n) == Surplus(s, n);
    if !ok {
      LoopSurplus(s', id, n);
    }
  }

  lemma {:induction false} AnswerAllSurplus(s: State, ids: seq<CaseId>, m: Node, ok: bool, n: Node)
    requires Inv(s, ids, m)
    ensures Surplus(AnswerAll(s, ids, m, ok), n) == Surplus(s, n)
    decreases |ids|
  {
    hide Inv, Surplus, Answered;
    if ids != [] {
      FirstIsWaiting(s, ids, m);
      AnsweredInv(s, ids, m, ok);
      AnsweredSurplus(s, ids[0], ok, n);
      AnswerAllSurplus(Answered(s, ids[0], ok), ids[1..], m, ok, n);
    }
  }

  lemma OnConnectSurplus(s: State, m: Node, ok: bool, ours: bool, n: Node)
    requires Inv(s, [], m) && (ours ==> s.awaited[m] > 0)
    ensures Surplus(OnConnectOf(s, m, ok, ours), n) == Surplus(s, n)
              + (if !ours && m == n && WaitingOn(s, n) != [] then 1 else 0)
              - (if ours && m == n && WaitingOn(s, n) == [] then 1 else 0)
  {
    hide Inv, AnswerAll;
    if WaitingOn(s, m) != [] {
      DetachInv(s, m, ours);
      AnswerAllSurplus(Detach(Seen(s, m, ours), m), s.waiting[m], m, ok, n);
    }
  }

  /** The surplus of a node changes by exactly those two kinds of answers. */
  lemma SurplusStep(s: State, e: Event, n: Node)
    requires Rest(s) && Enabled(s, e)
    ensures Surplus(Do(s, e), n) ==
              Surplus(s, n) + (if Robs(s, e, n) then 1 else 0) - (if Repays(s, e, n) then 1 else 0)
  {
    hide Inv, OnConnectOf, Loop;
    match e {
      case Init(_) =>
      case Preinv(candidates, limit) =>
        if !s.offline {
          var s1 := s.(table := s.table + [NewCase(candidates, limit)]);
          assert Surplus(s1, n) == Surplus(s, n);
          LoopSurplus(s1, |s.table|, n);
        }
      case Raised(_) =>
      case Answer(m, ok) => InvAnyNode(s, 0, m); OnConnectSurplus(s, m, ok, true, n);
      case ForeignAnswer(m, ok) => InvAnyNode(s, 0, m); OnConnectSurplus(s, m, ok, false, n);
      case Proposed(_) =>
      case Continued(id) => LoopSurplus(s, id, n);
    }
  }

  /** The number of the first `k` events of a run for which `what` holds. */
  ghost function Tally(run: seq<State>, events: seq<Event>, k: nat, what: (State, Event) -> bool): nat
    requires k <= |events| && k <= |run|
  {
    if k == 0 then 0
    else Tally(run, events, k - 1, what) + if what(run[k - 1], events[k - 1]) then 1 else 0
  }

  ghost predicate IsStep(s: State, e: Event, s': State) {
    Rest(s) && Enabled(s, e) && s' == Do(s, e)
  }

  ghost predicate IsRunFrom(start: State, run: seq<State>, events: seq<Event>) {
    && |run| == |events| + 1 && run[0] == start
    && forall k {:trigger events[k]} :: 0 <= k < |events| ==> IsStep(run[k], events[k], run[k + 1])
  }

  ghost predicate IsRun(run: seq<State>, events: seq<Event>) {
    IsRunFrom(Start, run, events)
  }

  /** The events that can happen in turn make a run. */
  lemma {:induction false} RunOf(s: State, events: seq<Event>) returns (run: seq<State>)
    requires Rest(s) && After(s, events).Reached?
    ensures IsRunFrom(s, run, events) && run[|events|] == After(s, events).state
    decreases |events|
  {
    hide Rest, Do;
    if events == [] {
      run := [s];
    } else {
      DoInv(s, events[0]);
      var more := RunOf(Do(s, events[0]), events[1..]);
      run := [s] + more;
      forall k | 0 <= k < |events| ensures IsStep(run[k], events[k], run[k + 1]) {
        if k > 0 {
          assert IsStep(more[k - 1], events[1..][k - 1], more[k]);
        }
      }
    }
  }

  /** In every state of every run: the connects outstanding for a node are those
      needed, plus one for each time somebody else's answer robbed it, less one for
      each own answer that found nobody. */
  lemma {:induction false} SurplusIsRobberies(run: seq<State>, events: seq<Event>, k: nat, n: Node)
    requires IsRun(run, events) && k <= |events|
    ensures Outstanding(run[k], n) == Needed(run[k], n)
              + Tally(run, events, k, (s, e) => Robs(s, e, n)) - Tally(run, events, k, (s, e) => Repays(s, e, n))
    decreases k
  {
    hide Rest, Do;
    if k > 0 {
      SurplusIsRobberies(run, events, k - 1, n);
      assert IsStep(run[k - 1], events[k - 1], run[k]);
      SurplusStep(run[k - 1], events[k - 1], n);
    }
  }

  /** A node has exactly the connect its waiting Cases need throughout a run, if and
      only if nobody else's answer about it comes while some Case waits for it. */
  lemma OneConnectPerNode(run: seq<State>, events: seq<Event>, n: Node)
    requires IsRun(run, events)
    ensures (forall k :: 0 <= k < |run| ==> Outstanding(run[k], n) == Needed(run[k], n))
       <==> (forall k :: 0 <= k < |events| ==> !Robs(run[k], events[k], n))
  {
    hide Rest, Do, Robs;
    if forall k :: 0 <= k < |run| ==> Outstanding(run[k], n) == Needed(run[k], n) {
      forall k | 0 <= k < |events| ensures !Robs(run[k], events[k], n) {
        assert IsStep(run[k], events[k], run[k + 1]);
        SurplusStep(run[k], events[k], n);
        NothingToRepay(run[k], events[k], n);
        assert Surplus(run[k], n) == 0 && Surplus(run[k + 1], n) == 0;
      }
    }
    if forall k :: 0 <= k < |events| ==> !Robs(run[k], events[k], n) {
      forall k | 0 <= k < |run| ensures Outstanding(run[k], n) == Needed(run[k], n) {
        NeverRobbed(run, events, k, n);
      }
    }
  }

  lemma {:induction false} NeverRobbed(run: seq<State>, events: seq<Event>, k: nat, n: Node)
    requires IsRun(run, events) && k < |run| && forall j :: 0 <= j < |events| ==> !Robs(run[j], events[j], n)
    ensures Outstanding(run[k], n) == Needed(run[k], n)
    decreases k
  {
    hide IsStep, Robs, Outstanding, Needed;
    if k == 0 {
      NothingAtStart(n);
    } else {
      NeverRobbed(run, events, k - 1, n);
      assert IsStep(run[k - 1], events[k - 1], run[k]);
      StepKeepsNeed(run[k - 1], events[k - 1], run[k], n);
    }
  }

  lemma StepKeepsNeed(s: State, e: Event, s': State, n: Node)
    requires IsStep(s, e, s') && !Robs(s, e, n) && Outstanding(s, n) == Needed(s, n)
    ensures Outstanding(s', n) == Needed(s', n)
  {
    hide Rest, Do, Robs, Repays, Outstanding, Needed;
    SurplusStep(s, e, n);
    NothingToRepay(s, e, n);
  }

  lemma NothingAtStart(n: Node)
    ensures Outstanding(Start, n) == Needed(Start, n) == 0
  {
  }

  lemma NothingToRepay(s: State, e: Event, n: Node)
    requires Enabled(s, e) && Outstanding(s, n) == Needed(s, n)
    ensures !Repays(s, e, n)
  {
  }

  /** It does happen: a Case for node 7, somebody else's failure to connect to it, and
      another Case leave two connects to node 7 on their way. */
  lemma TwoConnectsExample()
    ensures exists run ::
              IsRun(run, [Preinv([Candidate(7, 0)], 1), ForeignAnswer(7, false), Preinv([Candidate(7, 0)], 1)])
              && |run| == 4 && Outstanding(run[3], 7) == 2
  {
    hide Rest, Do, Surplus, Outstanding, Enabled;
    var s1, s2, s3 := RobbedRun(Candidate(7, 0), false);
    var asks := Preinv([Candidate(7, 0)], 1);
    var run, events := [Start, s1, s2, s3], [asks, ForeignAnswer(7, false), asks];
    forall k | 0 <= k < |events| ensures IsStep(run[k], events[k], run[k + 1]) {
    }
    assert IsRun(run, events) && |run| == 4 && Outstanding(run[3], 7) == 2;
  }

  lemma RobbedRun(c: Candidate, ok: bool) returns (s1: State, s2: State, s3: State)
    ensures IsStep(Start, Preinv([c], 1), s1) && IsStep(s1, ForeignAnswer(c.proposal, ok), s2)
    ensures IsStep(s2, Preinv([c], 1), s3) && Outstanding(s3, c.proposal) == 2
  {
    hide Rest;
    var n := c.proposal;
    StartInv();
    s1 := AsksFor(Start, c);
    DoInv(s1, ForeignAnswer(n, ok));
    s2 := Do(s1, ForeignAnswer(n, ok));
    SurplusStep(s1, ForeignAnswer(n, ok), n);
    ForeignKeepsOnline(s1, n, ok);
    hide Do;
    s3 := AsksFor(s2, c);
  }

  lemma AsksFor(s: State, c: Candidate) returns (s': State)
    requires Rest(s) && !s.offline
    ensures Rest(s') && !s'.offline && IsStep(s, Preinv([c], 1), s')
    ensures WaitingOn(s', c.proposal) != [] && Surplus(s', c.proposal) == Surplus(s, c.proposal)
  {
    s' := Do(s, Preinv([c], 1));
    hide Rest;
    DoInv(s, Preinv([c], 1));
    SurplusStep(s, Preinv([c], 1), c.proposal);
  }

  lemma ForeignKeepsOnline(s: State, n: Node, ok: bool)
    requires Rest(s)
    ensures Do(s, ForeignAnswer(n, ok)).offline == s.offline
  {
    hide Inv, AnswerAll;
    InvAnyNode(s, 0, n);
    if WaitingOn(s, n) != [] {
      DetachInv(s, n, false);
      AnswerAllOnline(Detach(s, n), s.waiting[n], n, ok);
    }
  }

  lemma {:induction false} AnswerAllOnline(s: State, ids: seq<CaseId>, n: Node, ok: bool)
    requires Inv(s, ids, n)
    ensures AnswerAll(s, ids, n, ok).offline == s.offline
    decreases |ids|
  {
    hide Inv;
    if ids != [] {
      FirstIsWaiting(s, ids, n);
      AnsweredInv(s, ids, n, ok);
      AnswerAllOnline(Answered(s, ids[0], ok), ids[1..], n, ok);
    }
  }

  /** In every reachable state a Case that waits is registered once, under the node
      of its front candidate and under no other, with a connect to that node on its
      way; the queue of a Case is the part of its candidates not yet answered. */
  lemma WaitingCasesAreServed(s: State, id: CaseId)
    requires Reachable(s) && id < |s.table| && s.table[id].phase.Waiting?
    ensures var c := s.table[id];
            && |c.answers| < |c.all| && c.candidates == c.all[|c.answers|..] && c.remaining > 0
            && (forall m :: id in WaitingOn(s, m) <==> m == c.candidates[0].proposal)
            && (forall m, i, j :: 0 <= i < j < |WaitingOn(s, m)| ==> WaitingOn(s, m)[i] != WaitingOn(s, m)[j])
            && Outstanding(s, c.candidates[0].proposal) > 0
  {
    StartInv();
    assert Inv(s, [], 0);
    var c := s.table[id];
    var n := c.candidates[0].proposal;
    assert CaseInv(c);
    hide AllCases, CaseInv;
    assert Wants(s.table, id, n);
    assert OwedOn(s, n);
    hide Owed;
    forall m ensures id in WaitingOn(s, m) <==> m == n {
      if m != n {
        NotListed(s, id, m);
      }
    }
    forall m, i, j | 0 <= i < j < |WaitingOn(s, m)| ensures WaitingOn(s, m)[i] != WaitingOn(s, m)[j] {
      assert AllWant(s.table, WaitingOn(s, m), m);
      assert Distinct(WaitingOn(s, m));
    }
  }

  /** In every reachable state a Case has proposed a prefix of the candidates that
      answered with success, in order and at most `limit` of them; a finished Case
      has proposed them all, and ran out of candidates or filled its limit. */
  lemma {:induction false} ProposalsInOrder(s: State, id: CaseId)
    requires Reachable(s) && id < |s.table|
    ensures var c := s.table[id];
            && |c.answers| <= |c.all| && c.proposed <= Picked(c.all, c.answers)
            && |Picked(c.all, c.answers)| <= c.limit
            && (c.phase.Finished? ==> c.proposed == Picked(c.all, c.answers)
                                      && (|c.answers| == |c.all| || |c.proposed| == c.limit))
  {
    StartInv();
    assert Inv(s, [], 0);
    assert CaseInv(s.table[id]);
  }

  /** When no message is on its way and no Case is between steps, all are finished. */
  lemma NoCaseIsStranded(s: State)
    requires Reachable(s) && s.scheduled == multiset{} && s.awaited == multiset{}
    requires forall id :: 0 <= id < |s.table| ==> !s.table[id].phase.Logging? && !s.table[id].phase.Moving?
    ensures forall id :: 0 <= id < |s.table| ==> s.table[id].phase.Finished?
  {
    forall id | 0 <= id < |s.table| ensures s.table[id].phase.Finished? {
      if s.table[id].phase.Waiting? {
        WaitingCasesAreServed(s, id);
      }
    }
  }

  // --------------------------------------------------------------- the module

  /** The Cases are rows of `table`; a `shared_ptr<Case>` is its index. */
  class Impl {
    var offline: bool
    var waiting: map<Node, seq<CaseId>>
    var table: seq<Case>
    ghost var scheduled: multiset<Node>
    ghost var awaited: multiset<Node>

    ghost function Abs(): State
      reads this
    {
      State(offline, waiting, table, scheduled, awaited)
    }

    constructor ()
      ensures Abs() == Start && Rest(Abs())
    {
      offline, waiting, table := false, map[], [];
      scheduled, awaited := multiset{}, multiset{};
      new;
      StartInv();
    }

    method AddCase(n: Node, id: CaseId) returns (first: bool)
      modifies `waiting
      ensures first == (WaitingOn(old(Abs()), n) == [])
      ensures waiting == old(waiting)[n := WaitingOn(old(Abs()), n) + [id]]
    {
      if n !in waiting {
        waiting := waiting[n := []];
      }
      first := waiting[n] == [];
      waiting := waiting[n := waiting[n] + [id]];
    }

    method CaseLoop(id: CaseId)
      requires id < |table|
      modifies this
      ensures Abs() == Loop(old(Abs()), id)
    {
      var c := table[id];
      if c.candidates == [] || c.remaining == 0 {
        table := table[id := c.(phase := Finished)];
        return;
      }
      var n := c.candidates[0].proposal;
      table := table[id := c.(phase := Waiting)];
      var first := AddCase(n, id);
      if first {
        scheduled := scheduled + multiset{n};
      }
    }

    method OnConnectResponse(id: CaseId, ok: bool)
      requires id < |table| && table[id].candidates != [] && table[id].remaining > 0
      modifies this
      ensures Abs() == Answered(old(Abs()), id, ok)
    {
      var c := table[id];
      var curr := c.candidates[0];
      c := c.(candidates := c.candidates[1..], answers := c.answers + [ok]);
      if ok {
        table := table[id := c.(remaining := c.remaining - 1, phase := Logging(curr))];
      } else {
        table := table[id := c.(phase := Moving)];
        CaseLoop(id);
      }
    }

    method OnPreinv(candidates: seq<Candidate>, limit: nat)
      requires Rest(Abs())
      modifies this
      ensures Rest(Abs()) && Abs() == Preinvestigate(old(Abs()), candidates, limit)
    {
      NewCaseInv(Abs(), 0, candidates, limit);
      hide Rest, Loop;
      if offline {
        return;
      }
      var id := |table|;
      table := table + [NewCase(candidates, limit)];
      CaseLoop(id);
    }

    /** A registered Case has a candidate and a proposal left, so neither the queue
        nor the counter underflows. */
    method OnConnect(n: Node, ok: bool, ghost ours: bool)
      requires Inv(Abs(), [], n) && (ours ==> awaited[n] > 0)
      modifies this
      ensures Inv(Abs(), [], n) && Abs() == OnConnectOf(old(Abs()), n, ok, ours)
    {
      hide Inv, AnswerAll;
      ghost var s := Abs();
      if ours {
        awaited := awaited - multiset{n};
      }
      if n !in waiting || waiting[n] == [] {
        NobodyWaitsInv(s, n, ours);
        return;
      }
      DetachInv(s, n, ours);
      var ids := waiting[n];
      waiting := waiting - {n};
      FanOut(ids, n, ok);
    }

    method FanOut(ids: seq<CaseId>, ghost n: Node, ok: bool)
      requires Inv(Abs(), ids, n)
      modifies this
      ensures Inv(Abs(), [], n) && Abs() == AnswerAll(old(Abs()), ids, n, ok)
    {
      hide Inv, Answered;
      ghost var s := Abs();
      assert ids[0..] == ids;
      for k := 0 to |ids|
        invariant Inv(Abs(), ids[k..], n)
        invariant AnswerAll(Abs(), ids[k..], n, ok) == AnswerAll(s, ids, n, ok)
      {
        FirstIsWaiting(Abs(), ids[k..], n);
        AnsweredInv(Abs(), ids[k..], n, ok);
        assert ids[k..][1..] == ids[k + 1..];
        OnConnectResponse(ids[k], ok);
      }
      assert ids[|ids|..] == [];
    }

    method Propose(id: CaseId) returns (proposal: Candidate)
      requires Rest(Abs()) && id < |table| && table[id].phase.Logging?
      modifies this
      ensures Rest(Abs()) && Abs() == ProposeOf(old(Abs()), id)
      ensures proposal == old(table[id].phase.curr)
    {
      ProposeInv(Abs(), 0, id);
      hide Rest;
      var c := table[id];
      proposal := c.phase.curr;
      table := table[id := c.(phase := Moving, proposed := c.proposed + [proposal])];
    }
  }
}
