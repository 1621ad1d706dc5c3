/** `Sqlite3::Db` and `Sqlite3::Tx`: one connection, one transaction at a time,
    greenthreads queueing for it.  Releasing a transaction constructs the next
    waiter's transaction, whose constructor may fail and release in turn. */
module SqliteTx {
  type Id = nat

  /** `Tx::Impl`: BEGIN succeeded and was not ended; the next waiter was let go; and
      whether the client's `Tx` still owns the object, which `commit` moves out. */
  datatype Tx = Tx(active: bool, released: bool, owned: bool)

  const Running := Tx(true, false, true)
  const Spent := Tx(false, true, false)

  /** The database object, the connection's own transaction state, the transaction
      objects that are not destroyed yet, and the history of calls.  The file keeps
      the effects of the `durable` transactions. */
  datatype Db = Db(
    inTransaction: bool, blocked: seq<Id>,
    open: bool, durable: set<Id>, txs: map<Id, Tx>,
    arrived: seq<Id>, begun: seq<Id>, releases: seq<Id>, beganWhileOpen: bool)

  function Init(): Db {
    Db(false, [], false, {}, map[], [], [], [], false)
  }

  /** Whether the n-th BEGIN ever issued gets the file lock; a BEGIN inside an open
      transaction is refused anyway. */
  type Locks = nat -> bool

  // ---------------------------------------------------------- code as functions

  /** The constructor of `Tx`: on a failed BEGIN it releases and throws, and no object
      comes to exist. */
  function Construct(d: Db, id: Id, locks: Locks): Db
    decreases |d.blocked|, 1
  {
    var ok := locks(|d.begun|) && !d.open;
    var d1 := d.(begun := d.begun + [id], beganWhileOpen := d.beganWhileOpen || d.open);
    if ok then d1.(open := true, txs := d1.txs[id := Running])
    else Finish(d1.(releases := d1.releases + [id]), locks)
  }

  /** `transaction_finish`: hand over to the first waiter, or go idle. */
  function Finish(d: Db, locks: Locks): Db
    decreases |d.blocked|, 0
  {
    if d.blocked != [] then Construct(d.(blocked := d.blocked[1..]), d.blocked[0], locks)
    else d.(inTransaction := false)
  }

  /** `transact`. */
  function Transacted(d: Db, id: Id, locks: Locks): Db {
    var d1 := d.(arrived := d.arrived + [id]);
    if d.inTransaction then d1.(blocked := d1.blocked + [id])
    else Construct(d1.(inTransaction := true), id, locks)
  }

  /** `release`: the second call finds the flag set. */
  function Release(d: Db, id: Id, locks: Locks): Db
    requires id in d.txs
  {
    if d.txs[id].released then d
    else Finish(d.(txs := d.txs[id := d.txs[id].(released := true)], releases := d.releases + [id]), locks)
  }

  /** ROLLBACK leaves the connection without a transaction, whoever began it, and the
      object inactive. */
  function Ended(d: Db, id: Id): Db
    requires id in d.txs
  {
    d.(open := false, txs := d.txs[id := d.txs[id].(active := false)])
  }

  /** A COMMIT succeeds when a transaction is open and no other process holds a lock. */
  predicate Lands(d: Db, refused: bool) {
    d.open && !refused
  }

  /** `Tx::commit`: the object is moved out, ended and released.  A refused COMMIT is
      followed by a ROLLBACK. */
  function Commit(d: Db, id: Id, refused: bool, locks: Locks): Db
    requires id in d.txs
  {
    var d1 := d.(txs := d.txs[id := d.txs[id].(owned := false)],
                 durable := if Lands(d, refused) then d.durable + {id} else d.durable);
    Release(Ended(d1, id), id, locks)
  }

  /** `~Impl`: roll back if active, release, and go.  It runs for a transaction that
      was never committed, and also for the object `commit` has moved out, after the
      next waiter's transaction has begun. */
  function Destroy(d: Db, id: Id, locks: Locks): Db
    requires id in d.txs
  {
    var d0 := d.(txs := d.txs[id := d.txs[id].(owned := false)]);
    var d1 := Release(if d0.txs[id].active then Ended(d0, id) else d0, id, locks);
    d1.(txs := d1.txs - {id})
  }

  datatype Event =
    | Ask(id: Id)
    | Committed(id: Id, refused: bool)
    | Destroyed(id: Id)
    | SelfEnded      // sqlite ended the transaction by itself, after an error

  predicate Enabled(d: Db, e: Event) {
    match e
    case Ask(id) => id !in d.arrived
    case Committed(id, _) => id in d.txs && d.txs[id].owned
    case Destroyed(id) => id in d.txs
    case SelfEnded => true
  }

  function Do(d: Db, e: Event, locks: Locks): Db
    requires Enabled(d, e)
  {
    match e
    case Ask(id) => Transacted(d, id, locks)
    case Committed(id, refused) => Commit(d, id, refused, locks)
    case Destroyed(id) => Destroy(d, id, locks)
    case SelfEnded => d.(open := false)
  }

  // -------------------------------------------------------------- the invariant

  /** The transaction object that has not released the database. */
  datatype Holding = Nobody | Someone(id: Id)

  /** The holder's object is running and every other one is spent. */
  predicate Holder(d: Db, h: Holding) {
    && (forall id :: id in d.txs ==> id in d.begun && d.txs[id] == if h == Someone(id) then Running else Spent)
    && (match h
        case Nobody => d.begun == d.releases
        case Someone(id) => id in d.txs && d.begun == d.releases + [id])
  }

  predicate Ordered(d: Db) {
    && d.begun + d.blocked == d.arrived
    && (forall i, j :: 0 <= i < j < |d.arrived| ==> d.arrived[i] != d.arrived[j])
    && !d.beganWhileOpen
  }

  ghost predicate Inv(d: Db) {
    && Ordered(d)
    && (!d.inTransaction ==> d.blocked == [] && !d.open)
    && exists h :: Holder(d, h) && (d.inTransaction <==> h.Someone?)
  }

  /** Between the release of one transaction and the BEGIN of the next. */
  predicate Between(d: Db) {
    Ordered(d) && d.inTransaction && !d.open && Holder(d, Nobody)
  }

  /** The next waiter has no object yet. */
  lemma NotBegun(d: Db)
    requires Ordered(d) && d.blocked != []
    ensures d.blocked[0] !in d.begun
  {
    assert d.arrived[|d.begun|] == d.blocked[0];
    assert forall i :: 0 <= i < |d.begun| ==> d.begun[i] == d.arrived[i];
  }

  lemma {:induction false} FinishInv(d: Db, locks: Locks)
    requires Between(d)
    ensures Inv(Finish(d, locks)) && Finish(d, locks).arrived == d.arrived
    ensures d.begun <= Finish(d, locks).begun && Finish(d, locks).durable == d.durable
    decreases |d.blocked|
  {
    if d.blocked == [] {
      assert Holder(Finish(d, locks), Nobody);
    } else {
      var id := d.blocked[0];
      ConstructInv(d, d.(blocked := d.blocked[1..]), id, locks);
    }
  }

  lemma {:induction false} ConstructInv(d: Db, d0: Db, id: Id, locks: Locks)
    requires Between(d) && d.blocked != [] && id == d.blocked[0] && d0 == d.(blocked := d.blocked[1..])
    ensures Inv(Construct(d0, id, locks)) && Construct(d0, id, locks).arrived == d.arrived
    ensures d.begun + [id] <= Construct(d0, id, locks).begun && Construct(d0, id, locks).durable == d.durable
    decreases |d.blocked|, 0
  {
    var d1 := d0.(begun := d0.begun + [id]);
    assert d1.begun + d1.blocked == d.begun + d.blocked;
    NotBegun(d);
    if locks(|d0.begun|) {
      var d2 := d1.(open := true, txs := d1.txs[id := Running]);
      assert Holder(d2, Someone(id));
    } else {
      FinishInv(d1.(releases := d1.releases + [id]), locks);
    }
  }

  lemma TransactInv(d: Db, id: Id, locks: Locks)
    requires Inv(d) && id !in d.arrived
    ensures Inv(Transacted(d, id, locks)) && Transacted(d, id, locks).arrived == d.arrived + [id]
    ensures d.begun <= Transacted(d, id, locks).begun && Transacted(d, id, locks).durable == d.durable
  {
    var h :| Holder(d, h) && (d.inTransaction <==> h.Someone?);
    if d.inTransaction {
      var d' := Transacted(d, id, locks);
      assert d'.begun + d'.blocked == d.begun + d.blocked + [id];
      assert Holder(d', h);
    } else {
      var d1 := d.(arrived := d.arrived + [id], inTransaction := true);
      assert d1.begun + [id] == d1.arrived;
      ConstructInv(d1.(blocked := [id]), d1, id, locks);
    }
  }

  /** Ending and releasing the holder, whoever asks for it. */
  lemma EndInv(d: Db, id: Id, durable: set<Id>, locks: Locks)
    requires Inv(d) && id in d.txs && !d.txs[id].released
    ensures var d1 := d.(open := false, durable := durable, txs := d.txs[id := Spent], releases := d.releases + [id]);
            && Between(d1) && Inv(Finish(d1, locks)) && Finish(d1, locks).arrived == d.arrived
            && d1.releases == d.begun <= Finish(d1, locks).begun
            && id in Finish(d1, locks).txs && Finish(d1, locks).txs[id] == Spent
            && Finish(d1, locks).durable == durable
  {
    var h :| Holder(d, h) && (d.inTransaction <==> h.Someone?);
    assert h == Someone(id);
    var d1 := d.(open := false, durable := durable, txs := d.txs[id := Spent], releases := d.releases + [id]);
    assert Holder(d1, Nobody);
    FinishInv(d1, locks);
    FinishKeeps(d1, id, locks);
  }

  /** Handing over touches no object that exists. */
  lemma {:induction false} FinishKeeps(d: Db, id: Id, locks: Locks)
    requires Between(d) && id in d.txs
    ensures id in Finish(d, locks).txs && Finish(d, locks).txs[id] == d.txs[id]
    ensures Finish(d, locks).durable == d.durable
    decreases |d.blocked|
  {
    if d.blocked != [] {
      NotBegun(d);
      var next := d.blocked[0];
      if !locks(|d.begun|) {
        var d1 := d.(blocked := d.blocked[1..], begun := d.begun + [next], releases := d.releases + [next]);
        assert d1.begun + d1.blocked == d.begun + d.blocked;
        FinishKeeps(d1, id, locks);
      }
    }
  }

  lemma OwnedIsRunning(d: Db, id: Id)
    requires Inv(d) && id in d.txs && d.txs[id].owned
    ensures d.txs[id] == Running
  {
  }

  /** `commit` is only ever called on the holder; it leaves its object spent, and its
      effects in the file exactly if COMMIT succeeded. */
  lemma CommitInv(d: Db, id: Id, refused: bool, locks: Locks)
    requires Inv(d) && id in d.txs && d.txs[id].owned
    ensures Inv(Commit(d, id, refused, locks)) && Commit(d, id, refused, locks).arrived == d.arrived
    ensures d.releases + [id] == d.begun <= Commit(d, id, refused, locks).begun
    ensures id in Commit(d, id, refused, locks).txs && Commit(d, id, refused, locks).txs[id] == Spent
    ensures Commit(d, id, refused, locks).durable == if d.open && !refused then d.durable + {id} else d.durable
  {
    OwnedIsRunning(d, id);
    hide Inv, Finish, Construct;
    var durable := if Lands(d, refused) then d.durable + {id} else d.durable;
    EndInv(d, id, durable, locks);
    var d1 := Ended(d.(txs := d.txs[id := d.txs[id].(owned := false)], durable := durable), id);
    assert d1.txs[id := d1.txs[id].(released := true)] == d.txs[id := Spent];
  }

  /** The second release changes nothing, and the destructor of a released object
      only removes it: it neither ends the transaction that its successor has begun
      by now nor lets another waiter in. */
  lemma SpentIsInert(d: Db, id: Id, locks: Locks)
    requires Inv(d) && id in d.txs && (d.txs[id].released || !d.txs[id].owned)
    ensures d.txs[id] == Spent && Release(d, id, locks) == d
    ensures Destroy(d, id, locks) == d.(txs := d.txs - {id})
    ensures Inv(Destroy(d, id, locks))
  {
    var h :| Holder(d, h) && (d.inTransaction <==> h.Someone?);
    assert Holder(Destroy(d, id, locks), h);
  }

  /** Destroying the holder releases the database once, like a refused commit. */
  lemma DropInv(d: Db, id: Id, locks: Locks)
    requires Inv(d) && id in d.txs && d.txs[id].owned
    ensures id in Commit(d, id, true, locks).txs
    ensures Destroy(d, id, locks) == Destroy(Commit(d, id, true, locks), id, locks)
    ensures Inv(Destroy(d, id, locks)) && Destroy(d, id, locks).arrived == d.arrived
    ensures d.releases + [id] == d.begun <= Destroy(d, id, locks).begun
    ensures Destroy(d, id, locks).durable == d.durable
  {
    var h :| Holder(d, h) && (d.inTransaction <==> h.Someone?);
    CommitInv(d, id, true, locks);
    SpentIsInert(Commit(d, id, true, locks), id, locks);
  }

  lemma DestroyInv(d: Db, id: Id, locks: Locks)
    requires Inv(d) && id in d.txs
    ensures Inv(Destroy(d, id, locks)) && Destroy(d, id, locks).arrived == d.arrived
    ensures d.begun <= Destroy(d, id, locks).begun && Destroy(d, id, locks).durable == d.durable
    ensures d.txs[id].released ==> Destroy(d, id, locks) == d.(txs := d.txs - {id})
  {
    hide Inv;
    if d.txs[id].released || !d.txs[id].owned {
      SpentIsInert(d, id, locks);
    } else {
      DropInv(d, id, locks);
    }
  }

  lemma DoInv(d: Db, e: Event, locks: Locks)
    requires Inv(d) && Enabled(d, e)
    ensures Inv(Do(d, e, locks)) && d.begun <= Do(d, e, locks).begun && d.arrived <= Do(d, e, locks).arrived
  {
    match e
    case Ask(id) => TransactInv(d, id, locks);
    case Committed(id, refused) => CommitInv(d, id, refused, locks);
    case Destroyed(id) => DestroyInv(d, id, locks);
    case SelfEnded =>
      var h :| Holder(d, h) && (d.inTransaction <==> h.Someone?);
      assert Holder(d.(open := false), h);
  }

  // -------------------------------------------------------------------- runs

  datatype Outcome = Impossible | Reached(db: Db)

  function After(d: Db, events: seq<Event>, locks: Locks): Outcome
    decreases |events|
  {
    if events == [] then Reached(d)
    else if Enabled(d, events[0]) then After(Do(d, events[0], locks), events[1..], locks)
    else Impossible
  }

  lemma {:induction false} AfterInv(d: Db, events: seq<Event>, locks: Locks)
    requires Inv(d) && After(d, events, locks).Reached?
    ensures Inv(After(d, events, locks).db)
    decreases |events|
  {
    hide Inv;
    if events != [] {
      DoInv(d, events[0], locks);
      AfterInv(Do(d, events[0], locks), events[1..], locks);
    }
  }

  /** Who asked, in order. */
  function Asks(events: seq<Event>): seq<Id> {
    if events == [] then [] else (if events[0].Ask? then [events[0].id] else []) + Asks(events[1..])
  }

  lemma {:induction false} AfterAsks(d: Db, events: seq<Event>, locks: Locks)
    requires Inv(d) && After(d, events, locks).Reached?
    ensures After(d, events, locks).db.arrived == d.arrived + Asks(events)
    decreases |events|
  {
    hide Inv, Do, Enabled;
    if events == [] {
      assert d.arrived + [] == d.arrived;
    } else {
      DoInv(d, events[0], locks);
      DoAsks(d, events[0], locks);
      AfterAsks(Do(d, events[0], locks), events[1..], locks);
      var first := if events[0].Ask? then [events[0].id] else [];
      assert d.arrived + first + Asks(events[1..]) == d.arrived + (first + Asks(events[1..]));
    }
  }

  lemma DoAsks(d: Db, e: Event, locks: Locks)
    requires Inv(d) && Enabled(d, e)
    ensures Do(d, e, locks).arrived == d.arrived + if e.Ask? then [e.id] else []
  {
    hide Inv;
    match e
    case Ask(id) => TransactInv(d, id, locks);
    case Committed(id, refused) => CommitInv(d, id, refused, locks);
    case Destroyed(id) => DestroyInv(d, id, locks);
    case SelfEnded =>
  }

  /** The objects that have not let the next waiter in. */
  function Unreleased(d: Db): set<Id> {
    set id | id in d.txs && !d.txs[id].released
  }

  /** Over every sequence of calls, destructors and failing BEGINs: at most one
      transaction has not released the database; transactions release in the order
      they began, each exactly once; they begin in the order they were asked for,
      always on an idle connection; and the flag is set exactly while someone holds
      the database, so it is never stuck. */
  lemma TransactionsAreSerial(events: seq<Event>, locks: Locks)
    requires After(Init(), events, locks).Reached?
    ensures var d := After(Init(), events, locks).db;
            && |Unreleased(d)| <= 1
            && (d.begun == d.releases || exists h :: Unreleased(d) == {h} && d.begun == d.releases + [h])
            && d.begun + d.blocked == Asks(events)
            && (forall i, j :: 0 <= i < j < |d.releases| ==> d.releases[i] != d.releases[j])
            && !d.beganWhileOpen
            && (d.inTransaction <==> |Unreleased(d)| == 1)
            && (d.blocked != [] ==> |Unreleased(d)| == 1)
  {
    assert Inv(Init()) by {
      assert Holder(Init(), Nobody);
    }
    hide Inv, After, Unreleased;
    AfterInv(Init(), events, locks);
    AfterAsks(Init(), events, locks);
    SerialState(After(Init(), events, locks).db);
  }

  lemma SerialState(d: Db)
    requires Inv(d)
    ensures |Unreleased(d)| <= 1
    ensures d.begun == d.releases || exists h :: Unreleased(d) == {h} && d.begun == d.releases + [h]
    ensures d.begun + d.blocked == d.arrived && !d.beganWhileOpen
    ensures forall i, j :: 0 <= i < j < |d.releases| ==> d.releases[i] != d.releases[j]
    ensures d.inTransaction <==> |Unreleased(d)| == 1
    ensures d.blocked != [] ==> |Unreleased(d)| == 1
  {
    var h :| Holder(d, h) && (d.inTransaction <==> h.Someone?);
    forall i | 0 <= i < |d.releases| ensures d.releases[i] == d.arrived[i] {
      assert d.releases[i] == d.begun[i];
    }
    if h.Someone? {
      assert Unreleased(d) == {h.id};
    } else {
      assert Unreleased(d) == {};
    }
  }

  /** Over every run: a released object is never active, a second release of it
      changes nothing, and its destructor leaves the connection and the queue to its
      successor. */
  lemma ReleasedObjectsAreInert(events: seq<Event>, locks: Locks, id: Id)
    requires After(Init(), events, locks).Reached?
    requires id in After(Init(), events, locks).db.txs && After(Init(), events, locks).db.txs[id].released
    ensures var d := After(Init(), events, locks).db;
            && !d.txs[id].active && Release(d, id, locks) == d
            && Do(d, Destroyed(id), locks) == d.(txs := d.txs - {id})
            && Unreleased(Do(d, Destroyed(id), locks)) == Unreleased(d)
  {
    assert Holder(Init(), Nobody);
    AfterInv(Init(), events, locks);
    SpentIsInert(After(Init(), events, locks).db, id, locks);
  }

  lemma DoDurable(d: Db, e: Event, locks: Locks)
    requires Inv(d) && Enabled(d, e)
    ensures Do(d, e, locks).durable ==
              if e.Committed? && !e.refused && d.open then d.durable + {e.id} else d.durable
  {
    hide Inv;
    match e
    case Ask(id) => TransactInv(d, id, locks);
    case Committed(id, refused) => CommitInv(d, id, refused, locks);
    case Destroyed(id) => DestroyInv(d, id, locks);
    case SelfEnded =>
  }

  /** Over every run: the effects of a transaction are kept only if its commit was not
      refused; what is dropped or refused leaves nothing. */
  lemma {:induction false} DurableWereCommitted(d: Db, events: seq<Event>, locks: Locks, id: Id)
    requires Inv(d) && After(d, events, locks).Reached?
    requires id in After(d, events, locks).db.durable && id !in d.durable
    ensures Committed(id, false) in events
    decreases |events|
  {
    hide Inv, Do, Enabled;
    if events != [] {
      DoInv(d, events[0], locks);
      DoDurable(d, events[0], locks);
      var d1 := Do(d, events[0], locks);
      if id !in d1.durable {
        DurableWereCommitted(d1, events[1..], locks, id);
      }
      assert events == [events[0]] + events[1..];
    }
  }

  /** Such an object does live on beside its successor: two ask, the first commits,
      and its destructor is still to come. */
  lemma SpentBesideRunning(locks: Locks)
    requires locks(0) && locks(1)
    ensures var r := After(Init(), [Ask(1), Ask(2), Committed(1, false)], locks);
            r.Reached? && r.db.txs == map[1 := Spent, 2 := Running] && r.db.open
  {
    var d1 := Do(Init(), Ask(1), locks);
    var d2 := Do(d1, Ask(2), locks);
    assert d2.txs == map[1 := Running] && d2.blocked == [2] && d2.begun == [1] && d2.open;
    var d3 := Do(d2, Committed(1, false), locks);
    CommitHandsOver(d2, locks);
    hide Do, Enabled;
    assert [Ask(1), Ask(2), Committed(1, false)][1..] == [Ask(2), Committed(1, false)];
    assert [Ask(2), Committed(1, false)][1..] == [Committed(1, false)];
    assert [Committed(1, false)][1..] == [];
  }

  lemma CommitHandsOver(d: Db, locks: Locks)
    requires d.txs == map[1 := Running] && d.blocked == [2] && d.begun == [1] && d.open && locks(1)
    ensures var d' := Commit(d, 1, false, locks); d'.txs == map[1 := Spent, 2 := Running] && d'.open
  {
    var e := Ended(d.(txs := d.txs[1 := d.txs[1].(owned := false)], durable := d.durable + {1}), 1);
    assert e.txs[1 := e.txs[1].(released := true)] == map[1 := Spent];
    var d1 := e.(txs := map[1 := Spent], releases := e.releases + [1]);
    assert Commit(d, 1, false, locks) == Finish(d1, locks) == Construct(d1.(blocked := d1.blocked[1..]), 2, locks);
  }

  // --------------------------------------------------------------- the class

  class Database {
    var inTransaction: bool
    var blocked: seq<Id>
    var open: bool
    var durable: set<Id>
    var txs: map<Id, Tx>
    ghost var arrived: seq<Id>
    ghost var begun: seq<Id>
    ghost var releases: seq<Id>
    ghost var beganWhileOpen: bool

    ghost function Abs(): Db
      reads this
    {
      Db(inTransaction, blocked, open, durable, txs, arrived, begun, releases, beganWhileOpen)
    }

    constructor ()
      ensures Abs() == Init() && Inv(Abs())
    {
      inTransaction, blocked, open, durable, txs := false, [], false, {}, map[];
      arrived, begun, releases, beganWhileOpen := [], [], [], false;
      new;
      assert Holder(Abs(), Nobody);
    }

    /** `exec("BEGIN")`. */
    method Begin(id: Id, locked: bool) returns (ok: bool)
      modifies `open, `begun, `beganWhileOpen
      ensures ok == (locked && !old(open)) && open == (old(open) || ok)
      ensures begun == old(begun) + [id] && beganWhileOpen == (old(beganWhileOpen) || old(open))
    {
      begun := begun + [id];
      beganWhileOpen := beganWhileOpen || open;
      ok := locked && !open;
      if ok {
        open := true;
      }
    }

    /** `Tx(db)`; `passed` is false when the constructor throws. */
    method NewTx(id: Id, locks: Locks, count: nat) returns (passed: bool)
      requires count == |begun|
      modifies this
      ensures Abs() == Construct(old(Abs()), id, locks)
      ensures passed == (locks(count) && !old(open))
      decreases |blocked|, 1
    {
      var ok := Begin(id, locks(count));
      if !ok {
        releases := releases + [id];
        TransactionFinish(locks, count + 1);
        return false;
      }
      txs := txs[id := Running];
      return true;
    }

    method TransactionFinish(locks: Locks, count: nat)
      requires count == |begun|
      modifies this
      ensures Abs() == Finish(old(Abs()), locks)
      decreases |blocked|, 0
    {
      if blocked != [] {
        var id := blocked[0];
        blocked := blocked[1..];
        var _ := NewTx(id, locks, count);
      } else {
        inTransaction := false;
      }
    }

    method Transact(id: Id, locks: Locks, count: nat)
      requires count == |begun| && Inv(Abs()) && id !in arrived
      modifies this
      ensures Abs() == Transacted(old(Abs()), id, locks) && Inv(Abs())
    {
      TransactInv(Abs(), id, locks);
      hide Inv;
      arrived := arrived + [id];
      if inTransaction {
        blocked := blocked + [id];
      } else {
        inTransaction := true;
        var _ := NewTx(id, locks, count);
      }
    }

    method ReleaseTx(id: Id, locks: Locks, count: nat)
      requires count == |begun| && id in txs
      modifies this
      ensures Abs() == Release(old(Abs()), id, locks)
      ensures old(txs[id].released) ==> Abs() == old(Abs())
    {
      if txs[id].released {
        return;
      }
      txs := txs[id := txs[id].(released := true)];
      releases := releases + [id];
      TransactionFinish(locks, count);
    }

    /** COMMIT is refused for a lock, or because no transaction is open. */
    method ExecCommit(id: Id, refused: bool) returns (ok: bool)
      modifies `open, `durable
      ensures ok == (old(open) && !refused) && (ok ==> !open) && (!ok ==> open == old(open))
      ensures durable == if ok then old(durable) + {id} else old(durable)
    {
      ok := open && !refused;
      if ok {
        open := false;
        durable := durable + {id};
      }
    }

    /** `Tx::commit`; the refused COMMIT is followed by a ROLLBACK and reported.  The
        object stays until its destructor runs. */
    method CommitTx(id: Id, refused: bool, locks: Locks, count: nat) returns (threw: bool)
      requires count == |begun| && Inv(Abs()) && id in txs && txs[id].owned
      modifies this
      ensures Abs() == Commit(old(Abs()), id, refused, locks) && Inv(Abs())
      ensures id in txs && txs[id] == Spent
      ensures threw == (refused || !old(open))
      ensures durable == if threw then old(durable) else old(durable) + {id}
    {
      hide Inv, Finish, Construct;
      CommitInv(Abs(), id, refused, locks);
      txs := txs[id := txs[id].(owned := false)];
      var ok := ExecCommit(id, refused);
      if !ok {
        open := false;
        txs := txs[id := txs[id].(active := false)];
        ReleaseTx(id, locks, count);
        return true;
      }
      txs := txs[id := txs[id].(active := false)];
      ReleaseTx(id, locks, count);
      return false;
    }

    /** `~Impl`, of a dropped transaction or of one that was committed before: then
        the object goes and nothing else changes. */
    method DestroyTx(id: Id, locks: Locks, count: nat)
      requires count == |begun| && Inv(Abs()) && id in txs
      modifies this
      ensures Abs() == Destroy(old(Abs()), id, locks) && Inv(Abs())
      ensures old(txs[id].released) ==> Abs() == old(Abs()).(txs := old(txs) - {id})
    {
      hide Inv, Finish, Construct;
      DestroyInv(Abs(), id, locks);
      txs := txs[id := txs[id].(owned := false)];
      if txs[id].active {
        open := false;
        txs := txs[id := txs[id].(active := false)];
      }
      ReleaseTx(id, locks, count);
      txs := txs - {id};
    }
  }
}
