/** Reverse submarine swaps of the Boltz client: a table of swaps driven by new
    swaps, blocks, and the answers of a server that is not trusted. */
module SwapLifecycle {
  import opened Wrappers
  import opened Amounts
  import opened BitcoinWire
  import opened Bech32
  import opened Lockscript
  import opened ClaimTx

  const MIN_TIMEOUT: nat := 12
  const MAX_TIMEOUT: nat := 288
  const CLAIM_MARGIN: nat := 10

  function Wrap32(v: nat): nat {
    v % TWO32
  }

  /** Keys, preimages and hashes, as functions of what the table stores. */
  datatype Crypto = Crypto(
    pubkey: nat -> Bytes,         // of the signer's key tweaked by the stored value
    realPreimage: nat -> Bytes,   // from the signer's key and the stored value
    hash160: Bytes -> Bytes, sha256: Bytes -> Bytes,
    validKey: Bytes -> bool,
    sign: Signer,
    verifies: (Bytes, Tx, Amount, Bytes, Bytes) -> bool) // key, transaction, amount, script code, signature

  /** A row of the table.  `setup` and `answer` are history: what the swap was set up
      with, and what the server said. */
  datatype Row = Row(
    api: string, tweak: nat, preimage: nat, destination: string,
    swapId: string, redeemScript: Bytes, timeout: nat, onchainSat: Amount,
    lockedUp: bool, setup: Setup, answer: Created)

  // ------------------------------------------------------------- creating swaps

  /** The server's answer to `/createswap`, or the reasons there is none. */
  datatype Created =
    | Created(id: string, redeemScript: Option<Bytes>, timeout: nat, onchainSat: Amount)
    | Malformed
    | ApiError

  datatype Setup = Setup(api: string, tweak: nat, preimage: nat, destination: string,
                         offchain: Amount, height: nat)

  /** The wrapping comparison of the timeout with the current height. */
  predicate TimeoutChecks(height: nat, timeout: nat) {
    !(Wrap32(height + MIN_TIMEOUT) > timeout || Wrap32(height + MAX_TIMEOUT) < timeout)
  }

  /** At least nine tenths of the off-chain amount; a division by zero is not less. */
  predicate RatioChecks(onchain: Amount, offchain: Amount) {
    offchain == 0 || !(onchain as real / offchain as real < 0.90)
  }

  predicate OurLock(c: Crypto, l: Lock, tweak: nat, preimage: nat, timeout: nat) {
    l.hash == c.hash160(c.realPreimage(preimage)) && l.keyHash == c.pubkey(tweak) && l.locktime == timeout
  }

  /** The validation part of `core_run`: the row to insert, or failure. */
  function Validate(c: Crypto, s: Setup, a: Created): Option<Row> {
    match a
    case Malformed => None
    case ApiError => None
    case Created(id, script, timeout, sat) =>
      if script.None? || !Matches(script.value, c.validKey)
         || !OurLock(c, Fields(script.value), s.tweak, s.preimage, timeout)
         || !RatioChecks(FromSat(sat), s.offchain)
         || !TimeoutChecks(s.height, timeout)
      then None
      else Some(Row(s.api, s.tweak, s.preimage, s.destination, id, script.value, timeout,
                    ToSat(FromSat(sat)), false, s, a))
  }

  predicate SameKey(r: Row, api: string, swapId: string) {
    r.api == api && r.swapId == swapId
  }

  predicate Exists(rows: seq<Row>, api: string, swapId: string) {
    exists i :: 0 <= i < |rows| && SameKey(rows[i], api, swapId)
  }

  /** The transaction that saves a validated swap. */
  function Insert(rows: seq<Row>, row: Row): seq<Row> {
    if Exists(rows, row.api, row.swapId) then rows else rows + [row]
  }

  // ------------------------------------------------------------ blocks and polls

  /** DELETE ... WHERE apiAccess = api AND timeoutBlockheight <= height. */
  function DeleteExpired(rows: seq<Row>, api: string, height: nat): seq<Row> {
    if rows == [] then []
    else (if rows[0].api == api && rows[0].timeout <= height then [] else [rows[0]])
         + DeleteExpired(rows[1..], api, height)
  }

  function DeleteSwap(rows: seq<Row>, api: string, swapId: string): seq<Row> {
    if rows == [] then []
    else (if SameKey(rows[0], api, swapId) then [] else [rows[0]]) + DeleteSwap(rows[1..], api, swapId)
  }

  function MarkLockedUp(rows: seq<Row>, api: string, swapId: string): seq<Row> {
    if rows == [] then []
    else [if SameKey(rows[0], api, swapId) then rows[0].(lockedUp := true) else rows[0]]
         + MarkLockedUp(rows[1..], api, swapId)
  }

  /** `/swapstatus`. */
  datatype Status =
    | ServerError | Unreadable
    | SwapCreated | InMempool
    | Failed | Refunded | Expired
    | Settled
    | Confirmed(tx: Tx)
    | Other

  datatype Action = Nothing | Delete | TryClaim(tx: Tx)

  function Dispatch(s: Status): Action {
    match s
    case ServerError => Delete
    case Unreadable => Nothing
    case SwapCreated => Nothing
    case InMempool => Nothing
    case Failed => Delete
    case Refunded => Delete
    case Expired => Delete
    case Settled => Delete
    case Confirmed(tx) => TryClaim(tx)
    case Other => Nothing
  }

  // ------------------------------------------------------------------- claiming

  /** Pay-to-witness-script-hash of the script. */
  function P2wsh(c: Crypto, script: Bytes): Bytes {
    [0x00, 0x20] + c.sha256(script)
  }

  /** `find_lockup_outnum`: the first output paying the script, or -1. */
  function FindLockup(outs: seq<TxOut>, scriptPubKey: Bytes): (k: int)
    ensures -1 <= k < |outs|
    ensures k >= 0 ==> outs[k].scriptPubKey == scriptPubKey
    ensures forall i :: 0 <= i < (if k < 0 then |outs| else k) ==> outs[i].scriptPubKey != scriptPubKey
  {
    if outs == [] then -1
    else if outs[0].scriptPubKey == scriptPubKey then 0
    else
      var k := FindLockup(outs[1..], scriptPubKey);
      if k < 0 then -1 else k + 1
  }

  function Lookup(rows: seq<Row>, api: string, swapId: string): (r: Option<Row>)
    ensures r.Some? ==> r.value in rows && SameKey(r.value, api, swapId)
  {
    if rows == [] then None
    else if SameKey(rows[0], api, swapId) then Some(rows[0])
    else Lookup(rows[1..], api, swapId)
  }

  /** A claim that passed the checks, with what the handler read from the row. */
  datatype Job = Job(row: Row, height: nat, lockupTx: Tx, lockupOut: nat)

  /** The guards of `ClaimTxHandler::core_run`, up to the first suspension. */
  function StartClaim(c: Crypto, rows: seq<Row>, api: string, swapId: string, height: nat, tx: Tx): Option<Job> {
    match Lookup(rows, api, swapId)
    case None => None
    case Some(row) =>
      if row.lockedUp || row.destination == "" || !MarginChecks(height, row.timeout) then None
      else
        var k := FindLockup(tx.outputs, P2wsh(c, row.redeemScript));
        if k < 0 || tx.outputs[k].amount != FromSat(row.onchainSat) then None
        else Some(Job(row, height, tx, k))
  }

  /** The wrapping test that the timeout is not too near. */
  predicate MarginChecks(height: nat, timeout: nat) {
    !(timeout <= Wrap32(height + CLAIM_MARGIN))
  }

  function RequestOf(c: Crypto, j: Job, feerate: nat): Request {
    Request(feerate, j.height, Txid(j.lockupTx, c.sha256), j.lockupOut, FromSat(j.row.onchainSat),
            j.row.tweak, c.realPreimage(j.row.preimage), j.row.redeemScript, j.row.destination)
  }

  /** A claim transaction handed to the network, made for the feerate of the day. */
  datatype Broadcast = Broadcast(job: Job, feerate: nat, claim: ClaimTx.Claim)

  // ------------------------------------------------------------------ the machine

  datatype State = State(
    rows: seq<Row>, validated: set<Row>, jobs: set<Job>,
    broadcasts: seq<Broadcast>, inserted: set<Row>)

  function Init(): State {
    State([], {}, {}, [], {})
  }

  datatype Event =
    | Answered(setup: Setup, answer: Created)
    | Saved(row: Row)
    | Block(api: string, height: nat)
    | Polled(api: string, swapId: string, height: nat, status: Status)
    | Sent(job: Job, feerate: nat)
    | Recorded(job: Job)

  predicate Enabled(s: State, e: Event) {
    match e
    case Answered(setup, answer) => setup.height < TWO32 && (answer.Created? ==> answer.timeout < TWO32)
    case Saved(row) => row in s.validated
    case Block(_, _) => true
    case Polled(_, _, height, _) => height < TWO32
    case Sent(job, feerate) => job in s.jobs && feerate < TWO32
    case Recorded(job) => job in s.jobs
  }

  function Do(c: Crypto, s: State, e: Event): State {
    match e
    case Answered(setup, answer) =>
      (match Validate(c, setup, answer)
       case None => s
       case Some(row) => s.(validated := s.validated + {row}))
    case Saved(row) =>
      s.(rows := Insert(s.rows, row), validated := s.validated - {row},
         inserted := if Exists(s.rows, row.api, row.swapId) then s.inserted else s.inserted + {row})
    case Block(api, height) => s.(rows := DeleteExpired(s.rows, api, height))
    case Polled(api, swapId, height, status) =>
      (match Dispatch(status)
       case Nothing => s
       case Delete => s.(rows := DeleteSwap(s.rows, api, swapId))
       case TryClaim(tx) =>
         match StartClaim(c, s.rows, api, swapId, height, tx)
         case None => s
         case Some(job) => s.(jobs := s.jobs + {job}))
    case Sent(job, feerate) =>
      (match InitialClaim(RequestOf(c, job, feerate), c.sign)
       case None => s
       case Some(claim) => s.(broadcasts := s.broadcasts + [Broadcast(job, feerate, claim)]))
    case Recorded(job) => s.(rows := MarkLockedUp(s.rows, job.row.api, job.row.swapId))
  }

  // -------------------------------------------------------------- the invariant

  /** The row that its setup and the server's answer gave. */
  ghost predicate GoodRow(c: Crypto, r: Row) {
    Validate(c, r.setup, r.answer) == Some(r) && r.setup.height < TWO32
  }

  ghost predicate UniqueKeys(rows: seq<Row>) {
    forall i, j :: 0 <= i < j < |rows| ==> !SameKey(rows[i], rows[j].api, rows[j].swapId)
  }

  /** The stored part of a row, which no step changes. */
  function Frozen(r: Row): Row {
    r.(lockedUp := false)
  }

  ghost predicate GoodJob(c: Crypto, inserted: set<Row>, j: Job) {
    && Frozen(j.row) in inserted && !j.row.lockedUp
    && MarginChecks(j.height, j.row.timeout) && j.height < TWO32
    && j.lockupOut == FindLockup(j.lockupTx.outputs, P2wsh(c, j.row.redeemScript))
    && j.lockupOut < |j.lockupTx.outputs|
    && j.lockupTx.outputs[j.lockupOut].amount == FromSat(j.row.onchainSat)
  }

  ghost predicate GoodBroadcast(c: Crypto, inserted: set<Row>, b: Broadcast) {
    && GoodJob(c, inserted, b.job) && b.feerate < TWO32
    && InitialClaim(RequestOf(c, b.job, b.feerate), c.sign) == Some(b.claim)
  }

  ghost predicate Inv(c: Crypto, s: State) {
    && UniqueKeys(s.rows)
    && (forall r :: r in s.validated || r in s.inserted ==> GoodRow(c, r) && !r.lockedUp)
    && (forall r :: r in s.rows ==> Frozen(r) in s.inserted)
    && (forall j :: j in s.jobs ==> GoodJob(c, s.inserted, j))
    && (forall i :: 0 <= i < |s.broadcasts| ==> GoodBroadcast(c, s.inserted, s.broadcasts[i]))
  }

  // ---------------------------------------------------- what the table edits keep

  /** `a` is `b` with some rows left out. */
  ghost predicate Subtable(a: seq<Row>, b: seq<Row>) {
    if a == [] then true
    else b != [] && ((a[0] == b[0] && Subtable(a[1..], b[1..])) || Subtable(a, b[1..]))
  }

  lemma {:induction false} DeletesAreSubtables(rows: seq<Row>, api: string, swapId: string, height: nat)
    ensures Subtable(DeleteExpired(rows, api, height), rows)
    ensures Subtable(DeleteSwap(rows, api, swapId), rows)
  {
    if rows != [] {
      DeletesAreSubtables(rows[1..], api, swapId, height);
      var a, b := DeleteExpired(rows, api, height), DeleteSwap(rows, api, swapId);
      var a', b' := DeleteExpired(rows[1..], api, height), DeleteSwap(rows[1..], api, swapId);
      assert a == a' || (a == [rows[0]] + a' && a[1..] == a');
      assert b == b' || (b == [rows[0]] + b' && b[1..] == b');
    }
  }

  lemma {:induction false} SubtableKeeps(a: seq<Row>, b: seq<Row>)
    requires Subtable(a, b) && UniqueKeys(b)
    ensures UniqueKeys(a) && forall r :: r in a ==> r in b
    decreases |b|
  {
    if a != [] {
      assert UniqueKeys(b[1..]);
      if Subtable(a, b[1..]) {
        SubtableKeeps(a, b[1..]);
      } else {
        SubtableKeeps(a[1..], b[1..]);
        assert a == [a[0]] + a[1..] && b == [b[0]] + b[1..];
        forall j | 1 <= j < |a| ensures !SameKey(a[0], a[j].api, a[j].swapId) {
          assert a[j] == a[1..][j - 1] && a[j] in b[1..];
          var k :| 0 <= k < |b[1..]| && b[1..][k] == a[j];
          assert b[k + 1] == a[j];
        }
      }
    }
  }

  lemma {:induction false} MarkIsPointwise(rows: seq<Row>, api: string, swapId: string)
    ensures var m := MarkLockedUp(rows, api, swapId);
            |m| == |rows| && forall i :: 0 <= i < |rows| ==>
              m[i] == if SameKey(rows[i], api, swapId) then rows[i].(lockedUp := true) else rows[i]
  {
    if rows != [] {
      MarkIsPointwise(rows[1..], api, swapId);
    }
  }

  /** A block removes exactly the expired rows of its service ... */
  lemma {:induction false} ExpiredIff(rows: seq<Row>, api: string, height: nat, r: Row)
    ensures r in DeleteExpired(rows, api, height) <==> r in rows && !(r.api == api && r.timeout <= height)
  {
    if rows != [] {
      ExpiredIff(rows[1..], api, height, r);
      assert rows == [rows[0]] + rows[1..];
    }
  }

  /** ... and deleting a swap removes exactly that one. */
  lemma {:induction false} DeletedIff(rows: seq<Row>, api: string, swapId: string, r: Row)
    ensures r in DeleteSwap(rows, api, swapId) <==> r in rows && !SameKey(r, api, swapId)
  {
    if rows != [] {
      DeletedIff(rows[1..], api, swapId, r);
      assert rows == [rows[0]] + rows[1..];
    }
  }

  lemma RemainingRows(rows: seq<Row>, api: string, swapId: string, height: nat)
    ensures forall r :: r in DeleteExpired(rows, api, height) <==> r in rows && !(r.api == api && r.timeout <= height)
    ensures forall r :: r in DeleteSwap(rows, api, swapId) <==> r in rows && !SameKey(r, api, swapId)
  {
    forall r
      ensures r in DeleteExpired(rows, api, height) <==> r in rows && !(r.api == api && r.timeout <= height)
      ensures r in DeleteSwap(rows, api, swapId) <==> r in rows && !SameKey(r, api, swapId)
    {
      ExpiredIff(rows, api, height, r);
      DeletedIff(rows, api, swapId, r);
    }
  }

  /** The server has given the swap up, or we have been paid. */
  predicate IsOver(status: Status) {
    status.ServerError? || status.Failed? || status.Refunded? || status.Expired? || status.Settled?
  }

  predicate Removes(e: Event, r: Row) {
    || (e.Block? && e.api == r.api && r.timeout <= e.height)
    || (e.Polled? && SameKey(r, e.api, e.swapId) && IsOver(e.status))
  }

  /** A stored swap stays until its timeout is reached or its server says it is over,
      and goes then; only its lock-up mark ever changes. */
  lemma SwapStaysIff(c: Crypto, s: State, e: Event, r: Row)
    requires Inv(c, s) && Enabled(s, e) && r in s.rows
    ensures (exists r' :: r' in Do(c, s, e).rows && Frozen(r') == Frozen(r)) <==> !Removes(e, r)
  {
    hide GoodRow, GoodJob, GoodBroadcast, Validate, StartClaim, InitialClaim, Matches;
    var s' := Do(c, s, e);
    match e
    case Block(api, height) =>
      RemainingRows(s.rows, api, "", height);
      assert Frozen(r) == Frozen(r);
    case Polled(api, swapId, height, status) =>
      RemainingRows(s.rows, api, swapId, 0);
      assert Frozen(r) == Frozen(r);
    case Recorded(job) =>
      MarkIsPointwise(s.rows, job.row.api, job.row.swapId);
      var i :| 0 <= i < |s.rows| && s.rows[i] == r;
      assert s'.rows[i] in s'.rows && Frozen(s'.rows[i]) == Frozen(r);
    case _ =>
      assert r in s'.rows && Frozen(r) == Frozen(r);
  }

  /** The job a confirmed lockup gives: for the stored swap, not claimed yet and with a
      destination, in time, on the first output paying its script, if it pays exactly
      the stored amount. */
  ghost predicate IsClaimOf(c: Crypto, rows: seq<Row>, api: string, swapId: string, height: nat, tx: Tx, j: Job) {
    && j.height == height && j.lockupTx == tx && j.lockupOut < |tx.outputs|
    && j.row in rows && SameKey(j.row, api, swapId)
    && !j.row.lockedUp && j.row.destination != "" && MarginChecks(height, j.row.timeout)
    && tx.outputs[j.lockupOut].scriptPubKey == P2wsh(c, j.row.redeemScript)
    && (forall i :: 0 <= i < j.lockupOut ==> tx.outputs[i].scriptPubKey != P2wsh(c, j.row.redeemScript))
    && tx.outputs[j.lockupOut].amount == FromSat(j.row.onchainSat)
  }

  lemma {:induction false} LookupIff(rows: seq<Row>, api: string, swapId: string, r: Row)
    requires UniqueKeys(rows)
    ensures Lookup(rows, api, swapId) == Some(r) <==> r in rows && SameKey(r, api, swapId)
  {
    if rows != [] {
      assert UniqueKeys(rows[1..]);
      LookupIff(rows[1..], api, swapId, r);
      assert rows == [rows[0]] + rows[1..];
      if r in rows[1..] {
        var k :| 0 <= k < |rows[1..]| && rows[1..][k] == r;
        assert rows[k + 1] == r;
      }
    }
  }

  /** A claim is started by a confirmed lockup, and exactly under those conditions. */
  lemma ClaimStartsIff(c: Crypto, s: State, e: Event, j: Job)
    requires Inv(c, s) && Enabled(s, e)
    ensures j in Do(c, s, e).jobs <==>
              || j in s.jobs
              || (e.Polled? && e.status.Confirmed? && IsClaimOf(c, s.rows, e.api, e.swapId, e.height, e.status.tx, j))
  {
    hide Inv, Validate, InitialClaim, MarginChecks, P2wsh, FromSat;
    UniqueInInv(c, s);
    if e.Polled? && e.status.Confirmed? {
      LookupIff(s.rows, e.api, e.swapId, j.row);
      hide UniqueKeys;
    }
  }

  lemma UniqueInInv(c: Crypto, s: State)
    requires Inv(c, s)
    ensures UniqueKeys(s.rows)
  {
  }

  /** Once a broadcast is recorded, the swap is not claimed again. */
  lemma RecordedIsNotClaimedAgain(c: Crypto, rows: seq<Row>, api: string, swapId: string, height: nat, tx: Tx)
    ensures StartClaim(c, MarkLockedUp(rows, api, swapId), api, swapId, height, tx) == None
  {
    hide FindLockup, MarginChecks;
    var marked := MarkLockedUp(rows, api, swapId);
    MarkIsPointwise(rows, api, swapId);
    if Lookup(marked, api, swapId).Some? {
      var r := Lookup(marked, api, swapId).value;
      var i :| 0 <= i < |marked| && marked[i] == r;
      assert r.lockedUp;
    }
  }

  /** The script looked for is the one that an address of the script's hash stands for. */
  lemma LockupHasAddress(c: Crypto, script: Bytes, hrp: string, checksum: string)
    requires |c.sha256(script)| == 32 && KnownHrp(hrp) && |checksum| == 6 && '1' !in checksum
    ensures AddrToScript(Address(hrp, 0, c.sha256(script), checksum)) == Some(P2wsh(c, script))
  {
    AddressRoundTrip(hrp, 0, c.sha256(script), checksum);
  }

  lemma InsertKeepsUnique(rows: seq<Row>, row: Row)
    requires UniqueKeys(rows)
    ensures UniqueKeys(Insert(rows, row))
  {
  }

  // ------------------------------------------------------------------ every step

  lemma ValidatedIsGood(c: Crypto, setup: Setup, answer: Created)
    requires setup.height < TWO32
    ensures Validate(c, setup, answer).Some? ==>
              GoodRow(c, Validate(c, setup, answer).value) && !Validate(c, setup, answer).value.lockedUp
  {
    hide Matches, RatioChecks, TimeoutChecks;
  }

  lemma StartedIsGood(c: Crypto, s: State, api: string, swapId: string, height: nat, tx: Tx)
    requires Inv(c, s) && height < TWO32
    ensures var j := StartClaim(c, s.rows, api, swapId, height, tx);
            j.Some? ==> GoodJob(c, s.inserted, j.value)
  {
  }

  lemma GoodGrows(c: Crypto, a: set<Row>, b: set<Row>)
    requires a <= b
    ensures forall j :: GoodJob(c, a, j) ==> GoodJob(c, b, j)
    ensures forall x :: GoodBroadcast(c, a, x) ==> GoodBroadcast(c, b, x)
  {
  }

  lemma DoInv(c: Crypto, s: State, e: Event)
    requires Inv(c, s) && Enabled(s, e)
    ensures Inv(c, Do(c, s, e))
  {
    var s' := Do(c, s, e);
    hide GoodRow, GoodJob, Validate, StartClaim, InitialClaim, UniqueKeys, Matches;
    match e
    case Answered(setup, answer) => ValidatedIsGood(c, setup, answer);
    case Saved(row) =>
      InsertKeepsUnique(s.rows, row);
      GoodGrows(c, s.inserted, s'.inserted);
      assert forall r :: r in s'.rows ==> r in s.rows || (r == row && row in s'.inserted && Frozen(row) == row);
    case Block(api, height) =>
      DeletesAreSubtables(s.rows, api, "", height);
      SubtableKeeps(s'.rows, s.rows);
    case Polled(api, swapId, height, status) =>
      match Dispatch(status) {
        case Nothing =>
        case Delete =>
          DeletesAreSubtables(s.rows, api, swapId, 0);
          SubtableKeeps(s'.rows, s.rows);
        case TryClaim(tx) => StartedIsGood(c, s, api, swapId, height, tx);
      }
    case Sent(job, feerate) => SentInv(c, s, job, feerate);
    case Recorded(job) => RecordedInv(c, s, job);
  }

  lemma SentInv(c: Crypto, s: State, job: Job, feerate: nat)
    requires Inv(c, s) && job in s.jobs && feerate < TWO32
    ensures Inv(c, Do(c, s, Sent(job, feerate)))
  {
    var s' := Do(c, s, Sent(job, feerate));
    hide GoodRow, GoodJob, InitialClaim, UniqueKeys;
    forall i | 0 <= i < |s'.broadcasts| ensures GoodBroadcast(c, s'.inserted, s'.broadcasts[i]) {
      if i < |s.broadcasts| {
        assert s'.broadcasts[i] == s.broadcasts[i];
      } else {
        assert InitialClaim(RequestOf(c, job, feerate), c.sign) == Some(s'.broadcasts[i].claim);
      }
    }
  }

  lemma RecordedInv(c: Crypto, s: State, job: Job)
    requires Inv(c, s)
    ensures Inv(c, Do(c, s, Recorded(job)))
  {
    var s' := Do(c, s, Recorded(job));
    hide GoodRow, GoodJob, GoodBroadcast;
    MarkIsPointwise(s.rows, job.row.api, job.row.swapId);
    forall r | r in s'.rows ensures Frozen(r) in s'.inserted {
      var i :| 0 <= i < |s'.rows| && s'.rows[i] == r;
      assert s.rows[i] in s.rows && Frozen(r) == Frozen(s.rows[i]);
    }
  }

  // ------------------------------------------------------------ wrapping heights

  /** The timeout check means what it says for every lock time that fits a script,
      exactly when the height is not within 12 of the 32-bit limit. */
  lemma TimeoutChecksIff(h: nat)
    requires h < TWO32
    ensures (forall t :: 0 <= t < 0x100_0000 ==> (TimeoutChecks(h, t) <==> h + MIN_TIMEOUT <= t <= h + MAX_TIMEOUT))
              <==> h + MIN_TIMEOUT < TWO32
  {
    if h + MIN_TIMEOUT >= TWO32 {
      assert TimeoutChecks(h, 100);
    } else if h + MAX_TIMEOUT >= TWO32 {
      assert Wrap32(h + MIN_TIMEOUT) == h + MIN_TIMEOUT;
    }
  }

  lemma TimeoutCheckExample()
    ensures TimeoutChecks(0xFFFF_FFF4, 100)
  {
  }

  lemma ClaimMarginIff(h: nat)
    requires h < TWO32
    ensures (forall t :: 0 <= t < 0x100_0000 ==> (MarginChecks(h, t) <==> h + CLAIM_MARGIN < t))
              <==> h + CLAIM_MARGIN < TWO32
  {
    if h + CLAIM_MARGIN >= TWO32 {
      assert MarginChecks(h, 100);
    }
  }

  // -------------------------------------------------------------------- runs

  datatype Outcome = Impossible | Reached(state: State)

  function After(c: Crypto, s: State, events: seq<Event>): Outcome
    decreases |events|
  {
    if events == [] then Reached(s)
    else if Enabled(s, events[0]) then After(c, Do(c, s, events[0]), events[1..])
    else Impossible
  }

  lemma {:induction false} AfterInv(c: Crypto, s: State, events: seq<Event>)
    requires Inv(c, s) && After(c, s, events).Reached?
    ensures Inv(c, After(c, s, events).state)
    decreases |events|
  {
    hide Inv, Do, Enabled;
    if events != [] {
      DoInv(c, s, events[0]);
      AfterInv(c, Do(c, s, events[0]), events[1..]);
    }
  }

  // ----------------------------------------------------------- what is accepted

  /** Our template with this timeout, and some second key of the server's. */
  ghost predicate IsOurTemplate(c: Crypto, script: Bytes, tweak: nat, preimage: nat, timeout: nat) {
    exists key ::
      && ValidLock(Lock(c.hash160(c.realPreimage(preimage)), c.pubkey(tweak), timeout, key), c.validKey)
      && script == Template(Lock(c.hash160(c.realPreimage(preimage)), c.pubkey(tweak), timeout, key))
  }

  lemma OurTemplateIff(c: Crypto, script: Bytes, tweak: nat, preimage: nat, timeout: nat)
    ensures Matches(script, c.validKey) && OurLock(c, Fields(script), tweak, preimage, timeout)
       <==> IsOurTemplate(c, script, tweak, preimage, timeout)
    ensures IsOurTemplate(c, script, tweak, preimage, timeout) ==>
              timeout < 0x100_0000 && |script| == 106 && Fields(script).keyHash == c.pubkey(tweak)
  {
    if Matches(script, c.validKey) && OurLock(c, Fields(script), tweak, preimage, timeout) {
      var l := Fields(script);
      MatchesIff(script, l, c.validKey);
      assert l == Lock(c.hash160(c.realPreimage(preimage)), c.pubkey(tweak), timeout, l.keyLocktime);
      hide Matches, Template, Fields;
    }
    if IsOurTemplate(c, script, tweak, preimage, timeout) {
      hide Matches, Template, Fields;
      var key :| ValidLock(Lock(c.hash160(c.realPreimage(preimage)), c.pubkey(tweak), timeout, key), c.validKey)
              && script == Template(Lock(c.hash160(c.realPreimage(preimage)), c.pubkey(tweak), timeout, key));
      var l := Lock(c.hash160(c.realPreimage(preimage)), c.pubkey(tweak), timeout, key);
      MatchesIff(script, l, c.validKey);
      MatchHas106Bytes(script, c.validKey);
    }
  }

  lemma MatchHas106Bytes(script: Bytes, validKey: Bytes -> bool)
    requires Matches(script, validKey)
    ensures |script| == 106
  {
  }

  /** The ratio test in whole numbers. */
  lemma RatioIff(onchain: Amount, offchain: Amount)
    ensures RatioChecks(onchain, offchain) <==> 10 * onchain >= 9 * offchain
  {
    if offchain > 0 {
      QuotientIff(onchain as real, offchain as real);
      assert (10 * onchain) as real == 10.0 * onchain as real;
      assert (9 * offchain) as real == 9.0 * offchain as real;
    }
  }

  lemma QuotientIff(x: real, y: real)
    requires y > 0.0
    ensures x / y < 0.90 <==> 10.0 * x < 9.0 * y
  {
    assert x / y * y == x;
  }

  /** An answer is accepted exactly when its script is our template with its timeout,
      the timeout is 12 to 288 blocks ahead, and it pays nine tenths. */
  lemma AcceptsIff(c: Crypto, s: Setup, a: Created)
    requires s.height + MIN_TIMEOUT < TWO32
    ensures Validate(c, s, a).Some? <==>
              && a.Created? && a.redeemScript.Some?
              && IsOurTemplate(c, a.redeemScript.value, s.tweak, s.preimage, a.timeout)
              && s.height + MIN_TIMEOUT <= a.timeout <= s.height + MAX_TIMEOUT
              && 10 * FromSat(a.onchainSat) >= 9 * s.offchain
  {
    hide Matches, Fields, IsOurTemplate, RatioChecks, TimeoutChecks, FromSat;
    if a.Created? && a.redeemScript.Some? {
      OurTemplateIff(c, a.redeemScript.value, s.tweak, s.preimage, a.timeout);
      RatioIff(FromSat(a.onchainSat), s.offchain);
      TimeoutChecksIff(s.height);
    }
  }

  /** What a row holds: the setup's keys and destination and the answer's identifier,
      script and timeout. */
  predicate HoldsAnswer(r: Row) {
    && r.answer.Created? && r.answer.redeemScript == Some(r.redeemScript)
    && r.api == r.setup.api && r.tweak == r.setup.tweak && r.preimage == r.setup.preimage
    && r.destination == r.setup.destination && r.swapId == r.answer.id && r.timeout == r.answer.timeout
  }

  lemma GoodRowIsOurs(c: Crypto, r: Row)
    requires GoodRow(c, r)
    ensures HoldsAnswer(r) && IsOurTemplate(c, r.redeemScript, r.tweak, r.preimage, r.timeout)
    ensures r.setup.height + MIN_TIMEOUT < TWO32 ==>
              r.setup.height + MIN_TIMEOUT <= r.timeout <= r.setup.height + MAX_TIMEOUT
    ensures PaysNineTenths(r) <==> r.setup.offchain == 0 || FromSat(r.answer.onchainSat) + 999 <= MAX_AMOUNT
  {
    hide Matches, Fields, IsOurTemplate, RatioChecks, TimeoutChecks, FromSat, ToSat;
    OurTemplateIff(c, r.redeemScript, r.tweak, r.preimage, r.timeout);
    TimeoutChecksIff(r.setup.height);
    RatioIff(FromSat(r.answer.onchainSat), r.setup.offchain);
    StoredAmount(FromSat(r.answer.onchainSat));
  }

  /** The stored amount is at least nine tenths of what we pay. */
  predicate PaysNineTenths(r: Row) {
    10 * FromSat(r.onchainSat) >= 9 * r.setup.offchain
  }

  /** Storing rounds up to whole satoshi, or wraps to nothing. */
  lemma StoredAmount(v: Amount)
    ensures if v + 999 <= MAX_AMOUNT then FromSat(ToSat(v)) >= v else FromSat(ToSat(v)) == 0 && v > 0
  {
    if v + 999 <= MAX_AMOUNT {
      assert ToSat(v) == (v + 999) / 1000;
      FromSatExact(ToSat(v));
    } else {
      assert Wrap64(v + 999) == v + 999 - TWO64;
    }
  }

  /** An answer whose wrapped amount passes the test and is stored as zero. */
  lemma WrappedAmountExample()
    ensures var v := FromSat(239_807_672_958_224_171);
            RatioChecks(v, 1_000_000_000) && ToSat(v) == 0
  {
    assert 239_807_672_958_224_171 * 1000 == 12 * TWO64 + 18446744073709551608;
    assert FromSat(239_807_672_958_224_171) == 18446744073709551608;
    RatioIff(18446744073709551608, 1_000_000_000);
  }

  /** Every row ever validated comes from an answer that was given. */
  ghost predicate FromEvents(s: State, past: seq<Event>) {
    forall r :: r in s.validated || r in s.inserted ==> Answered(r.setup, r.answer) in past
  }

  lemma DoFromEvents(c: Crypto, s: State, e: Event, past: seq<Event>)
    requires FromEvents(s, past) && Enabled(s, e)
    ensures FromEvents(Do(c, s, e), past + [e])
  {
    hide StartClaim, InitialClaim, Matches, TimeoutChecks, RatioChecks;
  }

  lemma {:induction false} AfterFromEvents(c: Crypto, s: State, past: seq<Event>, events: seq<Event>)
    requires FromEvents(s, past) && After(c, s, events).Reached?
    ensures FromEvents(After(c, s, events).state, past + events)
    decreases |events|
  {
    hide FromEvents, Do, Enabled;
    if events == [] {
      assert past + events == past;
    } else {
      DoFromEvents(c, s, events[0], past);
      AfterFromEvents(c, Do(c, s, events[0]), past + [events[0]], events[1..]);
      assert past + [events[0]] + events[1..] == past + events;
    }
  }

  /** Over every run of setups, blocks, polls and claims, whatever the server answers:
      each swap is stored once per service; it holds what some setup asked for and the
      server answered; its script is exactly our template, with a timeout 12 to 288
      blocks after that setup; and its amount is nine tenths of ours or more, exactly
      when the answered amount does not wrap on being rounded. */
  lemma StoredSwapsAreOurs(c: Crypto, events: seq<Event>)
    requires After(c, Init(), events).Reached?
    ensures var s := After(c, Init(), events).state;
            && UniqueKeys(s.rows)
            && forall r :: r in s.rows ==>
                 && Answered(r.setup, r.answer) in events && HoldsAnswer(r)
                 && IsOurTemplate(c, r.redeemScript, r.tweak, r.preimage, r.timeout)
                 && (r.setup.height + MIN_TIMEOUT < TWO32 ==>
                       r.setup.height + MIN_TIMEOUT <= r.timeout <= r.setup.height + MAX_TIMEOUT)
                 && (10 * FromSat(r.onchainSat) >= 9 * r.setup.offchain <==>
                       r.setup.offchain == 0 || FromSat(r.answer.onchainSat) + 999 <= MAX_AMOUNT)
  {
    InitInv(c);
    AfterInv(c, Init(), events);
    AfterFromEvents(c, Init(), [], events);
    assert [] + events == events;
    var s := After(c, Init(), events).state;
    hide IsOurTemplate, After, GoodRow, FromSat;
    forall r | r in s.rows
      ensures Answered(r.setup, r.answer) in events && HoldsAnswer(r)
      ensures IsOurTemplate(c, r.redeemScript, r.tweak, r.preimage, r.timeout)
      ensures r.setup.height + MIN_TIMEOUT < TWO32 ==>
                r.setup.height + MIN_TIMEOUT <= r.timeout <= r.setup.height + MAX_TIMEOUT
      ensures 10 * FromSat(r.onchainSat) >= 9 * r.setup.offchain <==>
                r.setup.offchain == 0 || FromSat(r.answer.onchainSat) + 999 <= MAX_AMOUNT
    {
      GoodRowIsOurs(c, Frozen(r));
    }
  }

  /** Signatures with a tweaked key verify against its public key. */
  ghost predicate KeysWork(c: Crypto) {
    forall w, t, a, s :: c.verifies(c.pubkey(w), StripTx(t), a, s, c.sign(w, t, a, s))
  }

  /** The first witness item is a signature of this transaction by the key in the
      swap's script, over the spent amount and the script in its wire form. */
  ghost predicate SignedForLockup(c: Crypto, b: Broadcast) {
    && |b.claim.tx.inputs| == 1 && |b.claim.tx.inputs[0].stack| == 3 && |b.job.row.redeemScript| == 106
    && var item := b.claim.tx.inputs[0].stack[0];
       && |item| > 0 && item[|item| - 1] == SIGHASH_ALL
       && c.verifies(Fields(b.job.row.redeemScript).keyHash, StripTx(b.claim.tx), FromSat(b.job.row.onchainSat),
                     Blob(b.job.row.redeemScript), item[..|item| - 1])
  }

  /** A claim spends an output that pays the script of a swap that was stored,
      exactly the stored amount, with our signature, our preimage and that script, and
      pays all of it but the recorded fee to the swap's destination, or burns it. */
  ghost predicate SpendsLockup(c: Crypto, b: Broadcast) {
    var row := b.job.row;
    var paid := b.job.lockupTx.outputs;
    && |b.claim.tx.inputs| == 1 && |b.claim.tx.outputs| == 1
    && var input := b.claim.tx.inputs[0];
       && input.prevTxid == Txid(b.job.lockupTx, c.sha256) && input.prevOut < |paid|
       && paid[input.prevOut].scriptPubKey == P2wsh(c, row.redeemScript)
       && (forall i :: 0 <= i < input.prevOut ==> paid[i].scriptPubKey != P2wsh(c, row.redeemScript))
       && paid[input.prevOut].amount == FromSat(row.onchainSat)
       && |input.stack| == 3 && input.stack[1..] == [c.realPreimage(row.preimage), row.redeemScript]
       && b.claim.tx.outputs[0].amount + b.claim.fees == FromSat(row.onchainSat)
       && Pays(b.claim.tx.outputs[0])
       && (b.claim.tx.outputs[0].amount > 0 ==>
             AddrToScript(row.destination) == Some(b.claim.tx.outputs[0].scriptPubKey))
       && b.claim.tx.nLockTime == Wrap32(b.job.height + 1) && input.nSequence == 0xFFFF_FFFF
       && (KeysWork(c) ==> SignedForLockup(c, b))
  }

  function VerifierOf(c: Crypto): Verifier {
    (w: nat, t: Tx, a: Amount, s: Bytes, sig: Bytes) => c.verifies(c.pubkey(w), t, a, s, sig)
  }

  lemma KeysSign(c: Crypto)
    requires KeysWork(c)
    ensures SignerWorks(c.sign, VerifierOf(c))
  {
    hide StripTx;
  }

  lemma GoodBroadcastIsSigned(c: Crypto, inserted: set<Row>, b: Broadcast)
    requires GoodBroadcast(c, inserted, b) && GoodRow(c, Frozen(b.job.row)) && KeysWork(c)
    ensures SignedForLockup(c, b)
  {
    hide InitialClaim, KeysWork, FromSat, Fields, IsOurTemplate, ScriptCode, Blob, GoodJob, GoodRow, SignerWorks, StripTx;
    KeysSign(c);
    ClaimIsSigned(RequestOf(c, b.job, b.feerate), c.sign, VerifierOf(c));
    GoodRowIsOurs(c, Frozen(b.job.row));
    OurTemplateIff(c, b.job.row.redeemScript, b.job.row.tweak, b.job.row.preimage, b.job.row.timeout);
    ScriptCodeIff(b.job.row.redeemScript);
  }

  lemma ClaimShape(r: Request, sign: Signer)
    requires InitialClaim(r, sign).Some?
    ensures var tx := InitialClaim(r, sign).value.tx;
            && |tx.inputs| == 1
            && tx.inputs[0].prevTxid == r.lockupTxid && tx.inputs[0].prevOut == r.lockupOut
            && |tx.inputs[0].stack| == 3 && tx.inputs[0].stack[1..] == [r.preimage, r.witnessScript]
  {
    hide AddrToScript, EstimatedWeight, Fee, Output;
  }

  lemma GoodBroadcastSpends(c: Crypto, inserted: set<Row>, b: Broadcast)
    requires GoodBroadcast(c, inserted, b) && GoodRow(c, Frozen(b.job.row))
    ensures SpendsLockup(c, b)
  {
    hide InitialClaim, Pays, Txid, FromSat, SignedForLockup, AddrToScript, KeysWork, GoodRow;
    if KeysWork(c) {
      GoodBroadcastIsSigned(c, inserted, b);
    }
    var r := RequestOf(c, b.job, b.feerate);
    ClaimPaysAddress(r, c.sign);
    ClaimShape(r, c.sign);
    ClaimConserves(r, c.sign);
    SatoshiIsNeverMax(b.job.row.onchainSat);
  }

  /** Over every run: each broadcast claim spends the lockup of a stored swap, more
      than 10 blocks before its timeout. */
  lemma BroadcastsSpendLockups(c: Crypto, events: seq<Event>, i: nat)
    requires After(c, Init(), events).Reached? && i < |After(c, Init(), events).state.broadcasts|
    ensures var s := After(c, Init(), events).state; var b := s.broadcasts[i];
            && Frozen(b.job.row) in s.inserted
            && IsOurTemplate(c, b.job.row.redeemScript, b.job.row.tweak, b.job.row.preimage, b.job.row.timeout)
            && SpendsLockup(c, b)
            && (b.job.height + CLAIM_MARGIN < TWO32 ==> b.job.height + CLAIM_MARGIN < b.job.row.timeout)
  {
    hide Inv, GoodBroadcast, SpendsLockup, IsOurTemplate, After;
    InitInv(c);
    AfterInv(c, Init(), events);
    var s := After(c, Init(), events).state;
    BroadcastFacts(c, s, i);
    GoodBroadcastSpends(c, s.inserted, s.broadcasts[i]);
    GoodRowIsOurs(c, Frozen(s.broadcasts[i].job.row));
  }

  /** Over every run, with hashes and preimages of 32 bytes and signatures of at most
      72: each broadcast that pays an output covers its feerate for its real weight.
      A stored script has 106 bytes, so no product wraps. */
  lemma BroadcastsPayTheirWeight(c: Crypto, events: seq<Event>, i: nat)
    requires After(c, Init(), events).Reached? && i < |After(c, Init(), events).state.broadcasts|
    requires forall x :: |c.sha256(x)| == 32
    requires forall p :: |c.realPreimage(p)| == 32
    requires ShortSignatures(c.sign)
    ensures var b := After(c, Init(), events).state.broadcasts[i];
            |b.claim.tx.outputs| == 1 && (b.claim.tx.outputs[0].amount > 0 ==>
              b.claim.fees >= ClaimTx.Weight(b.claim.tx) * b.feerate / 1000 * 1000)
  {
    hide Inv, After, InitialClaim, GoodRow, GoodJob, ClaimTx.Weight, AddrToScript, EstimatedWeight;
    InitInv(c);
    AfterInv(c, Init(), events);
    var s := After(c, Init(), events).state;
    var b := s.broadcasts[i];
    BroadcastFacts(c, s, i);
    var r := RequestOf(c, b.job, b.feerate);
    ClaimConserves(r, c.sign);
    ScriptHas106Bytes(c, Frozen(b.job.row));
    PaidAddress(r, c.sign);
    ProductFits(r);
    FeeCoversWeight(r, c.sign);
  }

  lemma ScriptHas106Bytes(c: Crypto, r: Row)
    requires GoodRow(c, r)
    ensures |r.redeemScript| == 106
  {
    hide RatioChecks, TimeoutChecks, OurLock;
  }

  lemma PaidAddress(r: Request, sign: Signer)
    requires InitialClaim(r, sign).Some?
    ensures AddrToScript(r.outputAddr).Some?
  {
    hide AddrToScript;
  }

  lemma InitInv(c: Crypto)
    ensures Inv(c, Init())
  {
  }

  lemma BroadcastFacts(c: Crypto, s: State, i: nat)
    requires Inv(c, s) && i < |s.broadcasts|
    ensures var b := s.broadcasts[i];
            && GoodBroadcast(c, s.inserted, b)
            && Frozen(b.job.row) in s.inserted && GoodRow(c, Frozen(b.job.row))
            && (b.job.height + CLAIM_MARGIN < TWO32 ==> b.job.height + CLAIM_MARGIN < b.job.row.timeout)
  {
    hide GoodRow, InitialClaim, UniqueKeys, MarginChecks, FromSat;
    assert GoodBroadcast(c, s.inserted, s.broadcasts[i]);
    MarginMeans(s.broadcasts[i].job.height, s.broadcasts[i].job.row.timeout);
  }

  lemma MarginMeans(h: nat, t: nat)
    ensures MarginChecks(h, t) && h + CLAIM_MARGIN < TWO32 ==> h + CLAIM_MARGIN < t
  {
  }

  // --------------------------------------------------------------- the table

  /** The database table, edited by one SQL transaction at a time. */
  class Table {
    var rows: seq<Row>

    constructor ()
      ensures rows == [] && UniqueKeys(rows)
    {
      rows := [];
    }

    /** The uniqueness check and insertion of a validated swap. */
    method Save(row: Row) returns (saved: bool)
      requires UniqueKeys(rows)
      modifies this
      ensures rows == Insert(old(rows), row) && UniqueKeys(rows)
      ensures saved == !Exists(old(rows), row.api, row.swapId)
    {
      InsertKeepsUnique(rows, row);
      var found := false;
      for i := 0 to |rows|
        invariant found <==> exists k :: 0 <= k < i && SameKey(rows[k], row.api, row.swapId)
      {
        if rows[i].api == row.api && rows[i].swapId == row.swapId {
          found := true;
        }
      }
      if found {
        return false;
      }
      rows := rows + [row];
      return true;
    }

    method OnBlock(api: string, height: nat)
      requires UniqueKeys(rows)
      modifies this
      ensures rows == DeleteExpired(old(rows), api, height) && UniqueKeys(rows)
      ensures forall r :: r in rows <==> r in old(rows) && !(r.api == api && r.timeout <= height)
    {
      DeletesAreSubtables(rows, api, "", height);
      SubtableKeeps(DeleteExpired(rows, api, height), rows);
      var kept := [];
      var i := |rows|;
      while i > 0
        invariant 0 <= i <= |rows| == |old(rows)| && rows == old(rows)
        invariant kept == DeleteExpired(rows[i..], api, height)
      {
        i := i - 1;
        assert rows[i..][1..] == rows[i + 1..];
        if !(rows[i].api == api && rows[i].timeout <= height) {
          kept := [rows[i]] + kept;
        }
      }
      assert rows[0..] == rows;
      hide DeleteExpired, UniqueKeys;
      RemainingRows(rows, api, "", height);
      rows := kept;
    }

    /** The guards of `ClaimTxHandler::core_run`. */
    method BeginClaim(c: Crypto, api: string, swapId: string, height: nat, tx: Tx) returns (job: Option<Job>)
      ensures job == StartClaim(c, rows, api, swapId, height, tx)
    {
      var i := 0;
      while i < |rows| && !(rows[i].api == api && rows[i].swapId == swapId)
        invariant 0 <= i <= |rows| && forall k :: 0 <= k < i ==> !SameKey(rows[k], api, swapId)
      {
        i := i + 1;
      }
      LookupFirst(rows, api, swapId, i);
      if i == |rows| {
        return None;
      }
      var row := rows[i];
      if row.lockedUp || row.destination == "" {
        return None;
      }
      if row.timeout <= Wrap32(height + CLAIM_MARGIN) {
        return None;
      }
      var outnum := FindLockup(tx.outputs, P2wsh(c, row.redeemScript));
      if outnum < 0 || tx.outputs[outnum].amount != FromSat(row.onchainSat) {
        return None;
      }
      job := Some(Job(row, height, tx, outnum));
    }

    /** The update after a successful broadcast. */
    method LockUp(api: string, swapId: string)
      requires UniqueKeys(rows)
      modifies this
      ensures rows == MarkLockedUp(old(rows), api, swapId) && UniqueKeys(rows)
      ensures forall r :: r in rows && SameKey(r, api, swapId) ==> r.lockedUp
    {
      MarkIsPointwise(rows, api, swapId);
      ghost var before := rows;
      for i := 0 to |rows|
        invariant |rows| == |before|
        invariant forall k :: 0 <= k < |rows| ==>
                    rows[k] == if k < i && SameKey(before[k], api, swapId)
                               then before[k].(lockedUp := true) else before[k]
      {
        if rows[i].api == api && rows[i].swapId == swapId {
          rows := rows[i := rows[i].(lockedUp := true)];
        }
      }
    }

    method Remove(api: string, swapId: string)
      requires UniqueKeys(rows)
      modifies this
      ensures rows == DeleteSwap(old(rows), api, swapId) && UniqueKeys(rows)
      ensures forall r :: r in rows <==> r in old(rows) && !SameKey(r, api, swapId)
      ensures !Exists(rows, api, swapId)
    {
      DeletesAreSubtables(rows, api, swapId, 0);
      SubtableKeeps(DeleteSwap(rows, api, swapId), rows);
      DeletedIsGone(rows, api, swapId);
      var kept := [];
      var i := |rows|;
      while i > 0
        invariant 0 <= i <= |rows| == |old(rows)| && rows == old(rows)
        invariant kept == DeleteSwap(rows[i..], api, swapId)
      {
        i := i - 1;
        assert rows[i..][1..] == rows[i + 1..];
        if !(rows[i].api == api && rows[i].swapId == swapId) {
          kept := [rows[i]] + kept;
        }
      }
      assert rows[0..] == rows;
      hide DeleteSwap, UniqueKeys;
      RemainingRows(rows, api, swapId, 0);
      rows := kept;
    }
  }

  lemma LookupFirst(rows: seq<Row>, api: string, swapId: string, i: nat)
    requires i <= |rows| && forall k :: 0 <= k < i ==> !SameKey(rows[k], api, swapId)
    ensures Lookup(rows, api, swapId) == Lookup(rows[i..], api, swapId)
  {
    if i > 0 {
      LookupFirst(rows[1..], api, swapId, i - 1);
      assert rows[1..][i - 1..] == rows[i..];
    } else {
      assert rows[0..] == rows;
    }
  }

  lemma {:induction false} DeletedIsGone(rows: seq<Row>, api: string, swapId: string)
    ensures !Exists(DeleteSwap(rows, api, swapId), api, swapId)
  {
    if rows != [] {
      DeletedIsGone(rows[1..], api, swapId);
    }
  }

  // --------------------------------------------------------------- the handlers

  /** `SwapSetupHandler::core_run` up to the database transaction. */
  method CheckAnswer(c: Crypto, s: Setup, a: Created) returns (r: Option<Row>)
    ensures r == Validate(c, s, a)
  {
    if a.Malformed? || a.ApiError? || a.redeemScript.None? {
      return None;
    }
    var script := a.redeemScript.value;
    var matched := MatchLockscript(script, c.validKey);
    hide Matches, Fields;
    var ok := matched.Some?
           && matched.value.hash == c.hash160(c.realPreimage(s.preimage))
           && matched.value.keyHash == c.pubkey(s.tweak)
           && matched.value.locktime == a.timeout;
    if !ok {
      return None;
    }
    if s.offchain != 0 && FromSat(a.onchainSat) as real / s.offchain as real < 0.90 {
      return None;
    }
    if Wrap32(s.height + MIN_TIMEOUT) > a.timeout || Wrap32(s.height + MAX_TIMEOUT) < a.timeout {
      return None;
    }
    var onchain := FromSat(a.onchainSat);
    r := Some(Row(s.api, s.tweak, s.preimage, s.destination, a.id, script, a.timeout, ToSat(onchain), false, s, a));
  }
}
