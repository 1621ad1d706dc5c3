/** `initial_claim_tx`: the transaction that claims the on-chain output of a reverse
    submarine swap, its fee and its weight estimate. */
module ClaimTx {
  import opened Wrappers
  import opened Amounts
  import opened BitcoinWire
  import opened Bech32

  /** 547 satoshi. */
  const DUST_LIMIT: Amount := 547_000

  const SIGHASH_ALL: byte := 0x01

  /** What the caller supplies besides the signer. */
  datatype Request = Request(
    feerate: nat, blockheight: nat,
    lockupTxid: Bytes, lockupOut: nat, lockupAmount: Amount,
    tweak: nat, preimage: Bytes, witnessScript: Bytes, outputAddr: string)

  /** The signature hash and the signer: key tweak, transaction, amount of the spent
      output and script code to signature. */
  type Signer = (nat, Tx, Amount, Bytes) -> Bytes

  /** The witness script behind its size in one byte. */
  function ScriptCode(script: Bytes): Bytes {
    [|script| % 256] + script
  }

  datatype Claim = Claim(tx: Tx, fees: Amount)

  /** The field widths of the original that sizes and fees depend on. */
  predicate FitsRequest(r: Request) {
    r.feerate < TWO32 && |r.lockupTxid| == 32 && |r.preimage| == 32
  }

  /** Three empty witness items reserve the stack while the size is measured. */
  function Draft(r: Request, scriptPubKey: Bytes): Tx {
    Tx(2, [TxIn(r.lockupTxid, r.lockupOut, [], 0xFFFF_FFFF, [[], [], []])],
       [TxOut(0, scriptPubKey)], (r.blockheight + 1) % TWO32)
  }

  /** The weight estimate: serialized size times four, the witness items, and some
      extra. */
  function EstimatedWeight(r: Request, scriptPubKey: Bytes): nat {
    |SerTx(Draft(r, scriptPubKey))| * 4
    + (1 + 73 + 1 + 32 + 1 + |r.witnessScript| + 2) + 12
  }

  function Fee(weight: nat, feerate: nat): Amount {
    FromSat(Wrap64(weight * feerate) / 1000)
  }

  /** OP_RETURN with a push of 20 zero bytes. */
  const OP_RETURN_SCRIPT: Bytes := [0x6a, 0x14, 0, 0, 0, 0, 0, 0, 0, 0, 0, 0, 0, 0, 0, 0, 0, 0, 0, 0, 0, 0]

  /** Pay the fee from the lockup, or give all of it to the miners when what is left
      would be dust. */
  function Output(fee: Amount, lockup: Amount, scriptPubKey: Bytes): (TxOut, Amount) {
    if SatAdd(fee, DUST_LIMIT) > lockup then (TxOut(0, OP_RETURN_SCRIPT), lockup)
    else (TxOut(SatSub(lockup, fee), scriptPubKey), fee)
  }

  function InitialClaim(r: Request, sign: Signer): Option<Claim> {
    match AddrToScript(r.outputAddr)
    case None => None
    case Some(scriptPubKey) =>
      var fee := Fee(EstimatedWeight(r, scriptPubKey), r.feerate);
      var (out, fees) := Output(fee, r.lockupAmount, scriptPubKey);
      var unsigned := Draft(r, scriptPubKey).(outputs := [out]);
      Some(Claim(Signed(unsigned, r, Signature(sign, r, unsigned)), fees))
  }

  function Signature(sign: Signer, r: Request, t: Tx): Bytes {
    sign(r.tweak, t, r.lockupAmount, ScriptCode(r.witnessScript))
  }

  function Signed(t: Tx, r: Request, signature: Bytes): Tx
    requires |t.inputs| == 1
  {
    t.(inputs := [t.inputs[0].(stack := [signature + [SIGHASH_ALL], r.preimage, r.witnessScript])])
  }

  // ------------------------------------------------------------ conservation

  predicate Pays(out: TxOut) {
    out.amount >= DUST_LIMIT || (out.amount == 0 && out.scriptPubKey == OP_RETURN_SCRIPT)
  }

  /** The output and the recorded fee add up to the lockup, whatever the fee. */
  lemma OutputConserves(fee: Amount, lockup: Amount, scriptPubKey: Bytes)
    ensures var (out, fees) := Output(fee, lockup, scriptPubKey); out.amount + fees == lockup
  {
    SatAddIsCappedSum(fee, DUST_LIMIT);
  }

  /** The output is worth relaying or an explicit burn, unless the saturated sum of
      fee and dust limit meets a lockup of the largest representable amount. */
  lemma OutputPaysIff(fee: Amount, lockup: Amount, scriptPubKey: Bytes)
    requires scriptPubKey != OP_RETURN_SCRIPT
    ensures Pays(Output(fee, lockup, scriptPubKey).0) <==> !(lockup == MAX_AMOUNT && fee + DUST_LIMIT > MAX_AMOUNT)
  {
    SatAddIsCappedSum(fee, DUST_LIMIT);
  }

  /** The swap's lockup is a number of satoshi, which never is that amount. */
  lemma SatoshiIsNeverMax(sat: Amount)
    ensures FromSat(sat) != MAX_AMOUNT
  {
    assert FromSat(sat) == sat * 1000 - TWO64 * (sat * 1000 / TWO64);
  }

  /** An address never stands for the burning script. */
  lemma AddressIsNotBurn(addr: string)
    ensures AddrToScript(addr).Some? ==> AddrToScript(addr).value != OP_RETURN_SCRIPT
  {
    hide Decode, ToBytes;
    assert AddrToScript(addr).Some? ==> AddrToScript(addr).value[0] != 0x6a;
  }

  lemma ClaimConserves(r: Request, sign: Signer)
    requires InitialClaim(r, sign).Some?
    ensures var c := InitialClaim(r, sign).value;
            && |c.tx.outputs| == 1 && c.tx.outputs[0].amount + c.fees == r.lockupAmount
            && (r.lockupAmount != MAX_AMOUNT ==> Pays(c.tx.outputs[0]))
  {
    var scriptPubKey := AddrToScript(r.outputAddr).value;
    var fee := Fee(EstimatedWeight(r, scriptPubKey), r.feerate);
    OutputConserves(fee, r.lockupAmount, scriptPubKey);
    AddressIsNotBurn(r.outputAddr);
    OutputPaysIff(fee, r.lockupAmount, scriptPubKey);
  }

  // ----------------------------------------------------------- the signature

  /** Whoever checks a signature against the key, a transaction without witnesses, the
      spent amount and the script code. */
  type Verifier = (nat, Tx, Amount, Bytes, Bytes) -> bool

  ghost predicate SignerWorks(sign: Signer, verifies: Verifier) {
    forall w, t, a, s :: verifies(w, StripTx(t), a, s, sign(w, t, a, s))
  }

  /** The first witness item is a valid signature of the very transaction it is in,
      with its final output, for the lockup's amount and script, and its flag. */
  lemma ClaimIsSigned(r: Request, sign: Signer, verifies: Verifier)
    requires InitialClaim(r, sign).Some? && SignerWorks(sign, verifies)
    ensures var tx := InitialClaim(r, sign).value.tx;
            && |tx.inputs| == 1 && |tx.inputs[0].stack| == 3 && |tx.inputs[0].stack[0]| > 0
            && var item := tx.inputs[0].stack[0]; var n := |item| - 1;
               && item[n] == SIGHASH_ALL
               && verifies(r.tweak, StripTx(tx), r.lockupAmount, ScriptCode(r.witnessScript), item[..n])
  {
    hide AddrToScript, EstimatedWeight, Fee, Output, ScriptCode, SerTx;
    var scriptPubKey := AddrToScript(r.outputAddr).value;
    var fee := Fee(EstimatedWeight(r, scriptPubKey), r.feerate);
    var unsigned := Draft(r, scriptPubKey).(outputs := [Output(fee, r.lockupAmount, scriptPubKey).0]);
    var signature := Signature(sign, r, unsigned);
    var tx := Signed(unsigned, r, signature);
    assert InitialClaim(r, sign).value.tx == tx;
    assert StripTx(tx) == StripTx(unsigned) by {
      assert Strip(tx.inputs) == Strip(unsigned.inputs);
    }
    assert (signature + [SIGHASH_ALL])[..|signature|] == signature;
  }

  /** One byte of size in front is the script's wire form, which signatures commit to
      (section "Specification" of BIP-143), exactly for scripts below 253 bytes. */
  lemma ScriptCodeIff(script: Bytes)
    ensures ScriptCode(script) == Blob(script) <==> |script| < 0xFD
  {
    if |script| >= 0xFD {
      assert |ScriptCode(script)| == |script| + 1 < |Blob(script)|;
    }
  }

  /** What is paid goes to the requested address; the transaction is final and not
      replaceable, and valid from the next block. */
  lemma ClaimPaysAddress(r: Request, sign: Signer)
    requires InitialClaim(r, sign).Some?
    ensures var tx := InitialClaim(r, sign).value.tx;
            && |tx.outputs| == 1 && |tx.inputs| == 1
            && (tx.outputs[0].amount > 0 ==> AddrToScript(r.outputAddr) == Some(tx.outputs[0].scriptPubKey))
            && tx.nVersion == 2 && tx.inputs[0].nSequence == 0xFFFF_FFFF
            && tx.inputs[0].scriptSig == [] && tx.nLockTime == (r.blockheight + 1) % TWO32
  {
    hide AddrToScript, EstimatedWeight, Fee;
  }

  // ------------------------------------------------------------------ weight

  /** The weight of section "Transaction size calculations" of BIP-141. */
  function Weight(t: Tx): nat {
    3 * |SerTx(StripTx(t))| + |SerTx(t)|
  }

  /** The size of a one-input, one-output transaction without signature script. */
  lemma SmallTxSizes(t: Tx)
    requires |t.inputs| == 1 && |t.outputs| == 1
    requires |t.inputs[0].prevTxid| == 32 && t.inputs[0].scriptSig == [] && t.inputs[0].stack != []
    ensures var base := 59 + |Blob(t.outputs[0].scriptPubKey)|;
            && |SerTx(StripTx(t))| == base
            && |SerTx(t)| == base + 2 + |SerStack(t.inputs[0].stack)|
  {
    hide Blob, SerStack, Le;
    InSize(t.inputs);
    InSize(StripTx(t).inputs);
    assert SerOuts(t.outputs) == SerOut(t.outputs[0]) + SerOuts(t.outputs[1..]);
    assert SerWits(t.inputs) == SerStack(t.inputs[0].stack) + SerWits(t.inputs[1..]);
    assert Segwit(t.inputs) && !Segwit(StripTx(t).inputs);
  }

  lemma InSize(ins: seq<TxIn>)
    requires |ins| == 1 && |ins[0].prevTxid| == 32 && ins[0].scriptSig == []
    ensures |SerIns(ins)| == 41
  {
    assert SerIns(ins) == SerIn(ins[0]) + SerIns(ins[1..]);
  }

  lemma StackSize(a: Bytes, b: Bytes, c: Bytes)
    ensures |SerStack([a, b, c])| == 1 + |Blob(a)| + |Blob(b)| + |Blob(c)|
  {
    hide Blob;
    assert [a, b, c][1..] == [b, c] && [b, c][1..] == [c] && [c][1..] == [];
    assert SerItems([c]) == Blob(c) + SerItems([]);
    assert SerItems([b, c]) == Blob(b) + SerItems([c]);
    assert SerItems([a, b, c]) == Blob(a) + SerItems([b, c]);
  }

  lemma BlobSize(b: Bytes)
    ensures |b| + 1 <= |Blob(b)| <= |b| + 9
    ensures |b| < 0xFD ==> |Blob(b)| == |b| + 1
  {
  }

  lemma EstimateIs(r: Request, scriptPubKey: Bytes)
    requires FitsRequest(r)
    ensures EstimatedWeight(r, scriptPubKey) == 382 + 4 * |Blob(scriptPubKey)| + |r.witnessScript|
  {
    SmallTxSizes(Draft(r, scriptPubKey));
    StackSize([], [], []);
    BlobSize([]);
    hide SerTx, Blob, SerStack;
  }

  /** The estimate covers the finished transaction, whatever the script, and exceeds it
      by at most 107. */
  lemma EstimateCovers(r: Request, out: TxOut, signature: Bytes)
    requires FitsRequest(r) && |signature| + 1 <= 73
    ensures var w := Weight(Signed(Draft(r, out.scriptPubKey).(outputs := [out]), r, signature));
            w <= EstimatedWeight(r, out.scriptPubKey) <= w + 107
  {
    EstimateIs(r, out.scriptPubKey);
    SmallTxSizes(Signed(Draft(r, out.scriptPubKey).(outputs := [out]), r, signature));
    StackSize(signature + [SIGHASH_ALL], r.preimage, r.witnessScript);
    BlobSize(signature + [SIGHASH_ALL]);
    BlobSize(r.preimage);
    BlobSize(r.witnessScript);
    hide SerTx, Blob, SerStack, EstimatedWeight;
  }

  lemma FeeExact(weight: nat, feerate: nat)
    ensures Fee(weight, feerate) == Wrap64(weight * feerate) / 1000 * 1000
  {
    FromSatExact(Wrap64(weight * feerate) / 1000);
  }

  /** A fee computed from a weight at most 107 too large covers the real weight exactly
      when the product does not wrap. */
  lemma FeeCoversIff(w: nat, estimate: nat, feerate: nat)
    requires w <= estimate <= w + 107 && feerate < TWO32
    ensures Fee(estimate, feerate) >= w * feerate / 1000 * 1000 <==> estimate * feerate < TWO64
  {
    FeeExact(estimate, feerate);
    Scaled(estimate - w, 107, feerate);
    Distribute(w, estimate - w, feerate);
    hide Fee;
    WrapIsTooSmall(w * feerate, estimate * feerate);
  }

  lemma WrapIsTooSmall(x: nat, y: nat)
    requires x <= y <= x + 107 * TWO32
    ensures Wrap64(y) / 1000 * 1000 >= x / 1000 * 1000 <==> y < TWO64
  {
    if y < TWO64 {
      assert Wrap64(y) == y;
    } else {
      assert Wrap64(y) <= y - TWO64;
    }
  }

  lemma Scaled(w: nat, w': nat, feerate: nat)
    requires w <= w'
    ensures w * feerate <= w' * feerate
  {
  }

  lemma Distribute(a: nat, b: nat, feerate: nat)
    ensures (a + b) * feerate == a * feerate + b * feerate
  {
  }

  ghost predicate ShortSignatures(sign: Signer) {
    forall w, t, a, s :: |sign(w, t, a, s)| + 1 <= 73
  }

  /** When the claim pays an output, its fee is at least the requested feerate for the
      real weight of the finished transaction, rounded down to a satoshi, exactly when
      the estimated weight times the feerate fits 64 bits. */
  lemma FeeCoversWeight(r: Request, sign: Signer)
    requires FitsRequest(r) && InitialClaim(r, sign).Some?
    requires ShortSignatures(sign)
    ensures var c := InitialClaim(r, sign).value;
            c.tx.outputs[0].amount > 0 ==>
              (c.fees >= Weight(c.tx) * r.feerate / 1000 * 1000 <==>
               EstimatedWeight(r, AddrToScript(r.outputAddr).value) * r.feerate < TWO64)
  {
    hide Weight, EstimatedWeight, Fee, AddrToScript, Signed;
    var scriptPubKey := AddrToScript(r.outputAddr).value;
    var estimate := EstimatedWeight(r, scriptPubKey);
    var (out, fees) := Output(Fee(estimate, r.feerate), r.lockupAmount, scriptPubKey);
    var unsigned := Draft(r, scriptPubKey).(outputs := [out]);
    var tx := Signed(unsigned, r, Signature(sign, r, unsigned));
    assert InitialClaim(r, sign) == Some(Claim(tx, fees));
    SignedOutputs(unsigned, r, Signature(sign, r, unsigned));
    if out.amount > 0 {
      EstimateCovers(r, out, Signature(sign, r, unsigned));
      FeeCoversIff(Weight(tx), estimate, r.feerate);
    }
  }

  /** It fits for every script shorter than four gigabytes, less 554 bytes. */
  lemma ProductFits(r: Request)
    requires FitsRequest(r) && AddrToScript(r.outputAddr).Some? && |r.witnessScript| + 554 <= TWO32
    ensures EstimatedWeight(r, AddrToScript(r.outputAddr).value) * r.feerate < TWO64
  {
    var scriptPubKey := AddrToScript(r.outputAddr).value;
    ScriptIsShort(r.outputAddr);
    BlobSize(scriptPubKey);
    EstimateIs(r, scriptPubKey);
    hide *;
    Scaled(EstimatedWeight(r, scriptPubKey), TWO32, r.feerate);
  }

  lemma ScriptIsShort(addr: string)
    requires AddrToScript(addr).Some?
    ensures |AddrToScript(addr).value| <= 42
  {
    hide Decode;
  }

  // ------------------------------------------------- requests at the limits

  function Filler(n: nat): (b: Bytes)
    ensures |b| == n
  {
    seq(n, i => 0)
  }

  /** A request to the address of the all-zero program of 20 bytes. */
  function LargeRequest(scriptSize: nat, lockup: Amount): Request {
    Request(0xFFFF_FFFF, 0, Filler(32), 0, lockup, 0, Filler(32), Filler(scriptSize),
            Address("bc", 0, Filler(20), "qqqqqq"))
  }

  lemma LargeEstimate(scriptSize: nat, lockup: Amount)
    ensures var r := LargeRequest(scriptSize, lockup);
            && FitsRequest(r) && r.feerate == 0xFFFF_FFFF && r.lockupAmount == lockup
            && AddrToScript(r.outputAddr) == Some(Script(0, Filler(20)))
            && EstimatedWeight(r, Script(0, Filler(20))) == 474 + scriptSize
  {
    var r := LargeRequest(scriptSize, lockup);
    assert FitsRequest(r);
    AddressRoundTrip("bc", 0, Filler(20), "qqqqqq");
    hide AddrToScript, Address, EstimatedWeight;
    EstimateIs(r, Script(0, Filler(20)));
    BlobSize(Script(0, Filler(20)));
  }

  lemma LargeFees()
    ensures (474 + TWO32) * 0xFFFF_FFFF >= TWO64 && Fee(474 + TWO32, 0xFFFF_FFFF) < 1_000_000_000_000_000
    ensures Fee(0x1_0000_0001, 0xFFFF_FFFF) == MAX_AMOUNT - 615
  {
    FeeExact(474 + TWO32, 0xFFFF_FFFF);
    FeeExact(0x1_0000_0001, 0xFFFF_FFFF);
    hide Fee;
    Excess(473 * TWO32 - 474);
  }

  lemma Excess(v: Amount)
    ensures Wrap64(TWO64 + v) == v
  {
  }

  lemma ClaimOutput(r: Request, sign: Signer)
    requires AddrToScript(r.outputAddr).Some?
    ensures var script := AddrToScript(r.outputAddr).value; var c := InitialClaim(r, sign);
            var fee := Fee(EstimatedWeight(r, script), r.feerate);
            c.Some? && c.value.tx.outputs == [Output(fee, r.lockupAmount, script).0]
  {
    hide AddrToScript, EstimatedWeight, Fee, Output;
  }

  /** A script of four gigabytes makes the product wrap, and the claim pays an output
      with too small a fee. */
  lemma WrappedFeeExample(sign: Signer)
    requires ShortSignatures(sign)
    ensures var r := LargeRequest(TWO32, 1_000_000_000_000_000_000); var c := InitialClaim(r, sign);
            && FitsRequest(r) && c.Some? && |c.value.tx.outputs| == 1 && c.value.tx.outputs[0].amount > 0
            && c.value.fees < Weight(c.value.tx) * r.feerate / 1000 * 1000
  {
    hide LargeRequest, InitialClaim, Weight, EstimatedWeight, Fee, AddrToScript, Script, Output;
    var r := LargeRequest(TWO32, 1_000_000_000_000_000_000);
    LargeEstimate(TWO32, 1_000_000_000_000_000_000);
    LargeFees();
    ClaimOutput(r, sign);
    PayingOutput(Fee(474 + TWO32, 0xFFFF_FFFF), 1_000_000_000_000_000_000, Script(0, Filler(20)));
    FeeCoversWeight(r, sign);
  }

  lemma PayingOutput(fee: Amount, lockup: Amount, scriptPubKey: Bytes)
    requires fee + DUST_LIMIT <= lockup
    ensures Output(fee, lockup, scriptPubKey).0.amount == lockup - fee > 0
  {
    SatAddIsCappedSum(fee, DUST_LIMIT);
  }

  /** A lockup of the largest amount, and a weight whose fee leaves 615 millisatoshi:
      the claim pays dust. */
  lemma DustOutputExample(sign: Signer)
    ensures var r := LargeRequest(0x1_0000_0001 - 474, MAX_AMOUNT); var c := InitialClaim(r, sign);
            c.Some? && |c.value.tx.outputs| == 1
            && c.value.tx.outputs[0].amount == 615 && !Pays(c.value.tx.outputs[0])
  {
    hide LargeRequest, InitialClaim, Weight, EstimatedWeight, Fee, AddrToScript, Script, Output;
    var r := LargeRequest(0x1_0000_0001 - 474, MAX_AMOUNT);
    LargeEstimate(0x1_0000_0001 - 474, MAX_AMOUNT);
    LargeFees();
    ClaimOutput(r, sign);
    DustOutput(Script(0, Filler(20)));
  }

  lemma DustOutput(scriptPubKey: Bytes)
    ensures var out := Output(MAX_AMOUNT - 615, MAX_AMOUNT, scriptPubKey).0; out.amount == 615 && !Pays(out)
  {
    SatAddIsCappedSum(MAX_AMOUNT - 615, DUST_LIMIT);
  }

  lemma SignedOutputs(t: Tx, r: Request, signature: Bytes)
    requires |t.inputs| == 1
    ensures Signed(t, r, signature).outputs == t.outputs
  {
  }

  // --------------------------------------------------------------- the procedure

  /** `initial_claim_tx`, writing the transaction field by field. */
  method MakeClaim(r: Request, sign: Signer) returns (claim: Option<Claim>)
    ensures claim == InitialClaim(r, sign)
  {
    hide SerTx, AddrToScript;
    var input := TxIn(r.lockupTxid, r.lockupOut, [], 0xFFFF_FFFF, [[], [], []]);
    var script := AddrToScriptPubKey(r.outputAddr);
    if script.None? {
      return None;
    }
    var output := TxOut(0, script.value);
    var tx := Tx(2, [input], [output], (r.blockheight + 1) % TWO32);

    var nonwitness := |SerTx(tx)| * 4;
    var witnessWeight := 1 + 73 + 1 + 32 + 1 + |r.witnessScript| + 2;
    var weight := nonwitness + witnessWeight + 12;
    var fees := FromSat(Wrap64(weight * r.feerate) / 1000);
    if SatAdd(fees, DUST_LIMIT) > r.lockupAmount {
      fees := r.lockupAmount;
      output := TxOut(0, OP_RETURN_SCRIPT);
    } else {
      output := output.(amount := SatSub(r.lockupAmount, fees));
    }
    tx := tx.(outputs := [output]);

    var scriptCode := [|r.witnessScript| % 256] + r.witnessScript;
    var signature := sign(r.tweak, tx, r.lockupAmount, scriptCode);
    input := input.(stack := [signature + [SIGHASH_ALL], r.preimage, r.witnessScript]);
    tx := tx.(inputs := [input]);
    claim := Some(Claim(tx, fees));
  }
}
