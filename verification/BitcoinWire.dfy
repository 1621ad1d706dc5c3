/** The Bitcoin transaction format: little-endian integers, CompactSize, inputs,
    outputs, witness stacks and whole transactions, with the marker of section
    "Serialization" of BIP-144. */
module BitcoinWire {
  import opened Amounts

  type byte = b: nat | b < 256
  type Bytes = seq<byte>

  const TWO32: nat := 0x1_0000_0000

  /** What reading from a stream leaves: a value and the unread rest, or a stream
      that is no longer good. */
  datatype Parsed<+T> = Ok(value: T, rest: Bytes) | Bad {
    predicate IsFailure() { Bad? }
    function PropagateFailure<U>(): Parsed<U> requires Bad? { Bad }
    function Extract(): (T, Bytes) requires Ok? { (value, rest) }
  }

  /** Identifiers are kept in display order, the reverse of wire order. */
  datatype TxIn = TxIn(prevTxid: Bytes, prevOut: nat, scriptSig: Bytes, nSequence: nat, stack: seq<Bytes>)
  datatype TxOut = TxOut(amount: Amount, scriptPubKey: Bytes)
  datatype Tx = Tx(nVersion: nat, inputs: seq<TxIn>, outputs: seq<TxOut>, nLockTime: nat)

  /** The field widths of the original. */
  predicate Fits(i: TxIn) {
    && |i.prevTxid| == 32 && i.prevOut < TWO32 && i.nSequence < TWO32
    && |i.scriptSig| < TWO64 && |i.stack| < TWO64
    && forall k :: 0 <= k < |i.stack| ==> |i.stack[k]| < TWO64
  }

  predicate FitsTx(t: Tx) {
    && t.nVersion < TWO32 && t.nLockTime < TWO32 && |t.inputs| < TWO64 && |t.outputs| < TWO64
    && (forall k :: 0 <= k < |t.inputs| ==> Fits(t.inputs[k]))
    && (forall k :: 0 <= k < |t.outputs| ==> |t.outputs[k].scriptPubKey| < TWO64)
  }

  // ------------------------------------------------------------------ integers

  function Pow256(k: nat): nat {
    if k == 0 then 1 else 256 * Pow256(k - 1)
  }

  function Le(v: nat, k: nat): (s: Bytes)
    ensures |s| == k
  {
    if k == 0 then [] else [v % 256] + Le(v / 256, k - 1)
  }

  function UnLe(s: Bytes): (v: nat)
    ensures v < Pow256(|s|)
  {
    if s == [] then 0 else s[0] + 256 * UnLe(s[1..])
  }

  lemma {:induction false} UnLeLe(v: nat, k: nat)
    requires v < Pow256(k)
    ensures UnLe(Le(v, k)) == v
  {
    if k > 0 {
      assert Le(v, k)[1..] == Le(v / 256, k - 1);
      UnLeLe(v / 256, k - 1);
    }
  }

  function ReadBytes(s: Bytes, n: nat): Parsed<Bytes> {
    if n <= |s| then Ok(s[..n], s[n..]) else Bad
  }

  function ReadLe(s: Bytes, k: nat): Parsed<nat> {
    var (b, rest) :- ReadBytes(s, k);
    Ok(UnLe(b), rest)
  }

  lemma Widths()
    ensures Pow256(2) == 0x1_0000 && Pow256(4) == TWO32 && Pow256(8) == TWO64
  {
    assert Pow256(4) == 256 * 256 * Pow256(2);
    assert Pow256(6) == 256 * 256 * Pow256(4);
    assert Pow256(8) == 256 * 256 * Pow256(6);
  }

  lemma ReadLeLe(v: nat, k: nat, rest: Bytes)
    requires v < Pow256(k)
    ensures ReadLe(Le(v, k) + rest, k) == Ok(v, rest)
  {
    UnLeLe(v, k);
    assert (Le(v, k) + rest)[..k] == Le(v, k);
    assert (Le(v, k) + rest)[k..] == rest;
  }

  // --------------------------------------------------------------- CompactSize

  function VarInt(v: nat): Bytes {
    if v < 0xFD then [v]
    else if v <= 0xFFFF then [0xFD] + Le(v, 2)
    else if v <= 0xFFFF_FFFF then [0xFE] + Le(v, 4)
    else [0xFF] + Le(v, 8)
  }

  function ReadVarInt(s: Bytes): Parsed<nat> {
    var (t, rest) :- ReadBytes(s, 1);
    if t[0] < 0xFD then Ok(t[0], rest)
    else if t[0] == 0xFD then ReadLe(rest, 2)
    else if t[0] == 0xFE then ReadLe(rest, 4)
    else ReadLe(rest, 8)
  }

  lemma ReadVarIntVarInt(v: nat, rest: Bytes)
    requires v < TWO64
    ensures ReadVarInt(VarInt(v) + rest) == Ok(v, rest)
  {
    Widths();
    var s := VarInt(v) + rest;
    if v < 0xFD {
      assert s[1..] == rest;
    } else {
      var k := |VarInt(v)| - 1;
      assert s[1..] == Le(v, k) + rest;
      ReadLeLe(v, k, rest);
    }
  }

  /** Reading may accept a longer form, never a shorter one. */
  lemma ReadVarIntLength(s: Bytes)
    requires ReadVarInt(s).Ok?
    ensures ReadVarInt(s).value < TWO64
    ensures |s| >= |VarInt(ReadVarInt(s).value)| + |ReadVarInt(s).rest|
  {
    Widths();
  }

  /** A vector of bytes with its length in front. */
  function Blob(b: Bytes): Bytes {
    VarInt(|b|) + b
  }

  function ReadBlob(s: Bytes): Parsed<Bytes> {
    var (n, rest) :- ReadVarInt(s);
    ReadBytes(rest, n)
  }

  lemma ReadBlobBlob(b: Bytes, rest: Bytes)
    requires |b| < TWO64
    ensures ReadBlob(Blob(b) + rest) == Ok(b, rest)
  {
    assert Blob(b) + rest == VarInt(|b|) + (b + rest);
    ReadVarIntVarInt(|b|, b + rest);
    assert (b + rest)[..|b|] == b && (b + rest)[|b|..] == rest;
  }

  function Reverse(s: Bytes): (r: Bytes)
    ensures |r| == |s|
  {
    seq(|s|, i requires 0 <= i < |s| => s[|s| - 1 - i])
  }

  lemma ReverseReverse(s: Bytes)
    ensures Reverse(Reverse(s)) == s
  {
  }

  // ------------------------------------------------------- inputs and outputs

  function SerIn(i: TxIn): Bytes {
    Reverse(i.prevTxid) + Le(i.prevOut, 4) + Blob(i.scriptSig) + Le(i.nSequence, 4)
  }

  function ReadIn(s: Bytes): Parsed<TxIn> {
    var (id, s1) :- ReadBytes(s, 32);
    var (out, s2) :- ReadLe(s1, 4);
    var (script, s3) :- ReadBlob(s2);
    var (sequence, s4) :- ReadLe(s3, 4);
    Ok(TxIn(Reverse(id), out, script, sequence, []), s4)
  }

  lemma ReadInSerIn(i: TxIn, rest: Bytes)
    requires Fits(i)
    ensures ReadIn(SerIn(i) + rest) == Ok(i.(stack := []), rest)
  {
    Widths();
    var id := Reverse(i.prevTxid);
    var s3 := Le(i.nSequence, 4) + rest;
    var s2 := Blob(i.scriptSig) + s3;
    var s1 := Le(i.prevOut, 4) + s2;
    assert SerIn(i) + rest == id + s1;
    assert (id + s1)[..32] == id && (id + s1)[32..] == s1;
    ReadLeLe(i.prevOut, 4, s2);
    ReadBlobBlob(i.scriptSig, s3);
    ReadLeLe(i.nSequence, 4, rest);
    ReverseReverse(i.prevTxid);
  }

  function SerOut(o: TxOut): Bytes {
    Le(ToSat(o.amount), 8) + Blob(o.scriptPubKey)
  }

  function ReadOut(s: Bytes): Parsed<TxOut> {
    Widths();
    var (sats, s1) :- ReadLe(s, 8);
    var (script, s2) :- ReadBlob(s1);
    Ok(TxOut(FromSat(sats), script), s2)
  }

  /** What is left of an amount after a trip through whole satoshi. */
  function Rounded(o: TxOut): TxOut {
    o.(amount := FromSat(ToSat(o.amount)))
  }

  lemma ReadOutSerOut(o: TxOut, rest: Bytes)
    requires |o.scriptPubKey| < TWO64
    ensures ReadOut(SerOut(o) + rest) == Ok(Rounded(o), rest)
  {
    Widths();
    assert SerOut(o) + rest == Le(ToSat(o.amount), 8) + (Blob(o.scriptPubKey) + rest);
    ReadLeLe(ToSat(o.amount), 8, Blob(o.scriptPubKey) + rest);
    ReadBlobBlob(o.scriptPubKey, rest);
  }

  // --------------------------------------------------------------- sequences

  function SerIns(ins: seq<TxIn>): Bytes {
    if ins == [] then [] else SerIn(ins[0]) + SerIns(ins[1..])
  }

  function ReadIns(s: Bytes, n: nat): Parsed<seq<TxIn>>
    decreases n
  {
    if n == 0 then Ok([], s)
    else
      var (i, s1) :- ReadIn(s);
      var (more, s2) :- ReadIns(s1, n - 1);
      Ok([i] + more, s2)
  }

  function SerOuts(outs: seq<TxOut>): Bytes {
    if outs == [] then [] else SerOut(outs[0]) + SerOuts(outs[1..])
  }

  function ReadOuts(s: Bytes, n: nat): Parsed<seq<TxOut>>
    decreases n
  {
    if n == 0 then Ok([], s)
    else
      var (o, s1) :- ReadOut(s);
      var (more, s2) :- ReadOuts(s1, n - 1);
      Ok([o] + more, s2)
  }

  function SerItems(items: seq<Bytes>): Bytes {
    if items == [] then [] else Blob(items[0]) + SerItems(items[1..])
  }

  function ReadItems(s: Bytes, n: nat): Parsed<seq<Bytes>>
    decreases n
  {
    if n == 0 then Ok([], s)
    else
      var (b, s1) :- ReadBlob(s);
      var (more, s2) :- ReadItems(s1, n - 1);
      Ok([b] + more, s2)
  }

  function SerStack(items: seq<Bytes>): Bytes {
    VarInt(|items|) + SerItems(items)
  }

  function ReadStack(s: Bytes): Parsed<seq<Bytes>> {
    var (n, rest) :- ReadVarInt(s);
    ReadItems(rest, n)
  }

  function SerWits(ins: seq<TxIn>): Bytes {
    if ins == [] then [] else SerStack(ins[0].stack) + SerWits(ins[1..])
  }

  /** Fill in the witnesses of inputs that were read without them. */
  function ReadWits(s: Bytes, ins: seq<TxIn>): Parsed<seq<TxIn>>
    decreases |ins|
  {
    if ins == [] then Ok([], s)
    else
      var (w, s1) :- ReadStack(s);
      var (more, s2) :- ReadWits(s1, ins[1..]);
      Ok([ins[0].(stack := w)] + more, s2)
  }

  function Strip(ins: seq<TxIn>): (r: seq<TxIn>)
    ensures |r| == |ins| && forall k :: 0 <= k < |ins| ==> r[k] == ins[k].(stack := [])
  {
    if ins == [] then [] else [ins[0].(stack := [])] + Strip(ins[1..])
  }

  function RoundedAll(outs: seq<TxOut>): (r: seq<TxOut>)
    ensures |r| == |outs| && forall k :: 0 <= k < |outs| ==> r[k] == Rounded(outs[k])
  {
    if outs == [] then [] else [Rounded(outs[0])] + RoundedAll(outs[1..])
  }

  lemma {:induction false} ReadInsSerIns(ins: seq<TxIn>, rest: Bytes)
    requires forall k :: 0 <= k < |ins| ==> Fits(ins[k])
    ensures ReadIns(SerIns(ins) + rest, |ins|) == Ok(Strip(ins), rest)
  {
    if ins != [] {
      hide SerIn, ReadIn;
      assert SerIns(ins) + rest == SerIn(ins[0]) + (SerIns(ins[1..]) + rest);
      ReadInSerIn(ins[0], SerIns(ins[1..]) + rest);
      ReadInsSerIns(ins[1..], rest);
    }
  }

  lemma {:induction false} ReadOutsSerOuts(outs: seq<TxOut>, rest: Bytes)
    requires forall k :: 0 <= k < |outs| ==> |outs[k].scriptPubKey| < TWO64
    ensures ReadOuts(SerOuts(outs) + rest, |outs|) == Ok(RoundedAll(outs), rest)
  {
    if outs != [] {
      hide SerOut, ReadOut;
      assert SerOuts(outs) + rest == SerOut(outs[0]) + (SerOuts(outs[1..]) + rest);
      ReadOutSerOut(outs[0], SerOuts(outs[1..]) + rest);
      ReadOutsSerOuts(outs[1..], rest);
    }
  }

  lemma {:induction false} ReadItemsSerItems(items: seq<Bytes>, rest: Bytes)
    requires forall k :: 0 <= k < |items| ==> |items[k]| < TWO64
    ensures ReadItems(SerItems(items) + rest, |items|) == Ok(items, rest)
  {
    if items != [] {
      hide Blob, ReadBlob, ReadItems, SerItems;
      var tail := SerItems(items[1..]) + rest;
      SerItemsStep(items, rest);
      ReadBlobBlob(items[0], tail);
      ReadItemsSerItems(items[1..], rest);
      ReadItemsStep(SerItems(items) + rest, |items|);
      assert items == [items[0]] + items[1..];
    }
  }

  lemma SerItemsStep(items: seq<Bytes>, rest: Bytes)
    requires items != []
    ensures SerItems(items) + rest == Blob(items[0]) + (SerItems(items[1..]) + rest)
  {
  }

  lemma ReadItemsStep(s: Bytes, n: nat)
    requires n > 0 && ReadBlob(s).Ok? && ReadItems(ReadBlob(s).rest, n - 1).Ok?
    ensures var more := ReadItems(ReadBlob(s).rest, n - 1);
            ReadItems(s, n) == Ok([ReadBlob(s).value] + more.value, more.rest)
  {
    hide ReadBlob;
  }

  lemma ReadStackSerStack(items: seq<Bytes>, rest: Bytes)
    requires |items| < TWO64 && forall k :: 0 <= k < |items| ==> |items[k]| < TWO64
    ensures ReadStack(SerStack(items) + rest) == Ok(items, rest)
  {
    assert SerStack(items) + rest == VarInt(|items|) + (SerItems(items) + rest);
    ReadVarIntVarInt(|items|, SerItems(items) + rest);
    ReadItemsSerItems(items, rest);
  }

  lemma {:induction false} ReadWitsSerWits(ins: seq<TxIn>, rest: Bytes)
    requires forall k :: 0 <= k < |ins| ==> Fits(ins[k])
    ensures ReadWits(SerWits(ins) + rest, Strip(ins)) == Ok(ins, rest)
  {
    if ins != [] {
      hide SerStack, ReadStack, ReadWits, SerWits, Strip;
      var tail := SerWits(ins[1..]) + rest;
      SerWitsStep(ins, rest);
      ReadStackSerStack(ins[0].stack, tail);
      ReadWitsSerWits(ins[1..], rest);
      ReadWitsStep(SerWits(ins) + rest, ins);
    }
  }

  lemma SerWitsStep(ins: seq<TxIn>, rest: Bytes)
    requires ins != []
    ensures SerWits(ins) + rest == SerStack(ins[0].stack) + (SerWits(ins[1..]) + rest)
  {
  }

  lemma ReadWitsStep(s: Bytes, ins: seq<TxIn>)
    requires ins != [] && ReadStack(s).Ok? && ReadStack(s).value == ins[0].stack
    requires ReadWits(ReadStack(s).rest, Strip(ins[1..])).Ok?
    requires ReadWits(ReadStack(s).rest, Strip(ins[1..])).value == ins[1..]
    ensures ReadWits(s, Strip(ins)) == Ok(ins, ReadWits(ReadStack(s).rest, Strip(ins[1..])).rest)
  {
    hide ReadStack;
    assert Strip(ins)[1..] == Strip(ins[1..]);
    assert ins == [Strip(ins)[0].(stack := ins[0].stack)] + ins[1..];
  }

  // ------------------------------------------------------------- transactions

  predicate Segwit(ins: seq<TxIn>) {
    exists k :: 0 <= k < |ins| && ins[k].stack != []
  }

  function SerBody(t: Tx): Bytes {
    VarInt(|t.inputs|) + SerIns(t.inputs) + VarInt(|t.outputs|) + SerOuts(t.outputs)
  }

  /** `operator<<`. */
  function SerTx(t: Tx): Bytes {
    Le(t.nVersion, 4)
    + (if Segwit(t.inputs) then [0x00, 0x01] + SerBody(t) + SerWits(t.inputs) else SerBody(t))
    + Le(t.nLockTime, 4)
  }

  /** The inputs and outputs after their count, and the lock time. */
  function ReadRest(version: nat, n: nat, segwit: bool, s: Bytes): Parsed<Tx> {
    var (ins, s1) :- ReadIns(s, n);
    var (m, s2) :- ReadVarInt(s1);
    var (outs, s3) :- ReadOuts(s2, m);
    var (filled, s4) :- (if segwit then ReadWits(s3, ins) else Ok(ins, s3));
    var (lock, s5) :- ReadLe(s4, 4);
    Ok(Tx(version, filled, outs, lock), s5)
  }

  /** `operator>>`: a zero count announces the segwit form. */
  function ReadTx(s: Bytes): Parsed<Tx> {
    var (version, s1) :- ReadLe(s, 4);
    var (n, s2) :- ReadVarInt(s1);
    if n == 0 then
      var (marker, s3) :- ReadBytes(s2, 1);
      if marker[0] != 0x01 then Bad
      else
        var (n', s4) :- ReadVarInt(s3);
        ReadRest(version, n', true, s4)
    else ReadRest(version, n, false, s2)
  }

  /** Everything after the input count, grouped the way it is read. */
  function Tail(t: Tx, segwit: bool, rest: Bytes): Bytes {
    SerIns(t.inputs) + (VarInt(|t.outputs|) + (SerOuts(t.outputs)
    + ((if segwit then SerWits(t.inputs) else []) + (Le(t.nLockTime, 4) + rest))))
  }

  lemma ReadRestTail(t: Tx, segwit: bool, rest: Bytes)
    requires FitsTx(t) && (segwit || !Segwit(t.inputs))
    ensures ReadRest(t.nVersion, |t.inputs|, segwit, Tail(t, segwit, rest))
         == Ok(t.(outputs := RoundedAll(t.outputs)), rest)
  {
    Widths();
    var s4 := Le(t.nLockTime, 4) + rest;
    var s3 := (if segwit then SerWits(t.inputs) else []) + s4;
    var s2 := SerOuts(t.outputs) + s3;
    ReadInsSerIns(t.inputs, VarInt(|t.outputs|) + s2);
    ReadVarIntVarInt(|t.outputs|, s2);
    ReadOutsSerOuts(t.outputs, s3);
    if segwit {
      ReadWitsSerWits(t.inputs, s4);
    } else {
      assert Strip(t.inputs) == t.inputs;
      assert s3 == s4;
    }
    ReadLeLe(t.nLockTime, 4, rest);
  }

  lemma SerTxGrouped(t: Tx, rest: Bytes)
    ensures var body := VarInt(|t.inputs|) + Tail(t, Segwit(t.inputs), rest);
            SerTx(t) + rest == Le(t.nVersion, 4) + if Segwit(t.inputs) then [0x00, 0x01] + body else body
  {
    hide Segwit, Le, VarInt, SerIns, SerOuts, SerWits;
    if !Segwit(t.inputs) {
      assert [] + (Le(t.nLockTime, 4) + rest) == Le(t.nLockTime, 4) + rest;
    }
  }

  /** Reading back any transaction with an input, in either form and before any
      following bytes, gives it back with its amounts rounded to whole satoshi. */
  lemma ReadTxSerTx(t: Tx, rest: Bytes)
    requires FitsTx(t) && t.inputs != []
    ensures ReadTx(SerTx(t) + rest) == Ok(t.(outputs := RoundedAll(t.outputs)), rest)
  {
    Widths();
    var segwit := Segwit(t.inputs);
    SerTxGrouped(t, rest);
    ReadVarIntVarInt(|t.inputs|, Tail(t, segwit, rest));
    ReadRestTail(t, segwit, rest);
    hide Segwit, Tail, ReadRest, SerTx;
    var body := VarInt(|t.inputs|) + Tail(t, segwit, rest);
    if segwit {
      var s1 := [0x00, 0x01] + body;
      ReadLeLe(t.nVersion, 4, s1);
      assert s1[1..][1..] == body && s1[1..][0] == 0x01;
    } else {
      ReadLeLe(t.nVersion, 4, body);
    }
  }

  // ------------------------------------------ exactly when the round trip holds

  lemma ReadBlobLength(s: Bytes)
    requires ReadBlob(s).Ok?
    ensures |s| >= |Blob(ReadBlob(s).value)| + |ReadBlob(s).rest|
  {
    ReadVarIntLength(s);
  }

  lemma {:induction false} ReadOutsLength(s: Bytes, n: nat)
    requires ReadOuts(s, n).Ok?
    ensures |ReadOuts(s, n).value| == n
    ensures |s| >= |SerOuts(ReadOuts(s, n).value)| + |ReadOuts(s, n).rest|
    decreases n
  {
    if n > 0 {
      hide Blob, ReadBlob;
      ReadBlobLength(ReadLe(s, 8).rest);
      ReadOutsLength(ReadOut(s).rest, n - 1);
      var outs := ReadOuts(s, n).value;
      assert outs[1..] == ReadOuts(ReadOut(s).rest, n - 1).value;
    }
  }

  lemma {:induction false} ReadInsCount(s: Bytes, n: nat)
    requires ReadIns(s, n).Ok?
    ensures |ReadIns(s, n).value| == n
    decreases n
  {
    hide ReadIn;
    if n > 0 {
      ReadInsStep(s, n);
      ReadInsCount(ReadIn(s).rest, n - 1);
    }
  }

  lemma ReadInsStep(s: Bytes, n: nat)
    requires n > 0 && ReadIns(s, n).Ok?
    ensures ReadIn(s).Ok? && ReadIns(ReadIn(s).rest, n - 1).Ok?
    ensures var more := ReadIns(ReadIn(s).rest, n - 1);
            ReadIns(s, n) == Ok([ReadIn(s).value] + more.value, more.rest)
  {
    hide ReadIn;
  }

  lemma {:induction false} ReadWitsLength(s: Bytes, ins: seq<TxIn>)
    requires ReadWits(s, ins).Ok?
    ensures |ReadWits(s, ins).value| == |ins|
    ensures ins == [] ==> ReadWits(s, ins).rest == s
    decreases |ins|
  {
    if ins != [] {
      ReadWitsLength(ReadStack(s).rest, ins[1..]);
    }
  }

  /** What was read without inputs took the marker and a second, zero count, so it
      is two bytes longer than what would be written. */
  lemma ReadNoInputsLength(version: nat, n: nat, s: Bytes)
    requires ReadRest(version, n, true, s).Ok? && ReadRest(version, n, true, s).value.inputs == []
    ensures var t := ReadRest(version, n, true, s).value;
            n == 0 && |s| >= |VarInt(|t.outputs|)| + |SerOuts(t.outputs)| + 4 + |ReadRest(version, n, true, s).rest|
  {
    hide SerOuts, VarInt, ReadVarInt, ReadOuts;
    ReadInsCount(s, n);
    var s1 := ReadIns(s, n).rest;
    ReadVarIntLength(s1);
    var s2 := ReadVarInt(s1).rest;
    ReadOutsLength(s2, ReadVarInt(s1).value);
    ReadWitsLength(ReadOuts(s2, ReadVarInt(s1).value).rest, ReadIns(s, n).value);
  }

  /** A transaction without inputs is never read back as itself. */
  lemma NoInputsNeverRoundTrip(t: Tx, rest: Bytes)
    requires FitsTx(t) && t.inputs == []
    ensures ReadTx(SerTx(t) + rest) != Ok(t, rest)
  {
    Widths();
    SerTxGrouped(t, rest);
    var body := VarInt(0) + Tail(t, false, rest);
    ReadLeLe(t.nVersion, 4, body);
    ReadVarIntVarInt(0, Tail(t, false, rest));
    var s2 := Tail(t, false, rest);
    assert |s2| == |VarInt(|t.outputs|)| + |SerOuts(t.outputs)| + 4 + |rest|;
    hide SerTx, Tail, ReadRest, SerOuts, ReadLe, VarInt;
    if ReadTx(SerTx(t) + rest) == Ok(t, rest) {
      var s3 := ReadBytes(s2, 1).rest;
      ReadVarIntLength(s3);
      ReadNoInputsLength(t.nVersion, ReadVarInt(s3).value, ReadVarInt(s3).rest);
      assert false;
    }
  }

  predicate WholeAmounts(t: Tx) {
    forall k :: 0 <= k < |t.outputs| ==> WholeSatoshi(t.outputs[k].amount)
  }

  ghost predicate RoundTrips(t: Tx) {
    forall rest :: ReadTx(SerTx(t) + rest) == Ok(t, rest)
  }

  /** Writing and reading back is the identity, whatever follows in the stream,
      exactly for transactions with an input and whole-satoshi amounts. */
  lemma RoundTripIff(t: Tx)
    requires FitsTx(t)
    ensures RoundTrips(t) <==> t.inputs != [] && WholeAmounts(t)
  {
    hide ReadTx, SerTx;
    if t.inputs == [] {
      NoInputsNeverRoundTrip(t, []);
    } else {
      forall rest ensures ReadTx(SerTx(t) + rest) == Ok(t.(outputs := RoundedAll(t.outputs)), rest) {
        ReadTxSerTx(t, rest);
      }
      forall k | 0 <= k < |t.outputs|
        ensures RoundedAll(t.outputs)[k] == t.outputs[k] <==> WholeSatoshi(t.outputs[k].amount)
      {
        SatRoundTrip(t.outputs[k].amount);
      }
      if WholeAmounts(t) {
        assert RoundedAll(t.outputs) == t.outputs;
      } else {
        var k :| 0 <= k < |t.outputs| && !WholeSatoshi(t.outputs[k].amount);
        assert RoundedAll(t.outputs)[k] != t.outputs[k];
        assert ReadTx(SerTx(t) + []) != Ok(t, []);
      }
    }
  }

  // ---------------------------------------------------- transaction identifiers

  function StripTx(t: Tx): Tx {
    t.(inputs := Strip(t.inputs))
  }

  /** What a pre-segwit reader does: the count is always the input count. */
  function ReadLegacy(s: Bytes): Parsed<Tx> {
    var (version, s1) :- ReadLe(s, 4);
    var (n, s2) :- ReadVarInt(s1);
    ReadRest(version, n, false, s2)
  }

  lemma StrippedFits(t: Tx)
    requires FitsTx(t)
    ensures FitsTx(StripTx(t)) && !Segwit(StripTx(t).inputs)
  {
  }

  lemma ReadLegacyStripped(t: Tx, rest: Bytes)
    requires FitsTx(t) && !Segwit(t.inputs)
    ensures ReadLegacy(SerTx(t) + rest) == Ok(t.(outputs := RoundedAll(t.outputs)), rest)
  {
    Widths();
    SerTxGrouped(t, rest);
    ReadVarIntVarInt(|t.inputs|, Tail(t, false, rest));
    ReadRestTail(t, false, rest);
    hide Segwit, Tail, ReadRest, SerTx;
    ReadLeLe(t.nVersion, 4, VarInt(|t.inputs|) + Tail(t, false, rest));
  }

  lemma SameRoundedOut(a: TxOut, b: TxOut)
    requires Rounded(a) == Rounded(b)
    ensures SerOut(a) == SerOut(b)
  {
    SatRoundTrip(a.amount);
    SatRoundTrip(b.amount);
    hide ToSat, FromSat, Le, Blob;
    FromSatExact(ToSat(a.amount));
    FromSatExact(ToSat(b.amount));
  }

  lemma {:induction false} SameRoundedSameBytes(a: seq<TxOut>, b: seq<TxOut>)
    requires RoundedAll(a) == RoundedAll(b)
    ensures SerOuts(a) == SerOuts(b)
  {
    if a != [] {
      assert |a| == |RoundedAll(a)| == |b|;
      assert RoundedAll(a)[0] == RoundedAll(b)[0];
      SameRoundedOut(a[0], b[0]);
      hide SerOut, Rounded;
      assert RoundedAll(a[1..]) == RoundedAll(a)[1..] == RoundedAll(b)[1..] == RoundedAll(b[1..]);
      SameRoundedSameBytes(a[1..], b[1..]);
    } else {
      assert |a| == |RoundedAll(a)| == |b|;
    }
  }

  /** The stripped serialization that is hashed for the identifier determines the
      non-witness data, up to the rounding of amounts, and is determined by it. */
  lemma StrippedIsInjective(a: Tx, b: Tx)
    requires FitsTx(a) && FitsTx(b)
    ensures SerTx(StripTx(a)) == SerTx(StripTx(b)) <==>
              StripTx(a).(outputs := RoundedAll(a.outputs)) == StripTx(b).(outputs := RoundedAll(b.outputs))
  {
    var a', b' := StripTx(a), StripTx(b);
    StrippedFits(a);
    StrippedFits(b);
    ReadLegacyStripped(a', []);
    ReadLegacyStripped(b', []);
    assert SerTx(a') + [] == SerTx(a') && SerTx(b') + [] == SerTx(b');
    if a'.(outputs := RoundedAll(a.outputs)) == b'.(outputs := RoundedAll(b.outputs)) {
      SameRoundedSameBytes(a.outputs, b.outputs);
      assert |a.outputs| == |RoundedAll(a.outputs)| == |b.outputs|;
    }
  }

  /** `get_txid`, over any hash. */
  function Txid(t: Tx, sha: Bytes -> Bytes): Bytes {
    Reverse(sha(sha(SerTx(StripTx(t)))))
  }

  /** On the wire, an input that spends the transaction starts with the plain double
      hash. */
  lemma SpendingStartsWithHash(t: Tx, sha: Bytes -> Bytes, i: TxIn)
    requires i.prevTxid == Txid(t, sha)
    ensures sha(sha(SerTx(StripTx(t)))) <= SerIn(i)
  {
    hide SerTx, Reverse;
    ReverseReverse(sha(sha(SerTx(StripTx(t)))));
  }

  /** With a collision-free hash, two transactions share an identifier exactly when
      they agree on everything but witnesses and fractions of a satoshi. */
  lemma TxidIdentifies(a: Tx, b: Tx, sha: Bytes -> Bytes)
    requires FitsTx(a) && FitsTx(b) && forall x, y :: sha(x) == sha(y) ==> x == y
    ensures Txid(a, sha) == Txid(b, sha) <==>
              StripTx(a).(outputs := RoundedAll(a.outputs)) == StripTx(b).(outputs := RoundedAll(b.outputs))
  {
    StrippedIsInjective(a, b);
    hide SerTx, StripTx;
    var ha, hb := sha(sha(SerTx(StripTx(a)))), sha(sha(SerTx(StripTx(b))));
    ReverseReverse(ha);
    ReverseReverse(hb);
  }
}
