/** The stream operators themselves: byte-by-byte writing and reading, proved
    against the serialization functions. */
module BitcoinStreams {
  import opened Amounts
  import opened BitcoinWire

  class OStream {
    var buf: Bytes

    constructor ()
      ensures buf == []
    {
      buf := [];
    }

    method Put(b: byte)
      modifies this
      ensures buf == old(buf) + [b]
    {
      buf := buf + [b];
    }

    method PutLe16(v: nat)
      modifies this
      ensures buf == old(buf) + Le(v, 2)
    {
      Put(v % 256);
      Put(v / 0x100 % 256);
      LeBytes2(v);
    }

    method PutLe32(v: nat)
      modifies this
      ensures buf == old(buf) + Le(v, 4)
    {
      PutLe16(v);
      Put(v / 0x1_0000 % 256);
      Put(v / 0x100_0000 % 256);
      LeBytes4(v);
    }

    method PutLe64(v: nat)
      modifies this
      ensures buf == old(buf) + Le(v, 8)
    {
      PutLe32(v);
      Put(v / 0x1_0000_0000 % 256);
      Put(v / 0x100_0000_0000 % 256);
      Put(v / 0x1_0000_0000_0000 % 256);
      Put(v / 0x100_0000_0000_0000 % 256);
      LeBytes8(v);
    }

    method PutVarInt(v: nat)
      modifies this
      ensures buf == old(buf) + VarInt(v)
    {
      hide Le;
      if v < 0xFD {
        Put(v);
      } else if v <= 0xFFFF {
        Put(0xFD);
        PutLe16(v);
      } else if v <= 0xFFFF_FFFF {
        Put(0xFE);
        PutLe32(v);
      } else {
        Put(0xFF);
        PutLe64(v);
      }
    }

    method PutBlob(b: Bytes)
      modifies this
      ensures buf == old(buf) + Blob(b)
    {
      PutVarInt(|b|);
      ghost var start := buf;
      for i := 0 to |b|
        invariant buf == start + b[..i]
      {
        Put(b[i]);
        assert b[..i + 1] == b[..i] + [b[i]];
      }
      assert b[..|b|] == b;
    }

    method PutTxId(id: Bytes)
      modifies this
      ensures buf == old(buf) + Reverse(id)
    {
      for i := 0 to |id|
        invariant buf == old(buf) + Reverse(id)[..i]
      {
        Put(id[|id| - i - 1]);
        assert Reverse(id)[..i + 1] == Reverse(id)[..i] + [id[|id| - i - 1]];
      }
      assert Reverse(id)[..|id|] == Reverse(id);
    }

    method PutIn(i: TxIn)
      modifies this
      ensures buf == old(buf) + SerIn(i)
    {
      hide Reverse, Le, Blob;
      PutTxId(i.prevTxid);
      PutLe32(i.prevOut);
      PutBlob(i.scriptSig);
      PutLe32(i.nSequence);
    }

    method PutOut(o: TxOut)
      modifies this
      ensures buf == old(buf) + SerOut(o)
    {
      hide Le, Blob, ToSat;
      PutLe64(ToSat(o.amount));
      PutBlob(o.scriptPubKey);
    }

    method PutStack(items: seq<Bytes>)
      modifies this
      ensures buf == old(buf) + SerStack(items)
    {
      hide VarInt, Blob;
      PutVarInt(|items|);
      ghost var start := buf;
      for k := 0 to |items|
        invariant buf == start + SerItems(items[..k])
      {
        PutBlob(items[k]);
        assert items[..k + 1] == items[..k] + [items[k]];
        SerItemsSnoc(items[..k], items[k]);
      }
      assert items[..|items|] == items;
    }

    method PutTx(t: Tx)
      modifies this
      ensures buf == old(buf) + SerTx(t)
    {
      hide Le, SerBody, SerWits;
      PutLe32(t.nVersion);
      var segwit := exists k :: 0 <= k < |t.inputs| && t.inputs[k].stack != [];
      if segwit {
        Put(0x00);
        Put(0x01);
        PutBody(t);
        PutWitnesses(t.inputs);
        assert buf == old(buf) + Le(t.nVersion, 4) + ([0x00, 0x01] + SerBody(t) + SerWits(t.inputs));
      } else {
        PutBody(t);
      }
      PutLe32(t.nLockTime);
    }

    /** The inputs and outputs, each with their count. */
    method PutBody(t: Tx)
      modifies this
      ensures buf == old(buf) + SerBody(t)
    {
      hide SerIns, SerOuts, VarInt;
      PutInputs(t.inputs);
      PutOutputs(t.outputs);
    }

    method PutInputs(ins: seq<TxIn>)
      modifies this
      ensures buf == old(buf) + (VarInt(|ins|) + SerIns(ins))
    {
      hide VarInt, SerIn;
      PutVarInt(|ins|);
      ghost var start := buf;
      for k := 0 to |ins|
        invariant buf == start + SerIns(ins[..k])
      {
        PutIn(ins[k]);
        assert ins[..k + 1] == ins[..k] + [ins[k]];
        SerInsSnoc(ins[..k], ins[k]);
      }
      assert ins[..|ins|] == ins;
    }

    method PutOutputs(outs: seq<TxOut>)
      modifies this
      ensures buf == old(buf) + (VarInt(|outs|) + SerOuts(outs))
    {
      hide VarInt, SerOut;
      PutVarInt(|outs|);
      ghost var start := buf;
      for k := 0 to |outs|
        invariant buf == start + SerOuts(outs[..k])
      {
        PutOut(outs[k]);
        assert outs[..k + 1] == outs[..k] + [outs[k]];
        SerOutsSnoc(outs[..k], outs[k]);
      }
      assert outs[..|outs|] == outs;
    }

    method PutWitnesses(ins: seq<TxIn>)
      modifies this
      ensures buf == old(buf) + SerWits(ins)
    {
      for k := 0 to |ins|
        invariant buf == old(buf) + SerWits(ins[..k])
      {
        PutStack(ins[k].stack);
        assert ins[..k + 1] == ins[..k] + [ins[k]];
        SerWitsSnoc(ins[..k], ins[k]);
      }
      assert ins[..|ins|] == ins;
    }
  }

  /** An input stream with its `good()` state.  Once it is bad, what is read is
      arbitrary and the stream stays bad. */
  class IStream {
    const data: Bytes
    var pos: nat
    var good: bool

    ghost predicate Valid()
      reads this
    {
      pos <= |data|
    }

    ghost function Rest(): Bytes
      requires Valid()
      reads this
    {
      data[pos..]
    }

    /** Reading gave `v` exactly when the stream was good and `parsed` succeeds. */
    ghost predicate Got<T>(parsed: Parsed<T>, wasGood: bool, v: T)
      reads this
    {
      && Valid() && good == (wasGood && parsed.Ok?)
      && (good ==> parsed == Ok(v, Rest()))
    }

    constructor (data: Bytes)
      ensures Valid() && this.data == data && good && Rest() == data
    {
      this.data, pos, good := data, 0, true;
    }

    method Get() returns (b: byte)
      requires Valid()
      modifies this
      ensures Got(ReadBytes(old(Rest()), 1), old(good), [b])
      ensures good ==> pos == old(pos) + 1 && b == data[old(pos)]
    {
      if good && pos < |data| {
        b := data[pos];
        pos := pos + 1;
        assert old(Rest())[..1] == [b] && old(Rest())[1..] == Rest();
      } else {
        b := *;
        good := false;
      }
    }

    method GetBytes(n: nat) returns (v: Bytes)
      requires Valid()
      modifies this
      ensures |v| == n && Got(ReadBytes(old(Rest()), n), old(good), v)
    {
      v := [];
      for i := 0 to n
        invariant Valid() && |v| == i
        invariant good ==> old(good) && pos == old(pos) + i && v == data[old(pos)..pos]
        invariant !good ==> !old(good) || |data| < old(pos) + i
      {
        var b := Get();
        v := v + [b];
      }
      if good {
        assert data[old(pos)..][..n] == v;
        assert data[old(pos)..][n..] == Rest();
      }
    }

    method GetLe16() returns (v: nat)
      requires Valid()
      modifies this
      ensures Got(ReadLe(old(Rest()), 2), old(good), v)
    {
      var c0 := Get();
      var c1 := Get();
      v := c0 + c1 as nat * 0x100;
      UnLeBytes2([c0, c1]);
      assert good ==> old(Rest())[..2] == [c0, c1];
    }

    method GetLe32() returns (v: nat)
      requires Valid()
      modifies this
      ensures Got(ReadLe(old(Rest()), 4), old(good), v)
    {
      var c0 := Get();
      var c1 := Get();
      var c2 := Get();
      var c3 := Get();
      v := c0 + c1 as nat * 0x100 + c2 as nat * 0x1_0000 + c3 as nat * 0x100_0000;
      UnLeBytes4([c0, c1, c2, c3]);
      assert good ==> old(Rest())[..4] == [c0, c1, c2, c3];
    }

    method GetLe64() returns (v: nat)
      requires Valid()
      modifies this
      ensures Got(ReadLe(old(Rest()), 8), old(good), v)
    {
      hide ReadLe;
      var lo := GetLe32();
      var hi := GetLe32();
      v := lo + 0x1_0000_0000 * hi;
      ReadLe8(old(Rest()));
    }

    method GetVarInt() returns (v: nat)
      requires Valid()
      modifies this
      ensures Got(ReadVarInt(old(Rest())), old(good), v)
    {
      hide ReadLe;
      var t := Get();
      if t < 0xFD {
        v := t;
      } else if t == 0xFD {
        v := GetLe16();
      } else if t == 0xFE {
        v := GetLe32();
      } else {
        v := GetLe64();
      }
    }

    method GetBlob() returns (v: Bytes)
      requires Valid()
      modifies this
      ensures Got(ReadBlob(old(Rest())), old(good), v)
    {
      hide ReadVarInt;
      var n := GetVarInt();
      v := GetBytes(n);
    }

    method GetTxId() returns (id: Bytes)
      requires Valid()
      modifies this
      ensures |id| == 32 && Got(ReadBytes(old(Rest()), 32), old(good), Reverse(id))
    {
      hide Reverse;
      ghost var rest := Rest();
      var hash := new byte[32];
      for i := 0 to 32
        invariant Valid()
        invariant good ==> old(good) && i <= |rest| && Rest() == rest[i..]
        invariant good ==> i <= |rest| && hash[32 - i..] == Reverse(rest[..i])
        invariant !good ==> !old(good) || |rest| < i
      {
        ghost var done := hash[32 - i..];
        var b := Get();
        hash[31 - i] := b;
        if good {
          assert hash[31 - i..] == [b] + done;
          ReverseSnoc(rest[..i], b);
          assert rest[..i + 1] == rest[..i] + [b];
        }
      }
      id := hash[..];
      if good {
        ReverseReverse(rest[..32]);
      }
    }

    method GetIn() returns (i: TxIn)
      requires Valid()
      modifies this
      ensures Got(ReadIn(old(Rest())), old(good), i)
    {
      hide ReadLe, ReadBlob, ReadBytes, Reverse;
      var id := GetTxId();
      ReverseReverse(id);
      var out := GetLe32();
      var script := GetBlob();
      var sequence := GetLe32();
      i := TxIn(id, out, script, sequence, []);
    }

    method GetOut() returns (o: TxOut)
      requires Valid()
      modifies this
      ensures Got(ReadOut(old(Rest())), old(good), o)
    {
      hide ReadLe, ReadBlob, FromSat;
      var sats := GetLe64();
      var script := GetBlob();
      o := TxOut(FromSat(Wrap64(sats)), script);
      ReadLeBound(old(Rest()));
    }

    method GetIns(n: nat) returns (ins: seq<TxIn>)
      requires Valid()
      modifies this
      ensures |ins| == n && Got(ReadIns(old(Rest()), n), old(good), ins)
    {
      hide ReadIn;
      ins := [];
      PrependNothing(ReadIns(Rest(), n));
      for k := 0 to n
        invariant Valid() && |ins| == k
        invariant good ==> old(good) && ReadIns(old(Rest()), n) == Prepend(ins, ReadIns(Rest(), n - k))
        invariant !good ==> !old(good) || ReadIns(old(Rest()), n).Bad?
      {
        ghost var before := Rest();
        var i := GetIn();
        if good {
          assert ReadIns(before, n - k) == Prepend([i], ReadIns(Rest(), n - k - 1));
          PrependOne(ins, i, ReadIns(Rest(), n - k - 1));
        }
        ins := ins + [i];
      }
      PrependToNone(ins, Rest());
    }

    method GetOuts(n: nat) returns (outs: seq<TxOut>)
      requires Valid()
      modifies this
      ensures Got(ReadOuts(old(Rest()), n), old(good), outs)
    {
      hide ReadOut;
      outs := [];
      PrependNothing(ReadOuts(Rest(), n));
      for k := 0 to n
        invariant Valid()
        invariant good ==> old(good) && ReadOuts(old(Rest()), n) == Prepend(outs, ReadOuts(Rest(), n - k))
        invariant !good ==> !old(good) || ReadOuts(old(Rest()), n).Bad?
      {
        ghost var before := Rest();
        var o := GetOut();
        if good {
          assert ReadOuts(before, n - k) == Prepend([o], ReadOuts(Rest(), n - k - 1));
          PrependOne(outs, o, ReadOuts(Rest(), n - k - 1));
        }
        outs := outs + [o];
      }
      PrependToNone(outs, Rest());
    }

    method GetStack() returns (items: seq<Bytes>)
      requires Valid()
      modifies this
      ensures Got(ReadStack(old(Rest())), old(good), items)
    {
      hide ReadVarInt, ReadBlob;
      var n := GetVarInt();
      ghost var start, was := Rest(), good;
      items := [];
      PrependNothing(ReadItems(start, n));
      for k := 0 to n
        invariant Valid()
        invariant good ==> was && ReadItems(start, n) == Prepend(items, ReadItems(Rest(), n - k))
        invariant !good ==> !was || ReadItems(start, n).Bad?
      {
        ghost var before := Rest();
        var b := GetBlob();
        if good {
          assert ReadItems(before, n - k) == Prepend([b], ReadItems(Rest(), n - k - 1));
          PrependOne(items, b, ReadItems(Rest(), n - k - 1));
        }
        items := items + [b];
      }
      PrependToNone(items, Rest());
    }

    method GetWitnesses(ins: seq<TxIn>) returns (filled: seq<TxIn>)
      requires Valid()
      modifies this
      ensures Got(ReadWits(old(Rest()), ins), old(good), filled)
    {
      hide ReadStack;
      filled := [];
      assert ins[0..] == ins;
      PrependNothing(ReadWits(Rest(), ins));
      for k := 0 to |ins|
        invariant Valid()
        invariant good ==> old(good) && ReadWits(old(Rest()), ins) == Prepend(filled, ReadWits(Rest(), ins[k..]))
        invariant !good ==> !old(good) || ReadWits(old(Rest()), ins).Bad?
      {
        ghost var before := Rest();
        var w := GetStack();
        var i := ins[k].(stack := w);
        assert ins[k..][0] == ins[k] && ins[k..][1..] == ins[k + 1..];
        if good {
          assert ReadWits(before, ins[k..]) == Prepend([i], ReadWits(Rest(), ins[k + 1..]));
          PrependOne(filled, i, ReadWits(Rest(), ins[k + 1..]));
        }
        filled := filled + [i];
      }
      PrependToNone(filled, Rest());
    }

    method GetRest(version: nat, n: nat, segwit: bool) returns (t: Tx)
      requires Valid()
      modifies this
      ensures Got(ReadRest(version, n, segwit, old(Rest())), old(good), t)
    {
      hide ReadIns, ReadVarInt, ReadOuts, ReadWits, ReadLe;
      var ins := GetIns(n);
      var m := GetVarInt();
      var outs := GetOuts(m);
      var filled := ins;
      if segwit {
        filled := GetWitnesses(ins);
      }
      var lock := GetLe32();
      t := Tx(version, filled, outs, lock);
    }

    /** `operator>>` for transactions. */
    method GetTx() returns (t: Tx)
      requires Valid()
      modifies this
      ensures Got(ReadTx(old(Rest())), old(good), t)
    {
      hide ReadVarInt, ReadRest, ReadLe;
      var version := GetLe32();
      var len := GetVarInt();
      var segwit := len == 0;
      if segwit {
        var marker := Get();
        if !good || marker != 0x01 {
          good := false;
          t := Tx(version, [], [], 0);
          return;
        }
        len := GetVarInt();
      }
      t := GetRest(version, len, segwit);
    }
  }

  lemma ReverseSnoc(s: Bytes, b: byte)
    ensures Reverse(s + [b]) == [b] + Reverse(s)
  {
  }

  function Prepend<T>(done: seq<T>, p: Parsed<seq<T>>): Parsed<seq<T>> {
    if p.Ok? then Ok(done + p.value, p.rest) else Bad
  }

  lemma PrependNothing<T>(p: Parsed<seq<T>>)
    ensures Prepend([], p) == p
  {
    assert p.Ok? ==> [] + p.value == p.value;
  }

  lemma PrependOne<T>(done: seq<T>, x: T, p: Parsed<seq<T>>)
    ensures Prepend(done, Prepend([x], p)) == Prepend(done + [x], p)
  {
    assert p.Ok? ==> done + ([x] + p.value) == done + [x] + p.value;
  }

  lemma PrependToNone<T>(done: seq<T>, rest: Bytes)
    ensures Prepend(done, Ok([], rest)) == Ok(done, rest)
  {
    assert done + [] == done;
  }

  lemma ReadLeBound(s: Bytes)
    ensures ReadLe(s, 8).Ok? ==> ReadLe(s, 8).value < TWO64
  {
    Widths();
  }

  lemma LeTwoMore(v: nat, n: nat)
    ensures Le(v, n + 2) == [v % 256, v / 0x100 % 256] + Le(v / 0x1_0000, n)
  {
    assert v / 0x100 / 0x100 == v / 0x1_0000;
    assert Le(v, n + 2) == [v % 256] + ([v / 0x100 % 256] + Le(v / 0x1_0000, n));
  }

  lemma LeBytes2(v: nat)
    ensures Le(v, 2) == [v % 256, v / 0x100 % 256]
  {
    LeTwoMore(v, 0);
    assert Le(v / 0x1_0000, 0) == [];
  }

  lemma LeBytes4(v: nat)
    ensures Le(v, 4) == Le(v, 2) + [v / 0x1_0000 % 256, v / 0x100_0000 % 256]
  {
    LeTwoMore(v, 2);
    LeBytes2(v);
    LeBytes2(v / 0x1_0000);
    hide Le;
    assert v / 0x1_0000 / 0x100 == v / 0x100_0000;
  }

  lemma LeBytes8(v: nat)
    ensures Le(v, 8) == Le(v, 4) + [v / 0x1_0000_0000 % 256, v / 0x100_0000_0000 % 256,
                                   v / 0x1_0000_0000_0000 % 256, v / 0x100_0000_0000_0000 % 256]
  {
    var w := v / 0x1_0000_0000;
    assert Le(v, 8) == Le(v, 4) + Le(w, 4) by {
      hide Le;
      LeTwoMore(v, 6);
      LeTwoMore(v / 0x1_0000, 4);
      LeTwoMore(v, 2);
      LeBytes2(v / 0x1_0000);
      assert v / 0x1_0000 / 0x1_0000 == w;
    }
    hide Le;
    LeBytes4(w);
    LeBytes2(w);
    assert w / 0x100 == v / 0x100_0000_0000;
    assert w / 0x1_0000 == v / 0x1_0000_0000_0000;
    assert w / 0x100_0000 == v / 0x100_0000_0000_0000;
  }

  lemma {:induction false} SerInsSnoc(ins: seq<TxIn>, i: TxIn)
    ensures SerIns(ins + [i]) == SerIns(ins) + SerIn(i)
  {
    if ins != [] {
      hide SerIn;
      assert (ins + [i])[1..] == ins[1..] + [i];
      SerInsSnoc(ins[1..], i);
    }
  }

  lemma {:induction false} SerOutsSnoc(outs: seq<TxOut>, o: TxOut)
    ensures SerOuts(outs + [o]) == SerOuts(outs) + SerOut(o)
  {
    if outs != [] {
      hide SerOut;
      assert (outs + [o])[1..] == outs[1..] + [o];
      SerOutsSnoc(outs[1..], o);
    }
  }

  lemma {:induction false} SerItemsSnoc(items: seq<Bytes>, b: Bytes)
    ensures SerItems(items + [b]) == SerItems(items) + Blob(b)
  {
    if items != [] {
      assert (items + [b])[1..] == items[1..] + [b];
      SerItemsSnoc(items[1..], b);
    }
  }

  lemma {:induction false} SerWitsSnoc(ins: seq<TxIn>, i: TxIn)
    ensures SerWits(ins + [i]) == SerWits(ins) + SerStack(i.stack)
  {
    if ins != [] {
      assert (ins + [i])[1..] == ins[1..] + [i];
      SerWitsSnoc(ins[1..], i);
    }
  }

  lemma UnLeBytes2(s: Bytes)
    requires |s| == 2
    ensures UnLe(s) == s[0] + s[1] as nat * 0x100
  {
    assert s[1..][1..] == [];
  }

  lemma UnLeBytes4(s: Bytes)
    requires |s| == 4
    ensures UnLe(s) == s[0] + s[1] as nat * 0x100 + s[2] as nat * 0x1_0000 + s[3] as nat * 0x100_0000
  {
    assert UnLe(s) == s[0] + 256 * (s[1] + 256 * UnLe(s[2..])) by {
      assert s[1..][1..] == s[2..];
    }
    UnLeBytes2(s[2..]);
  }

  lemma Scale(k: nat, x: nat, y: nat, z: nat)
    ensures k * (x + y * z) == k * x + k * y * z
  {
  }

  lemma {:induction false} UnLeConcat(a: Bytes, b: Bytes)
    ensures UnLe(a + b) == UnLe(a) + Pow256(|a|) * UnLe(b)
  {
    if a == [] {
      assert a + b == b;
    } else {
      assert (a + b)[1..] == a[1..] + b;
      UnLeConcat(a[1..], b);
      Scale(256, UnLe(a[1..]), Pow256(|a| - 1), UnLe(b));
    }
  }

  lemma ReadLe8(s: Bytes)
    ensures var lo := ReadLe(s, 4);
            ReadLe(s, 8) == (if lo.Bad? then Bad
                             else var hi := ReadLe(lo.rest, 4);
                                  if hi.Bad? then Bad else Ok(lo.value + 0x1_0000_0000 * hi.value, hi.rest))
  {
    Widths();
    if |s| >= 8 {
      assert s[..8] == s[..4] + s[4..][..4] && s[8..] == s[4..][4..];
      UnLeConcat(s[..4], s[4..][..4]);
    }
  }

  // ------------------------------------------------------------ known layouts

  /** One input with one witness item and one output, laid out as section
      "Serialization" of BIP-144 says: version, marker and flag, inputs, outputs,
      witnesses, lock time. */
  lemma SegwitLayout(t: Tx, item: Bytes)
    requires |t.inputs| == 1 && |t.outputs| == 1 && t.inputs[0].stack == [item]
    ensures SerTx(t) == Le(t.nVersion, 4) + [0x00, 0x01]
                        + ([0x01] + SerIn(t.inputs[0]) + [0x01] + SerOut(t.outputs[0]))
                        + ([0x01] + Blob(item)) + Le(t.nLockTime, 4)
  {
    assert Segwit(t.inputs);
    assert VarInt(1) == [0x01];
    hide Le, Blob, SerIn, SerOut, VarInt;
    SerInsSnoc([], t.inputs[0]);
    SerOutsSnoc([], t.outputs[0]);
    SerItemsSnoc([], item);
    SerWitsSnoc([], t.inputs[0]);
    assert [] + [t.inputs[0]] == t.inputs && [] + [t.outputs[0]] == t.outputs && [] + [item] == [item];
  }

  /** The same without a witness is laid out as before segwit. */
  lemma LegacyLayout(t: Tx)
    requires |t.inputs| == 1 && |t.outputs| == 1 && t.inputs[0].stack == []
    ensures SerTx(t) == Le(t.nVersion, 4) + ([0x01] + SerIn(t.inputs[0]) + [0x01] + SerOut(t.outputs[0]))
                        + Le(t.nLockTime, 4)
  {
    assert !Segwit(t.inputs);
    assert VarInt(1) == [0x01];
    hide Le, Blob, SerIn, SerOut, VarInt;
    SerInsSnoc([], t.inputs[0]);
    SerOutsSnoc([], t.outputs[0]);
    assert [] + [t.inputs[0]] == t.inputs && [] + [t.outputs[0]] == t.outputs;
  }

  lemma KnownInput(id: Bytes)
    ensures SerIn(TxIn(id, 258, [0x51], 0xFFFF_FFFE, []))
         == Reverse(id) + [0x02, 0x01, 0x00, 0x00] + [0x01, 0x51] + [0xFE, 0xFF, 0xFF, 0xFF]
  {
    LeBytes4(258);
    LeBytes2(258);
    LeBytes4(0xFFFF_FFFE);
    LeBytes2(0xFFFF_FFFE);
    assert Blob([0x51]) == [0x01, 0x51];
    hide Le, Blob, Reverse;
  }

  lemma KnownOutput()
    ensures SerOut(TxOut(258_000, [0x6a])) == [0x02, 0x01, 0x00, 0x00, 0x00, 0x00, 0x00, 0x00] + [0x01, 0x6a]
  {
    LeBytes8(258);
    LeBytes4(258);
    LeBytes2(258);
    assert ToSat(258_000) == 258;
    assert Blob([0x6a]) == [0x01, 0x6a];
    hide Le, Blob;
  }

  lemma KnownVarInts()
    ensures VarInt(0xFC) == [0xFC] && VarInt(0xFD) == [0xFD] + [0xFD, 0x00]
    ensures VarInt(0x1_0203) == [0xFE] + [0x03, 0x02, 0x01, 0x00]
  {
    LeBytes2(0xFD);
    LeBytes4(0x1_0203);
    LeBytes2(0x1_0203);
    hide Le;
  }
}
