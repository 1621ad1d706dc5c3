/** `match_lockscript`: recognise the lock script of a reverse submarine swap. */
module Lockscript {
  import opened Wrappers
  import opened Amounts
  import opened BitcoinWire

  datatype Lock = Lock(hash: Bytes, keyHash: Bytes, locktime: nat, keyLocktime: Bytes)

  const HEAD: Bytes := [0x82, 0x01, 0x20, 0x87, 0x63, 0xa9, 0x14]
  const AFTER_HASH: Bytes := [0x88, 0x21]
  const BEFORE_LOCKTIME: Bytes := [0x67, 0x75, 0x03]
  const AFTER_LOCKTIME: Bytes := [0xb1, 0x75, 0x21]
  const TAIL: Bytes := [0x68, 0xac]

  /** The script that pays to the key with the hash's preimage, or to the other key
      after the lock time. */
  function Template(l: Lock): Bytes {
    HEAD + l.hash + AFTER_HASH + l.keyHash + BEFORE_LOCKTIME + Le(l.locktime, 3)
    + AFTER_LOCKTIME + l.keyLocktime + TAIL
  }

  predicate ValidLock(l: Lock, validKey: Bytes -> bool) {
    && |l.hash| == 20 && |l.keyHash| == 33 && |l.keyLocktime| == 33 && l.locktime < 0x100_0000
    && validKey(l.keyHash) && validKey(l.keyLocktime)
  }

  /** The fields at the template's positions. */
  function Fields(s: Bytes): Lock
    requires |s| == 106
  {
    Lock(s[7..27], s[29..62], UnLe(s[65..68]), s[71..104])
  }

  predicate Matches(s: Bytes, validKey: Bytes -> bool) {
    && |s| == 106
    && s[..7] == HEAD && s[27..29] == AFTER_HASH && s[62..65] == BEFORE_LOCKTIME
    && s[68..71] == AFTER_LOCKTIME && s[104..] == TAIL
    && validKey(s[29..62]) && validKey(s[71..104])
  }

  /** Matching accepts exactly the filled-in templates, and returns what was filled
      in. */
  lemma MatchesIff(s: Bytes, l: Lock, validKey: Bytes -> bool)
    ensures Matches(s, validKey) && Fields(s) == l <==> ValidLock(l, validKey) && s == Template(l)
  {
    if Matches(s, validKey) && Fields(s) == l {
      FieldsRebuild(s);
    }
    if ValidLock(l, validKey) && s == Template(l) {
      TemplateFields(l);
    }
  }

  lemma ThreeBytes()
    ensures Pow256(3) == 0x100_0000
  {
    assert Pow256(2) == 0x1_0000;
  }

  lemma TemplateFields(l: Lock)
    requires |l.hash| == 20 && |l.keyHash| == 33 && |l.keyLocktime| == 33 && l.locktime < 0x100_0000
    ensures var s := Template(l);
            && |s| == 106 && Fields(s) == l
            && s[..7] == HEAD && s[27..29] == AFTER_HASH && s[62..65] == BEFORE_LOCKTIME
            && s[68..71] == AFTER_LOCKTIME && s[104..] == TAIL
  {
    ThreeBytes();
    UnLeLe(l.locktime, 3);
    hide Le, UnLe;
    var s := Template(l);
    assert s[65..68] == Le(l.locktime, 3);
  }

  lemma {:induction false} LeUnLe(s: Bytes)
    ensures Le(UnLe(s), |s|) == s
  {
    if s != [] {
      LeUnLe(s[1..]);
      assert s == [s[0]] + s[1..];
      assert UnLe(s) % 256 == s[0] && UnLe(s) / 256 == UnLe(s[1..]);
    }
  }

  lemma FieldsRebuild(s: Bytes)
    requires |s| == 106
    requires s[..7] == HEAD && s[27..29] == AFTER_HASH && s[62..65] == BEFORE_LOCKTIME
    requires s[68..71] == AFTER_LOCKTIME && s[104..] == TAIL
    ensures s == Template(Fields(s)) && Fields(s).locktime < 0x100_0000
  {
    ThreeBytes();
    LeUnLe(s[65..68]);
    hide Le, UnLe;
    assert s == s[..7] + s[7..27] + s[27..29] + s[29..62] + s[62..65] + s[65..68] + s[68..71] + s[71..104] + s[104..];
  }

  // ---------------------------------------------------------------- the reader

  /** `Reader`: an iterator that fails at the end and on an unexpected byte. */
  class Reader {
    const script: Bytes
    var pos: nat

    constructor (script: Bytes)
      ensures this.script == script && pos == 0
    {
      this.script, pos := script, 0;
    }

    method Get() returns (b: Option<byte>)
      requires pos <= |script|
      modifies this
      ensures pos <= |script|
      ensures if old(pos) < |script| then b == Some(script[old(pos)]) && pos == old(pos) + 1
              else b == None && pos == old(pos)
    {
      if pos == |script| {
        return None;
      }
      b := Some(script[pos]);
      pos := pos + 1;
    }

    method Expect(bytes: Bytes) returns (ok: bool)
      requires pos <= |script|
      modifies this
      ensures pos <= |script|
      ensures ok <==> old(pos) + |bytes| <= |script| && script[old(pos)..old(pos) + |bytes|] == bytes
      ensures ok ==> pos == old(pos) + |bytes|
    {
      for i := 0 to |bytes|
        invariant pos == old(pos) + i <= |script| && script[old(pos)..pos] == bytes[..i]
      {
        var b := Get();
        if b != Some(bytes[i]) {
          assert old(pos) + |bytes| <= |script| ==>
            script[old(pos)..old(pos) + |bytes|][i] == script[old(pos) + i];
          return false;
        }
        assert script[old(pos)..pos] == script[old(pos)..pos - 1] + [script[pos - 1]];
      }
      assert bytes[..|bytes|] == bytes;
      return true;
    }

    method Take(n: nat) returns (bytes: Option<Bytes>)
      requires pos <= |script|
      modifies this
      ensures pos <= |script|
      ensures if old(pos) + n <= |script|
              then bytes == Some(script[old(pos)..old(pos) + n]) && pos == old(pos) + n
              else bytes == None
    {
      var buf: Bytes := [];
      for i := 0 to n
        invariant pos == old(pos) + i <= |script| && buf == script[old(pos)..pos]
      {
        var b := Get();
        if b.None? {
          return None;
        }
        buf := buf + [b.value];
      }
      bytes := Some(buf);
    }
  }

  lemma Lengths()
    ensures |HEAD| == 7 && |AFTER_HASH| == 2 && |BEFORE_LOCKTIME| == 3 && |AFTER_LOCKTIME| == 3 && |TAIL| == 2
  {
  }

  method MatchLockscript(script: Bytes, validKey: Bytes -> bool) returns (r: Option<Lock>)
    ensures r == if Matches(script, validKey) then Some(Fields(script)) else None
  {
    Lengths();
    hide UnLe, HEAD, AFTER_HASH, BEFORE_LOCKTIME, AFTER_LOCKTIME, TAIL;
    var reader := new Reader(script);
    var ok := reader.Expect(HEAD);
    if !ok { return None; }
    var hash := reader.Take(20);
    if hash.None? { return None; }
    ok := reader.Expect(AFTER_HASH);
    if !ok { return None; }
    var keyHash := reader.Take(33);
    if keyHash.None? || !validKey(keyHash.value) { return None; }
    ok := reader.Expect(BEFORE_LOCKTIME);
    if !ok { return None; }
    var time := reader.Take(3);
    if time.None? { return None; }
    ok := reader.Expect(AFTER_LOCKTIME);
    if !ok { return None; }
    var keyLocktime := reader.Take(33);
    if keyLocktime.None? || !validKey(keyLocktime.value) { return None; }
    ok := reader.Expect(TAIL);
    if !ok || reader.pos != |script| { return None; }
    r := Some(Lock(hash.value, keyHash.value, UnLe(time.value), keyLocktime.value));
  }
}
