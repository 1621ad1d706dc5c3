/** Segwit addresses (section "Segwit address format" of BIP-173) as the node reads
    them: the checksum is skipped, not verified. */
module Bech32 {
  import opened Wrappers
  import opened Amounts
  import opened BitcoinWire

  type Bits = seq<bool>

  // ------------------------------------------------------------ bits and digits

  function Pow2(k: nat): (p: nat)
    ensures p > 0
  {
    if k == 0 then 1 else 2 * Pow2(k - 1)
  }

  /** The `k` low bits of `v`, most significant first. */
  function NatBits(v: nat, k: nat): (b: Bits)
    ensures |b| == k
  {
    if k == 0 then [] else NatBits(v / 2, k - 1) + [v % 2 == 1]
  }

  function BitsVal(b: Bits): (v: nat)
    ensures v < Pow2(|b|)
  {
    if b == [] then 0 else 2 * BitsVal(b[..|b| - 1]) + if b[|b| - 1] then 1 else 0
  }

  lemma {:induction false} ValOfBits(v: nat, k: nat)
    requires v < Pow2(k)
    ensures BitsVal(NatBits(v, k)) == v
  {
    if k > 0 {
      assert NatBits(v, k)[..k - 1] == NatBits(v / 2, k - 1);
      ValOfBits(v / 2, k - 1);
    }
  }

  lemma {:induction false} BitsOfVal(b: Bits)
    ensures NatBits(BitsVal(b), |b|) == b
  {
    if b != [] {
      BitsOfVal(b[..|b| - 1]);
      assert b == b[..|b| - 1] + [b[|b| - 1]];
    }
  }

  /** Digits of `k` bits each, written out. */
  function Flatten(digits: seq<nat>, k: nat): (b: Bits)
    ensures |b| == k * |digits|
  {
    if digits == [] then [] else NatBits(digits[0], k) + Flatten(digits[1..], k)
  }

  /** Bits read as `n` digits of `k` bits each. */
  function Chunks(b: Bits, k: nat, n: nat): (digits: seq<nat>)
    requires |b| == k * n
    ensures |digits| == n
    ensures forall i :: 0 <= i < n ==> digits[i] < Pow2(k)
    decreases n
  {
    if n == 0 then [] else OneMore(k, n); [BitsVal(b[..k])] + Chunks(b[k..], k, n - 1)
  }

  lemma OneMore(k: nat, n: nat)
    requires n > 0
    ensures k <= k * n && k * n - k == k * (n - 1)
  {
    assert k * n == k * (n - 1) + k;
  }

  lemma {:induction false} ChunksFlatten(digits: seq<nat>, k: nat)
    requires forall i :: 0 <= i < |digits| ==> digits[i] < Pow2(k)
    ensures Chunks(Flatten(digits, k), k, |digits|) == digits
  {
    if digits != [] {
      OneMore(k, |digits|);
      var b := Flatten(digits, k);
      assert b[..k] == NatBits(digits[0], k) && b[k..] == Flatten(digits[1..], k);
      ValOfBits(digits[0], k);
      ChunksFlatten(digits[1..], k);
    }
  }

  lemma {:induction false} FlattenChunks(b: Bits, k: nat, n: nat)
    requires |b| == k * n
    ensures Flatten(Chunks(b, k, n), k) == b
    decreases n
  {
    if n > 0 {
      OneMore(k, n);
      FlattenChunks(b[k..], k, n - 1);
      BitsOfVal(b[..k]);
      assert Chunks(b, k, n)[1..] == Chunks(b[k..], k, n - 1);
      assert b == b[..k] + b[k..];
    }
  }

  function Zeros(n: nat): (b: Bits)
    ensures |b| == n && forall i :: 0 <= i < n ==> !b[i]
  {
    seq(n, i => false)
  }

  /** Zero bits up to a whole number of 5-bit digits, or of bytes. */
  function Pad5(b: Bits): (p: Bits)
    ensures |p| == (|b| + 4) / 5 * 5
  {
    b + Zeros((|b| + 4) / 5 * 5 - |b|)
  }

  function Pad8(b: Bits): (p: Bits)
    ensures |p| == (|b| + 7) / 8 * 8
  {
    b + Zeros((|b| + 7) / 8 * 8 - |b|)
  }

  /** What `bitstream_to_bytes` writes. */
  function ToBytes(b: Bits): (r: Bytes)
    ensures |r| == (|b| + 7) / 8
  {
    AsBytes(Chunks(Pad8(b), 8, (|b| + 7) / 8))
  }

  lemma Pow2Values()
    ensures Pow2(5) == 32 && Pow2(8) == 256
  {
    assert Pow2(4) == 16;
    assert Pow2(8) == 16 * Pow2(4);
  }

  function AsBytes(digits: seq<nat>): (r: Bytes)
    requires forall i :: 0 <= i < |digits| ==> digits[i] < Pow2(8)
    ensures |r| == |digits| && forall i :: 0 <= i < |r| ==> r[i] == digits[i]
  {
    Pow2Values();
    seq(|digits|, i requires 0 <= i < |digits| => digits[i])
  }

  // ------------------------------------------------------------- the characters

  const CHARS: string := "qpzry9x8gf2tvdw0s3jn54khce6mua7l"

  function ToLower(c: char): char {
    if 'A' <= c <= 'Z' then c - 'A' + 'a' else c
  }

  function Lower(s: string): (r: string)
    ensures |r| == |s| && forall i :: 0 <= i < |s| ==> r[i] == ToLower(s[i])
  {
    seq(|s|, i requires 0 <= i < |s| => ToLower(s[i]))
  }

  function Find(s: string, c: char): (i: nat)
    ensures i <= |s| && (i < |s| ==> s[i] == c) && forall j :: 0 <= j < i ==> s[j] != c
  {
    if s == [] || s[0] == c then 0 else 1 + Find(s[1..], c)
  }

  /** `decode_char`: -1 for a character outside the alphabet. */
  function DecodeChar(c: char): int {
    var i := Find(CHARS, ToLower(c));
    if i == |CHARS| then -1 else i
  }

  lemma CharsAreDistinct(i: nat, j: nat)
    requires i < j < 32
    ensures |CHARS| == 32 && CHARS[i] != CHARS[j]
  {
  }

  function CharOf(v: nat): (c: char)
    requires v < 32
  {
    CHARS[v]
  }

  lemma CharIsLower(v: nat)
    requires v < 32
    ensures ToLower(CharOf(v)) == CharOf(v) != '1'
  {
  }

  lemma DecodeCharIff(c: char, v: nat)
    requires v < 32
    ensures DecodeChar(c) == v <==> ToLower(c) == CharOf(v)
  {
    var i := Find(CHARS, ToLower(c));
    if i < v {
      CharsAreDistinct(i, v);
    }
  }

  lemma DecodeCharRange(c: char)
    ensures -1 <= DecodeChar(c) < 32
  {
  }

  // ------------------------------------------------------------------ decoding

  /** The 5-bit values of a string, if all its characters are in the alphabet. */
  function Values(s: string): (r: Option<seq<nat>>)
    ensures r.Some? ==> |r.value| == |s| && forall i :: 0 <= i < |s| ==> r.value[i] < 32
  {
    if s == [] then Some([])
    else
      var last := DecodeChar(s[|s| - 1]);
      var front := Values(s[..|s| - 1]);
      DecodeCharRange(s[|s| - 1]);
      if front.None? || last < 0 then None else Some(front.value + [last])
  }

  /** The characters of 5-bit values. */
  function Chars(digits: seq<nat>): (s: string)
    requires forall i :: 0 <= i < |digits| ==> digits[i] < 32
    ensures |s| == |digits| && forall i :: 0 <= i < |s| ==> s[i] == CharOf(digits[i])
  {
    seq(|digits|, i requires 0 <= i < |digits| => CharOf(digits[i]))
  }

  lemma {:induction false} ValuesIff(s: string, digits: seq<nat>)
    requires forall i :: 0 <= i < |digits| ==> digits[i] < 32
    ensures Values(s) == Some(digits) <==> Lower(s) == Chars(digits)
  {
    hide DecodeChar, CharOf, ToLower;
    if s == [] {
      assert Lower(s) == [];
      assert Chars(digits) == [] <==> digits == [];
    } else if digits == [] {
      assert |Lower(s)| != |Chars(digits)|;
    } else {
      var k, m := |s| - 1, |digits| - 1;
      ValuesIff(s[..k], digits[..m]);
      DecodeCharIff(s[k], digits[m]);
      assert Lower(s) == Lower(s[..k]) + [ToLower(s[k])];
      assert Chars(digits) == Chars(digits[..m]) + [CharOf(digits[m])];
      assert digits == digits[..m] + [digits[m]];
      assert Lower(s) == Chars(digits) <==>
             Lower(s[..k]) == Chars(digits[..m]) && ToLower(s[k]) == CharOf(digits[m]);
    }
  }

  datatype Decoded = Decoded(hrp: string, data: Bits)

  /** The position of the last `1`, or -1. */
  function LastOne(s: string): (i: int)
    ensures -1 <= i < |s| && (i >= 0 ==> s[i] == '1')
    ensures forall j :: i < j < |s| ==> s[j] != '1'
  {
    if s == [] then -1
    else if s[|s| - 1] == '1' then |s| - 1
    else LastOne(s[..|s| - 1])
  }

  /** `Util::Bech32::decode`. */
  function Decode(s: string): Option<Decoded> {
    var sep := LastOne(s);
    if sep < 0 || sep + 1 >= |s| - 6 then None
    else
      match Values(s[sep + 1..|s| - 6])
      case None => None
      case Some(digits) => Some(Decoded(Lower(s[..sep]), Flatten(digits, 5)))
  }

  predicate KnownHrp(hrp: string) {
    hrp == "bc" || hrp == "tb" || hrp == "bcrt"
  }

  /** `addr_to_scriptPubKey`, with `None` for the exception. */
  function AddrToScript(addr: string): Option<Bytes> {
    match Decode(addr)
    case None => None
    case Some(d) =>
      if !KnownHrp(d.hrp) || |d.data| < 5 then None
      else ScriptOf(ToBytes(d.data[..5])[0] / 8, d.data)
  }

  predicate AnySet(b: Bits) {
    exists i :: 0 <= i < |b| && b[i]
  }

  function ScriptOf(version: nat, data: Bits): Option<Bytes>
    requires |data| >= 5
  {
    var ok := (version == 0 && (|data| == 5 + 160 || |data| == 5 + 260))
           || (version == 1 && |data| == 5 + 260)
           || 2 <= version <= 16;
    var size := (|data| - 5) / 8;
    if !ok || !(2 <= size <= 40) then None
    else
      var padding := data[5 + 8 * size..];
      if AnySet(padding) || |padding| >= 5 then None
      else Some([if version == 0 then 0x00 else 0x50 + version, size] + ToBytes(data[5..5 + 8 * size]))
  }

  // ------------------------------------------------- the format of BIP-173

  predicate Allowed(version: nat, n: nat) {
    || (version == 0 && (n == 20 || n == 32))
    || (version == 1 && n == 32)
    || (2 <= version <= 16 && 2 <= n <= 40)
  }

  /** Version and zero-padded program as 5-bit digits. */
  function DataDigits(version: nat, program: Bytes): (d: seq<nat>)
    requires version < 32
    ensures forall i :: 0 <= i < |d| ==> d[i] < 32
  {
    Pow2Values();
    [version] + Chunks(Pad5(Flatten(program, 8)), 5, (8 * |program| + 4) / 5)
  }

  /** `addr` is, in any case and with any six final characters, the address of the
      program. */
  predicate IsAddress(addr: string, version: nat, program: Bytes) {
    var sep := LastOne(addr);
    && 0 <= sep < |addr| - 7 && Allowed(version, |program|)
    && KnownHrp(Lower(addr[..sep]))
    && Lower(addr[sep + 1..|addr| - 6]) == Chars(DataDigits(version, program))
  }

  function Script(version: nat, program: Bytes): Bytes
    requires Allowed(version, |program|)
  {
    [if version == 0 then 0x00 else 0x50 + version, |program|] + program
  }

  lemma AppendZero(b: Bits)
    ensures BitsVal(b + [false]) == 2 * BitsVal(b)
  {
    assert (b + [false])[..|b|] == b;
  }

  /** The version byte is padded with three zero bits, which the shift removes. */
  lemma VersionIsFirstDigit(digits: seq<nat>)
    requires digits != [] && digits[0] < 32
    ensures |Flatten(digits, 5)| >= 5 && ToBytes(Flatten(digits, 5)[..5])[0] / 8 == digits[0]
  {
    Pow2Values();
    var b := Flatten(digits, 5)[..5];
    assert b == NatBits(digits[0], 5);
    ValOfBits(digits[0], 5);
    AppendZero(b);
    AppendZero(b + [false]);
    AppendZero(b + [false] + [false]);
    hide BitsVal, NatBits;
    assert Pad8(b) == b + [false] + [false] + [false] && Pad8(b)[..8] == Pad8(b);
    assert ToBytes(b)[0] == BitsVal(Pad8(b));
  }

  lemma ToBytesFlatten(program: Bytes)
    ensures ToBytes(Flatten(program, 8)) == program
  {
    Pow2Values();
    var b := Flatten(program, 8);
    assert Pad8(b) == b;
    ChunksFlatten(program, 8);
  }

  lemma FlattenToBytes(b: Bits)
    requires |b| % 8 == 0
    ensures Flatten(ToBytes(b), 8) == b
  {
    assert Pad8(b) == b;
    FlattenChunks(b, 8, |b| / 8);
    assert ToBytes(b) == Chunks(b, 8, |b| / 8);
  }

  /** Fewer than five zero bits follow the program's bits. */
  lemma PaddedForm(bits: Bits, n: nat)
    requires |bits| == 8 * n
    ensures var p := Pad5(bits);
            && |p| / 8 == n && p[..8 * n] == bits && |p| - 8 * n < 5
            && forall i :: 8 * n <= i < |p| ==> !p[i]
  {
  }

  lemma UnpaddedForm(p: Bits, n: nat)
    requires |p| % 5 == 0 && 8 * n <= |p| < 8 * n + 5
    requires forall i :: 8 * n <= i < |p| ==> !p[i]
    ensures Pad5(p[..8 * n]) == p
  {
  }

  /** The conditions of `ScriptOf`, on the bits after the version. */
  lemma ScriptOfIff(version: nat, data: Bits, script: Bytes)
    requires |data| >= 5 && |data| % 5 == 0
    ensures var p := data[5..]; var n := |p| / 8;
            ScriptOf(version, data) == Some(script) <==>
              && Allowed(version, n) && |p| - 8 * n < 5 && (forall i :: 8 * n <= i < |p| ==> !p[i])
              && script == [if version == 0 then 0x00 else 0x50 + version, n] + ToBytes(p[..8 * n])
  {
    hide ToBytes;
    var p := data[5..];
    var n := |p| / 8;
    assert data[5..5 + 8 * n] == p[..8 * n];
    var padding := data[5 + 8 * n..];
    assert |padding| == |p| - 8 * n && forall i :: 0 <= i < |padding| ==> padding[i] == p[8 * n + i];
    if forall i :: 0 <= i < |padding| ==> !padding[i] {
      forall i | 8 * n <= i < |p| ensures !p[i] {
        assert p[i] == padding[i - 8 * n];
      }
    }
  }

  lemma DigitsSpellProgram(version: nat, program: Bytes)
    requires version < 32
    ensures var data := Flatten(DataDigits(version, program), 5);
            |data| >= 5 && |data| % 5 == 0 && data[5..] == Pad5(Flatten(program, 8))
  {
    hide Chunks, Flatten, Pad5;
    var p := Pad5(Flatten(program, 8));
    var n := (8 * |program| + 4) / 5;
    FlattenChunks(p, 5, n);
    assert DataDigits(version, program)[1..] == Chunks(p, 5, n);
    FlattenTail(DataDigits(version, program));
  }

  lemma FlattenTail(digits: seq<nat>)
    requires digits != []
    ensures |Flatten(digits, 5)| == 5 * |digits| && Flatten(digits, 5)[5..] == Flatten(digits[1..], 5)
  {
    hide NatBits;
  }

  lemma DigitsAreDetermined(digits: seq<nat>, program: Bytes)
    requires digits != [] && forall i :: 0 <= i < |digits| ==> digits[i] < 32
    requires Flatten(digits, 5)[5..] == Pad5(Flatten(program, 8))
    ensures digits == DataDigits(digits[0], program)
  {
    hide Chunks, Flatten, Pad5;
    Pow2Values();
    FlattenTail(digits);
    ChunksFlatten(digits[1..], 5);
    assert (8 * |program| + 4) / 5 == |digits| - 1;
    assert digits == [digits[0]] + digits[1..];
  }

  /** Every allowed program is recovered from its padded digits ... */
  lemma DigitsToScript(version: nat, program: Bytes)
    requires Allowed(version, |program|)
    ensures |Flatten(DataDigits(version, program), 5)| >= 5
    ensures ScriptOf(version, Flatten(DataDigits(version, program), 5)) == Some(Script(version, program))
  {
    hide Flatten, Pad5, ToBytes, ScriptOf, DataDigits, Chunks;
    var data := Flatten(DataDigits(version, program), 5);
    DigitsSpellProgram(version, program);
    PaddedForm(Flatten(program, 8), |program|);
    ToBytesFlatten(program);
    ScriptOfIff(version, data, Script(version, program));
  }

  /** ... and every accepted digit string is the padding of the program it gives. */
  lemma ScriptToDigits(digits: seq<nat>) returns (program: Bytes)
    requires digits != [] && forall i :: 0 <= i < |digits| ==> digits[i] < 32
    requires ScriptOf(digits[0], Flatten(digits, 5)).Some?
    ensures Allowed(digits[0], |program|) && digits == DataDigits(digits[0], program)
    ensures ScriptOf(digits[0], Flatten(digits, 5)) == Some(Script(digits[0], program))
  {
    hide Flatten, ScriptOf, ToBytes, Pad5, DataDigits, Chunks;
    var data := Flatten(digits, 5);
    var p := data[5..];
    var n := |p| / 8;
    ScriptOfIff(digits[0], data, ScriptOf(digits[0], data).value);
    program := ToBytes(p[..8 * n]);
    FlattenToBytes(p[..8 * n]);
    UnpaddedForm(p, n);
    DigitsAreDetermined(digits, program);
  }

  /** Exactly the addresses of the format are accepted, and each gives the script of
      its version and program: decoding is total, exact and inverts encoding. */
  lemma AcceptsExactlyAddresses(addr: string, script: Bytes)
    ensures AddrToScript(addr) == Some(script) <==>
              exists version, program ::
                IsAddress(addr, version, program) && script == Script(version, program)
  {
    hide Values, Flatten, ToBytes, ScriptOf, DataDigits, Lower, Chars, KnownHrp;
    var sep := LastOne(addr);
    if 0 <= sep < |addr| - 7 {
      var data := addr[sep + 1..|addr| - 6];
      if AddrToScript(addr) == Some(script) {
        var digits := Values(data).value;
        ValuesIff(data, digits);
        VersionIsFirstDigit(digits);
        var program := ScriptToDigits(digits);
        assert IsAddress(addr, digits[0], program) && script == Script(digits[0], program);
      }
      forall version, program | IsAddress(addr, version, program)
        ensures AddrToScript(addr) == Some(Script(version, program))
      {
        AddressDecodes(addr, version, program);
      }
    }
  }

  lemma FirstDigit(version: nat, program: Bytes)
    requires version < 32
    ensures DataDigits(version, program) != [] && DataDigits(version, program)[0] == version
  {
  }

  lemma AddressDecodes(addr: string, version: nat, program: Bytes)
    requires IsAddress(addr, version, program)
    ensures AddrToScript(addr) == Some(Script(version, program))
  {
    hide Values, Flatten, ToBytes, ScriptOf, DataDigits, Lower, Chars;
    var digits := DataDigits(version, program);
    var sep := LastOne(addr);
    FirstDigit(version, program);
    ValuesIff(addr[sep + 1..|addr| - 6], digits);
    VersionIsFirstDigit(digits);
    DigitsToScript(version, program);
  }

  /** The address of a program; the last six characters are never looked at. */
  function Address(hrp: string, version: nat, program: Bytes, checksum: string): string
    requires Allowed(version, |program|)
  {
    hrp + "1" + Chars(DataDigits(version, program)) + checksum
  }

  /** Writing an address and reading it gives the script of the program. */
  lemma AddressRoundTrip(hrp: string, version: nat, program: Bytes, checksum: string)
    requires KnownHrp(hrp) && Allowed(version, |program|) && |checksum| == 6 && '1' !in checksum
    ensures AddrToScript(Address(hrp, version, program, checksum)) == Some(Script(version, program))
  {
    hide DataDigits, Script, AddrToScript, LastOne, CharOf, ToLower;
    var digits := DataDigits(version, program);
    var addr := Address(hrp, version, program, checksum);
    FirstDigit(version, program);
    forall i | 0 <= i < |digits| ensures ToLower(CharOf(digits[i])) == CharOf(digits[i]) != '1' {
      CharIsLower(digits[i]);
    }
    assert addr[|hrp|] == '1';
    forall i | |hrp| < i < |addr| ensures addr[i] != '1' {
      if i < |hrp| + 1 + |digits| {
        assert addr[i] == Chars(digits)[i - |hrp| - 1];
      } else {
        assert addr[i] == checksum[i - |hrp| - 1 - |digits|];
      }
    }
    OnlyLastOne(addr, |hrp|);
    assert addr[..|hrp|] == hrp;
    assert addr[|hrp| + 1..|addr| - 6] == Chars(digits);
    assert Lower(Chars(digits)) == Chars(digits);
    HrpIsLower(hrp);
    AddressDecodes(addr, version, program);
  }

  lemma OnlyLastOne(s: string, k: nat)
    requires k < |s| && s[k] == '1' && forall i :: k < i < |s| ==> s[i] != '1'
    ensures LastOne(s) == k
  {
  }

  lemma HrpIsLower(hrp: string)
    requires KnownHrp(hrp)
    ensures Lower(hrp) == hrp
  {
  }

  // ------------------------------------ section "Test vectors" of BIP-173

  const VECTOR: string := "abcdef" + "1" + "qpzry9x8gf2tvdw0s3jn54khce6mua7l" + "mqqqxw"

  /** The vector that spells the alphabet decodes to the digits in order. */
  lemma AlphabetVector()
    ensures Decode(VECTOR) == Some(Decoded("abcdef", Flatten(seq(32, i => i), 5)))
  {
    VectorParts();
    Alphabet();
    hide Values, Flatten, Lower, Chars, VECTOR, LastOne, CHARS;
    ValuesIff(CHARS, seq(32, i => i));
  }

  lemma VectorParts()
    ensures |VECTOR| == 45 && LastOne(VECTOR) == 6
    ensures Lower(VECTOR[..6]) == "abcdef" && VECTOR[7..39] == CHARS
  {
    Alphabet();
    assert VECTOR == "abcdef" + "1" + CHARS + "mqqqxw";
    assert Lower("abcdef") == "abcdef" && VECTOR[..6] == "abcdef";
    hide CHARS;
    forall i | 6 < i < |VECTOR| ensures VECTOR[i] != '1' {
      if i < 39 {
        assert VECTOR[i] == CHARS[i - 7];
        CharIsLower(i - 7);
        assert CHARS[i - 7] == CharOf(i - 7);
      }
    }
    OnlyLastOne(VECTOR, 6);
  }

  lemma Alphabet()
    ensures |CHARS| == 32 && CHARS == "qpzry9x8gf2tvdw0s3jn54khce6mua7l"
    ensures Lower(CHARS) == CHARS == Chars(seq(32, i => i))
  {
    forall i | 0 <= i < |CHARS| ensures ToLower(CHARS[i]) == CHARS[i] {
      CharIsLower(i);
    }
  }

  lemma KnownDigits()
    ensures DataDigits(16, [0x75, 0x1e]) == [16, 14, 20, 15, 0]
  {
    var digits: seq<nat> := [16, 14, 20, 15, 0];
    var program: Bytes := [0x75, 0x1e];
    KnownBits();
    assert digits[1..] == [14, 20, 15, 0];
    hide Flatten, Pad5, DataDigits;
    FlattenTail(digits);
    DigitsAreDetermined(digits, program);
  }

  lemma KnownBits()
    ensures Flatten([14, 20, 15, 0], 5) == Pad5(Flatten([0x75, 0x1e], 8))
  {
    hide NatBits;
    KnownFives();
    KnownBytes();
    var t, f := true, false;
    var bits := [f, t, t, t, f, t, f, t] + [f, f, f, t, t, t, t, f];
    assert Pad5(bits) == bits + [f, f, f, f];
  }

  lemma KnownFives()
    ensures var t, f := true, false;
            Flatten([14, 20, 15, 0], 5) == [f, t, t, t, f] + [t, f, t, f, f] + [f, t, t, t, t] + [f, f, f, f, f]
  {
    hide Flatten, NatBits;
    KnownDigitBits();
    FlattenOne(14, [20, 15, 0], 5);
    FlattenOne(20, [15, 0], 5);
    FlattenOne(15, [0], 5);
    FlattenOne(0, [], 5);
    assert [14] + [20, 15, 0] == [14, 20, 15, 0] && [20] + [15, 0] == [20, 15, 0] && [15] + [0] == [15, 0];
    assert [0] + [] == [0];
  }

  lemma KnownDigitBits()
    ensures var t, f := true, false;
            && NatBits(14, 5) == [f, t, t, t, f] && NatBits(20, 5) == [t, f, t, f, f]
            && NatBits(15, 5) == [f, t, t, t, t] && NatBits(0, 5) == [f, f, f, f, f]
  {
    hide NatBits;
    FirstDigitBits();
    LastDigitBits();
  }

  lemma FirstDigitBits()
    ensures NatBits(14, 5) == [false, true, true, true, false] && NatBits(20, 5) == [true, false, true, false, false]
  {
  }

  lemma LastDigitBits()
    ensures NatBits(15, 5) == [false, true, true, true, true] && NatBits(0, 5) == [false, false, false, false, false]
  {
  }

  lemma KnownBytes()
    ensures var t, f := true, false;
            Flatten([0x75, 0x1e], 8) == [f, t, t, t, f, t, f, t] + [f, f, f, t, t, t, t, f]
  {
    hide NatBits, Flatten;
    FirstByteBits();
    SecondByteBits();
    FlattenOne(0x75, [0x1e], 8);
    FlattenOne(0x1e, [], 8);
    assert [0x75] + [0x1e] == [0x75, 0x1e] && [0x1e] + [] == [0x1e];
  }

  lemma FirstByteBits()
    ensures NatBits(0x75, 8) == [false, true, true, true, false, true, false, true]
  {
    assert NatBits(7, 4) == [false, true, true, true];
  }

  lemma SecondByteBits()
    ensures NatBits(0x1e, 8) == [false, false, false, true, true, true, true, false]
  {
    assert NatBits(1, 4) == [false, false, false, true];
  }

  lemma FlattenOne(d: nat, rest: seq<nat>, k: nat)
    ensures Flatten([d] + rest, k) == NatBits(d, k) + Flatten(rest, k) && Flatten([], k) == []
  {
    assert ([d] + rest)[1..] == rest;
  }

  /** The shortest valid address decodes to its script. */
  lemma KnownAddress()
    ensures AddrToScript("BC" + "1" + "SW50Q" + "A3JX3S") == Some([0x60, 0x02] + [0x75, 0x1e])
  {
    var addr := "BC" + "1" + "SW50Q" + "A3JX3S";
    OnlyLastOne(addr, 2);
    KnownDigits();
    assert addr[..2] == "BC" && addr[3..|addr| - 6] == "SW50Q" && |addr| == 14;
    KnownSpelling();
    hide AddrToScript, DataDigits, Lower, Chars, LastOne;
    AddressDecodes(addr, 16, [0x75, 0x1e]);
  }

  lemma KnownSpelling()
    ensures Lower("BC") == "bc" && Lower("SW50Q") == "sw50q" == Chars([16, 14, 20, 15, 0])
  {
  }

  // --------------------------------------------------------------- the procedures

  lemma ToBytesStep(b: Bits)
    requires |b| >= 8
    ensures BitsVal(b[..8]) < 256 && ToBytes(b) == [BitsVal(b[..8])] + ToBytes(b[8..])
  {
    Pow2Values();
    var n := (|b| + 7) / 8;
    assert Pad8(b)[..8] == b[..8] && Pad8(b)[8..] == Pad8(b[8..]);
    assert Chunks(Pad8(b), 8, n) == [BitsVal(b[..8])] + Chunks(Pad8(b[8..]), 8, n - 1);
    assert ToBytes(b)[0] == BitsVal(b[..8]) && ToBytes(b)[1..] == ToBytes(b[8..]);
  }

  lemma OneChunk(p: Bits, k: nat)
    requires |p| == k * 1
    ensures Chunks(p, k, 1) == [BitsVal(p)]
  {
    hide BitsVal;
    assert p[..k] == p;
    assert Chunks(p[k..], k, 0) == [];
  }

  lemma ToBytesLast(b: Bits)
    requires 0 < |b| < 8
    ensures BitsVal(b + Zeros(8 - |b|)) < 256 && ToBytes(b) == [BitsVal(b + Zeros(8 - |b|))]
  {
    hide BitsVal, Chunks, Zeros, AsBytes;
    var p := Pad8(b);
    assert (|b| + 7) / 8 == 1;
    assert p == b + Zeros(8 - |b|);
    SmallVal(p);
    OneChunk(p, 8);
  }

  lemma PushBit(b: Bits, x: bool)
    ensures BitsVal(b + [x]) == 2 * BitsVal(b) + if x then 1 else 0
  {
    assert (b + [x])[..|b|] == b;
  }

  lemma {:induction false} SmallVal(b: Bits)
    requires |b| <= 8
    ensures BitsVal(b) < 256
  {
    Pow2Values();
    Pow2Grows(|b|, 8);
  }

  lemma {:induction false} Pow2Grows(a: nat, b: nat)
    requires a <= b
    ensures Pow2(a) <= Pow2(b)
    decreases b
  {
    if a < b {
      Pow2Grows(a, b - 1);
    }
  }

  /** The first loop of `bitstream_to_bytes`: whole bytes leave the accumulator,
      `rest` bits stay in it. */
  method ShiftIn(bits: Bits) returns (out: Bytes, acc: byte, bitctr: nat, ghost rest: Bits)
    ensures |rest| == bitctr < 8 && acc == BitsVal(rest)
    ensures ToBytes(bits) == out + ToBytes(rest)
  {
    hide BitsVal, ToBytes;
    out, bitctr, acc, rest := [], 0, 0, [];
    EmptyVal();
    assert [] + bits[0..] == bits;
    for b := 0 to |bits|
      invariant |rest| == bitctr < 8 && acc == BitsVal(rest)
      invariant ToBytes(bits) == out + ToBytes(rest + bits[b..])
    {
      MoveBit(rest, bits, b);
      acc := acc as nat * 2 + if bits[b] then 1 else 0;
      rest := rest + [bits[b]];
      bitctr := bitctr + 1;
      if bitctr == 8 {
        EmitByte(out, rest, bits[b + 1..]);
        bitctr := 0;
        out := out + [acc];
        acc := 0;
        rest := [];
      }
    }
    assert rest + bits[|bits|..] == rest;
  }

  lemma MoveBit(rest: Bits, bits: Bits, b: nat)
    requires b < |bits| && |rest| < 8
    ensures rest + bits[b..] == rest + [bits[b]] + bits[b + 1..]
    ensures BitsVal(rest + [bits[b]]) == 2 * BitsVal(rest) + (if bits[b] then 1 else 0) < 256
  {
    hide *;
    MoveFirst(rest, bits[b..]);
    assert bits[b..][1..] == bits[b + 1..];
    PushBit(rest, bits[b]);
    SmallVal(rest + [bits[b]]);
  }

  lemma MoveFirst(rest: Bits, tail: Bits)
    requires tail != []
    ensures rest + tail == rest + [tail[0]] + tail[1..]
  {
    hide *;
    assert tail == [tail[0]] + tail[1..];
  }

  lemma EmitByte(out: Bytes, rest: Bits, tail: Bits)
    requires |rest| == 8
    ensures BitsVal(rest) < 256
    ensures out + ToBytes(rest + tail) == out + [BitsVal(rest)] + ToBytes([] + tail)
  {
    hide ToBytes, BitsVal;
    var all := rest + tail;
    assert all[..8] == rest && all[8..] == [] + tail;
    ToBytesStep(all);
  }

  lemma EmptyVal()
    ensures BitsVal([]) == 0 && ToBytes([]) == []
  {
  }

  /** `bitstream_to_bytes`: shift bits into an 8-bit accumulator, then zeros. */
  method BitstreamToBytes(bits: Bits) returns (out: Bytes)
    ensures out == ToBytes(bits)
  {
    hide BitsVal, ToBytes;
    var acc, bitctr;
    ghost var tail;
    out, acc, bitctr, tail := ShiftIn(bits);
    if bitctr == 0 {
      EmptyVal();
      assert tail == [];
      return;
    }
    ghost var pad := 0;
    ToBytesLast(tail);
    assert tail + Zeros(0) == tail;
    while bitctr != 8
      invariant |tail| + pad == bitctr <= 8
      invariant acc == BitsVal(tail + Zeros(pad))
      decreases 8 - bitctr
    {
      assert tail + Zeros(pad + 1) == tail + Zeros(pad) + [false];
      PushBit(tail + Zeros(pad), false);
      SmallVal(tail + Zeros(pad) + [false]);
      acc := acc as nat * 2;
      bitctr := bitctr + 1;
      pad := pad + 1;
    }
    out := out + [acc];
  }

  method FindSeparator(s: string) returns (sep: int)
    ensures sep == LastOne(s)
  {
    sep := |s| - 1;
    while sep >= 0 && s[sep] != '1'
      invariant -1 <= sep < |s| && forall j :: sep < j < |s| ==> s[j] != '1'
    {
      sep := sep - 1;
    }
  }

  method DecodeData(part: string) returns (data: Option<Bits>)
    ensures data == match Values(part) case None => None case Some(digits) => Some(Flatten(digits, 5))
  {
    hide DecodeChar, Flatten, NatBits;
    var bits: Bits := [];
    ghost var digits: seq<nat> := [];
    assert Flatten([], 5) == [];
    for p := 0 to |part|
      invariant Values(part[..p]) == Some(digits) && bits == Flatten(digits, 5)
    {
      var val := DecodeChar(part[p]);
      assert part[..p + 1][..p] == part[..p];
      if val < 0 {
        ValuesPrefix(part, p + 1);
        return None;
      }
      FlattenSnoc(digits, val, 5);
      bits := bits + NatBits(val, 5);
      digits := digits + [val];
    }
    assert part[..|part|] == part;
    data := Some(bits);
  }

  /** `Util::Bech32::decode`. */
  method DecodeString(s: string) returns (r: Option<Decoded>)
    ensures r == Decode(s)
  {
    hide Values, Flatten, LastOne;
    var sep := FindSeparator(s);
    if sep < 0 || sep + 1 >= |s| - 6 {
      return None;
    }
    var data := DecodeData(s[sep + 1..|s| - 6]);
    if data.None? {
      return None;
    }
    r := Some(Decoded(Lower(s[..sep]), data.value));
  }

  lemma {:induction false} ValuesPrefix(s: string, k: nat)
    requires k <= |s| && Values(s[..k]).None?
    ensures Values(s).None?
    decreases |s| - k
  {
    if k < |s| {
      assert s[..k + 1][..k] == s[..k];
      ValuesPrefix(s, k + 1);
    } else {
      assert s[..k] == s;
    }
  }

  lemma {:induction false} FlattenSnoc(digits: seq<nat>, d: nat, k: nat)
    ensures Flatten(digits + [d], k) == Flatten(digits, k) + NatBits(d, k)
  {
    if digits != [] {
      assert (digits + [d])[1..] == digits[1..] + [d];
      FlattenSnoc(digits[1..], d, k);
    } else {
      assert Flatten([d], k) == NatBits(d, k) + Flatten([], k);
    }
  }

  /** `addr_to_scriptPubKey`. */
  method AddrToScriptPubKey(addr: string) returns (script: Option<Bytes>)
    ensures script == AddrToScript(addr)
  {
    hide Decode, ToBytes;
    var decoded := DecodeString(addr);
    if decoded.None? {
      return None;
    }
    var data := decoded.value.data;
    if !KnownHrp(decoded.value.hrp) || |data| < 5 {
      return None;
    }
    var first := BitstreamToBytes(data[..5]);
    var version := first[0] / 8;
    var ok := (version == 0 && (|data| == 5 + 160 || |data| == 5 + 260))
           || (version == 1 && |data| == 5 + 260)
           || 2 <= version <= 16;
    if !ok {
      return None;
    }
    var size := (|data| - 5) / 8;
    if !(2 <= size <= 40) {
      return None;
    }
    var padding := data[5 + 8 * size..];
    if AnySet(padding) || |padding| >= 5 {
      return None;
    }
    var program := BitstreamToBytes(data[5..5 + 8 * size]);
    script := Some([if version == 0 then 0x00 else 0x50 + version, size] + program);
  }
}
