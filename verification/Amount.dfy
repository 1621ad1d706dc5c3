/** `Ln::Amount`: an unsigned 64-bit count of millisatoshi.  Additions and
    subtractions saturate; the satoshi conversions wrap like the machine words
    they are computed in. */
module Amounts {
  const TWO64: nat := 0x1_0000_0000_0000_0000
  const MAX_AMOUNT: nat := TWO64 - 1

  /** A 64-bit word, in millisatoshi. */
  type Amount = v: nat | v <= MAX_AMOUNT

  function Wrap64(v: nat): Amount {
    v % TWO64
  }

  /** `operator+`: the wrapped sum is replaced by the maximum when it is smaller
      than an operand. */
  function SatAdd(a: Amount, b: Amount): Amount {
    var v := Wrap64(a + b);
    if v < b then MAX_AMOUNT else v
  }

  /** `operator-`. */
  function SatSub(a: Amount, b: Amount): Amount {
    if b > a then 0 else a - b
  }

  /** `Amount::sat`. */
  function FromSat(sat: Amount): Amount {
    Wrap64(sat * 1000)
  }

  /** `to_sat`: rounds up, in wrapping arithmetic. */
  function ToSat(v: Amount): Amount {
    Wrap64(v + 999) / 1000
  }

  /** The wrap-around test really computes a capped sum, so that addition never
      decreases its left operand and is monotone in it. */
  lemma SatAddIsCappedSum(a: Amount, b: Amount)
    ensures SatAdd(a, b) == if a + b <= MAX_AMOUNT then a + b else MAX_AMOUNT
  {
    if a + b >= TWO64 {
      assert Wrap64(a + b) == a + b - TWO64;
    }
  }

  lemma FromSatExact(sat: Amount)
    requires sat * 1000 <= MAX_AMOUNT
    ensures FromSat(sat) == sat * 1000
  {
  }

  predicate WholeSatoshi(v: Amount) {
    v % 1000 == 0 && v + 999 <= MAX_AMOUNT
  }

  /** Converting to satoshi and back is the identity exactly on whole satoshi
      amounts whose rounding does not wrap.  The largest multiple of 1000 is not
      one of them. */
  lemma SatRoundTrip(v: Amount)
    ensures FromSat(ToSat(v)) == v <==> WholeSatoshi(v)
    ensures ToSat(v) * 1000 <= MAX_AMOUNT
  {
    if v + 999 <= MAX_AMOUNT {
      assert ToSat(v) == (v + 999) / 1000;
      assert FromSat(ToSat(v)) == (v + 999) / 1000 * 1000;
    } else {
      assert Wrap64(v + 999) == v + 999 - TWO64;
      assert ToSat(v) == 0;
    }
  }
}
