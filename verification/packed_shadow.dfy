/** The CoinTossX adapter's shadow: side, price and residual of a resting order packed into
    one signed 64-bit value, kept in step with a map of records. */
module PackedShadow {
  import opened Basics
  import opened Contract
  import opened Shadow

  const TWO_33: int := 0x2_0000_0000
  const TWO_63: int := 0x8000_0000_0000_0000
  const PRICE_BOUND: int := 0x4000_0000

  /** The value of a Java long after wrap-around. */
  function Wrap64(x: int): int {
    (x + TWO_63) % TWO_64 - TWO_63
  }

  /** (price << 33) | (side << 32) | (residual & mask): the three fields do not overlap. */
  function Pack(price: int, side: Side, residual: nat): int {
    Wrap64(price * TWO_33) + side.Code() * TWO_32 + residual % TWO_32
  }

  /** v >> 33 is a signed shift. */
  function UnpackPrice(v: int): int {
    v / TWO_33
  }

  /** (v >>> 32) & 1 */
  function UnpackSide(v: int): Side {
    if (v / TWO_32) % 2 == 0 then Buy else Sell
  }

  function UnpackResidual(v: int): nat {
    v % TWO_32
  }

  predicate PriceFits(price: int) {
    -PRICE_BOUND <= price < PRICE_BOUND
  }

  /** The price the packed value gives back: the low 31 bits of the price, read as a signed number. */
  function Narrow(price: int): (p: int)
    ensures -PRICE_BOUND <= p < PRICE_BOUND && (p == price <==> PriceFits(price))
  {
    (price + PRICE_BOUND) % (2 * PRICE_BOUND) - PRICE_BOUND
  }

  lemma ShiftedPrice(price: int)
    ensures Wrap64(price * TWO_33) == Narrow(price) * TWO_33
  {
    var two31 := 2 * PRICE_BOUND;
    var q := (price + PRICE_BOUND) / two31;
    var k := Narrow(price);
    assert k == price - q * two31;
    WrapOf(k * TWO_33, q);
    assert price * TWO_33 == k * TWO_33 + q * TWO_64;
  }

  lemma WrapOf(x: int, q: int)
    requires -TWO_63 <= x < TWO_63
    ensures Wrap64(x + q * TWO_64) == x
  {}

  /** Side and residual always come back. The price comes back narrowed, which is itself exactly
      when it is in [-2^30, 2^30): the shift back is signed, so one of the 31 price bits is the
      sign. */
  lemma PackRoundTrip(price: int, side: Side, residual: nat)
    requires residual < TWO_32
    ensures var v := Pack(price, side, residual);
            && UnpackSide(v) == side && UnpackResidual(v) == residual
            && UnpackPrice(v) == Narrow(price) && (UnpackPrice(v) == price <==> PriceFits(price))
            && -TWO_63 <= v < TWO_63
            && (residual > 0 ==> v != 0)
  {
    hide Wrap64;
    ShiftedPrice(price);
    var k := Narrow(price);
    var low := side.Code() * TWO_32 + residual;
    assert Pack(price, side, residual) == k * TWO_33 + low && 0 <= low < TWO_33;
    assert (k * TWO_33 + low) / TWO_33 == k;
    assert (k * TWO_33 + low) / TWO_32 == 2 * k + side.Code();
  }
}
