/** Bit and binary-coded-decimal helpers of the driver (BinaryHelper.cpp).
    A register byte of the chip is a `bv8`; the BCD conversions take and return
    a 16-bit signed integer, as the C++ functions do, with C's truncating
    division and the 16-bit wrap-around written out. */
module BinaryHelper {

  /** An 8-bit register value (uint8_t). */
  type byte = bv8

  /** A 16-bit signed integer (int16_t). */
  newtype int16 = x: int | -0x8000 <= x < 0x8000

  /** A bit position inside a byte. */
  type BitIndex = b: nat | b < 8

  /** C's integer division, which truncates toward zero: the quotient times
      the divisor never passes the dividend, and falls short of it by less
      than one divisor. */
  function TruncDiv(a: int, b: int): (q: int)
    requires b > 0
    ensures a >= 0 ==> 0 <= q && q * b <= a < q * b + b
    ensures a < 0 ==> q <= 0 && q * b - b < a <= q * b
  {
    if a >= 0 then
      EuclidBounds(a, b);
      a / b
    else
      EuclidBounds(-a, b);
      -((-a) / b)
  }

  /** The bounds of Euclidean division for a non-negative dividend. */
  lemma EuclidBounds(a: int, b: int)
    requires a >= 0 && b > 0
    ensures 0 <= a / b && (a / b) * b <= a < (a / b) * b + b
  {
    var q, m := a / b, a % b;
    assert q * b + m == a && 0 <= m < b;
    if q < 0 {
      NegativeProduct(q, b);
    }
  }

  lemma NegativeProduct(q: int, b: int)
    requires q < 0 && b > 0
    ensures q * b < 0
  {
  }

  /** C's remainder, which takes the sign of the dividend and completes the
      quotient to the dividend. */
  function TruncRem(a: int, b: int): (r: int)
    requires b > 0
    ensures TruncDiv(a, b) * b + r == a
    ensures a >= 0 ==> 0 <= r < b
    ensures a < 0 ==> -b < r <= 0
  {
    a - TruncDiv(a, b) * b
  }

  /** Conversion of an integer result back to int16_t (two's complement wrap). */
  function Wrap16(x: int): (r: int16)
    ensures -0x8000 <= x < 0x8000 ==> r as int == x
  {
    (((x + 0x8000) % 0x10000) - 0x8000) as int16
  }

  /** Conversion of an integer to uint8_t: the low eight bits are kept. */
  function ToByte(x: int): (r: byte)
    ensures r as int == x % 256
  {
    ByteOf(x % 256)
  }

  /** A value that fits a byte is kept as it is. */
  lemma ToByteOfSmall(x: int)
    requires 0 <= x < 256
    ensures ToByte(x) as int == x
  {
  }

  /** The byte whose value is n, built by counting up from zero. */
  function ByteOf(n: int): (r: byte)
    requires 0 <= n < 256
    ensures r as int == n
  {
    if n == 0 then 0 else Successor(ByteOf(n - 1))
  }

  /** One more than a byte below 255. */
  function Successor(b: byte): (r: byte)
    requires b < 255
    ensures r as int == b as int + 1
  {
    b + 1
  }

  /** Promotion of a uint8_t argument to int16_t. */
  function ToInt16(b: byte): (r: int16)
    ensures r as int == b as int && 0 <= r < 0x100
  {
    b as int as int16
  }

  /** True when both nibbles of a byte value are decimal digits. */
  predicate IsBcd(value: int16)
  {
    0 <= value < 0x100 && value as int / 16 <= 9 && value as int % 16 <= 9
  }

  /** fromDecimalToBcd: the tens digit goes to the high nibble, the units to the low one. */
  function FromDecimalToBcd(value: int16): (r: int16)
    ensures 0 <= value <= 99 ==>
              IsBcd(r) && r <= 0x99 &&
              r as int / 16 == value as int / 10 && r as int % 16 == value as int % 10
  {
    TwoDigits(value as int);
    Wrap16(TruncDiv(value as int, 10) * 16 + TruncRem(value as int, 10))
  }

  /** For 0 .. 99 the tens digit times 16 plus the units digit is a BCD byte
      holding those digits. */
  lemma TwoDigits(v: int)
    ensures 0 <= v <= 99 ==>
              var x := TruncDiv(v, 10) * 16 + TruncRem(v, 10);
              0 <= x <= 0x99 && x / 16 == v / 10 && x % 16 == v % 10
  {
    if 0 <= v <= 99 {
      var q, u := v / 10, v % 10;
      assert TruncDiv(v, 10) == q && TruncRem(v, 10) == u;
      assert 0 <= q <= 9 && 0 <= u <= 9;
      var x := q * 16 + u;
      assert x / 16 == q && x % 16 == u;
    }
  }

  /** fromBcdToDecimal: the high nibble counts tens, the low nibble units. */
  function FromBcdToDecimal(value: int16): (r: int16)
    ensures IsBcd(value) ==> 0 <= r <= 99 && FromDecimalToBcd(r) == value
    ensures 0 <= value < 0x100 ==> 0 <= r <= 165
  {
    TruncDivBound(value as int);
    (TruncDiv(value as int, 16) * 10 + TruncRem(value as int, 16)) as int16
  }

  lemma TruncDivBound(v: int)
    requires -0x8000 <= v < 0x8000
    ensures -2048 <= TruncDiv(v, 16) <= 2047
    ensures -15 <= TruncRem(v, 16) <= 15
  {
  }

  /** setBitOn: the chosen bit becomes 1, every other bit keeps its value. */
  function SetBitOn(value: byte, bit: BitIndex): (r: byte)
    ensures IstBitSet(r, bit)
    ensures forall j: BitIndex :: j != bit ==> IstBitSet(r, j) == IstBitSet(value, j)
  {
    value | (1 << bit)
  }

  /** setBitOff: the chosen bit becomes 0, every other bit keeps its value. */
  function SetBitOff(value: byte, bit: BitIndex): (r: byte)
    ensures !IstBitSet(r, bit)
    ensures forall j: BitIndex :: j != bit ==> IstBitSet(r, j) == IstBitSet(value, j)
  {
    value & !(1 << bit)
  }

  /** toggleBit: the chosen bit is inverted, every other bit keeps its value. */
  function ToggleBit(value: byte, bit: BitIndex): (r: byte)
    ensures IstBitSet(r, bit) == !IstBitSet(value, bit)
    ensures forall j: BitIndex :: j != bit ==> IstBitSet(r, j) == IstBitSet(value, j)
  {
    value ^ (1 << bit)
  }

  /** istBitSet: the value of one bit, which is set exactly when masking the
      byte with that bit leaves something. */
  function IstBitSet(value: byte, bit: BitIndex): (on: bool)
    ensures on <==> value & (1 << bit) != 0
  {
    (value >> bit) & 1 == 1
  }

  /** A byte whose two nibbles are both decimal digits. */
  predicate IsBcdByte(b: byte)
  {
    b / 16 <= 9 && b % 16 <= 9
  }

  /** fromDecimalToBcd at a uint8_t call site: the argument is a byte and the
      result is narrowed to a byte, so the computation is the same one taken
      modulo 256 (see EncodeBcdAgrees). */
  function EncodeBcd(value: byte): (r: byte)
    ensures value <= 99 ==> IsBcdByte(r) && r / 16 == value / 10 && r % 16 == value % 10
  {
    (value / 10) * 16 + value % 10
  }

  /** fromBcdToDecimal at a uint8_t call site; for a byte argument the result
      never exceeds 165, so narrowing it loses nothing (see DecodeBcdAgrees). */
  function DecodeBcd(b: byte): (r: byte)
    ensures r <= 165
    ensures IsBcdByte(b) ==> r <= 99 && EncodeBcd(r) == b
  {
    (b / 16) * 10 + b % 16
  }

  /** EncodeBcd is fromDecimalToBcd of the promoted argument, narrowed to uint8_t. */
  lemma EncodeBcdAgrees(value: byte)
    ensures EncodeBcd(value) == ToByte(FromDecimalToBcd(ToInt16(value)) as int)
  {
    var v := value as int;
    var x := FromDecimalToBcd(ToInt16(value)) as int;
    EncodeBcdValue(value);
    NonNegativeBcd(ToInt16(value));
    NoCarryIntoHighNibble(v);
    assert x % 256 == EncodeBcd(value) as int;
    SameValueSameByte(EncodeBcd(value), ToByte(x));
  }

  /** The integer value of EncodeBcd: the tens digit times 16, modulo 256, plus the units. */
  lemma EncodeBcdValue(value: byte)
    ensures EncodeBcd(value) as int == ((value as int / 10) * 16) % 256 + value as int % 10
  {
    var q, r := value / 10, value % 10;
    DivModTen(value);
    TimesSixteen(q);
    HighNibblePlusLow(q * 16, r);
  }

  lemma NoCarryIntoHighNibble(v: int)
    requires 0 <= v < 256
    ensures ((v / 10) * 16 + v % 10) % 256 == ((v / 10) * 16) % 256 + v % 10
  {
    var q := v / 10;
    if q < 16 {
      assert (q * 16 + v % 10) % 256 == q * 16 + v % 10;
    } else {
      assert (q * 16 + v % 10) % 256 == q * 16 + v % 10 - 256;
      assert (q * 16) % 256 == q * 16 - 256;
    }
  }

  /** For a non-negative argument below 256 no C truncation or 16-bit wrap occurs. */
  lemma NonNegativeBcd(v: int16)
    requires 0 <= v < 0x100
    ensures FromDecimalToBcd(v) as int == (v as int / 10) * 16 + v as int % 10
  {
  }

  /** DecodeBcd is fromBcdToDecimal of the promoted argument; no narrowing occurs. */
  lemma DecodeBcdAgrees(b: byte)
    ensures DecodeBcd(b) as int == FromBcdToDecimal(ToInt16(b)) as int
  {
    var q, r := b / 16, b % 16;
    DivModSixteen(b);
    TimesTen(q);
    SmallSum(q * 10, r);
  }

  lemma DivModTen(v: byte)
    ensures (v / 10) as int == v as int / 10 && (v % 10) as int == v as int % 10
  {
  }

  lemma DivModSixteen(v: byte)
    ensures (v / 16) as int == v as int / 16 && (v % 16) as int == v as int % 16
  {
  }

  lemma TimesSixteen(a: byte)
    ensures (a * 16) as int == (a as int * 16) % 256 && (a * 16) % 16 == 0
  {
  }

  lemma TimesTen(a: byte)
    requires a < 16
    ensures (a * 10) as int == a as int * 10 && a * 10 <= 150
  {
  }

  lemma HighNibblePlusLow(a: byte, b: byte)
    requires a % 16 == 0 && b < 16
    ensures (a + b) as int == a as int + b as int
  {
  }

  lemma SmallSum(a: byte, b: byte)
    requires a <= 150 && b < 16
    ensures (a + b) as int == a as int + b as int
  {
  }

  lemma SameValueSameByte(a: byte, b: byte)
    requires a as int == b as int
    ensures a == b
  {
    assert (a as int) as bv8 == a;
    assert (b as int) as bv8 == b;
  }

  /** Decoding undoes encoding for every value with two decimal digits. */
  lemma BcdRoundTrip(v: int16)
    requires 0 <= v <= 99
    ensures FromBcdToDecimal(FromDecimalToBcd(v)) == v
  {
  }

  /** The same round trip at the uint8_t call sites. */
  lemma BcdByteRoundTrip(v: byte)
    requires v <= 99
    ensures DecodeBcd(EncodeBcd(v)) == v
  {
  }

  /** Toggling the same bit twice gives the byte back. */
  lemma ToggleTwice(value: byte, bit: BitIndex)
    ensures ToggleBit(ToggleBit(value, bit), bit) == value
  {
  }

  /** Clearing a bit that is already clear changes nothing. */
  lemma SetBitOffClear(value: byte, bit: BitIndex)
    requires !IstBitSet(value, bit)
    ensures SetBitOff(value, bit) == value
  {
  }
}
