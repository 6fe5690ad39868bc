/** The clock part of RealTimeClock.cpp: the seven date/time registers at
    0x00..0x06 with the century bit in the month register, the day-of-week
    formula, the oscillator-stop flag and the temperature-conversion request.
    The control and status toggles of the same class are in ClockControl. */
module RealTimeClock {
  import opened BinaryHelper
  import opened BaseClock
  import Calendar

  /** The date and time setDateTime takes. */
  datatype DateTime = DateTime(year: int16, month: byte, day: byte, hour: byte, minute: byte, second: byte)

  /** What the getters return after syncDateTime: the date and time, and the
      day of the week held by the chip. */
  datatype ClockReading = ClockReading(time: DateTime, dayOfWeek: byte)

  /** The month register's century bit. */
  const Century: byte := 0x80

  /** The mask syncDateTime applies to the month register. */
  const MonthMask: byte := 0x1F

  /** The number of date/time registers. */
  const DateLength: nat := 7

  /** Sakamoto's month offsets, t[] of calculateDayOfWeek. */
  const MonthOffsets: seq<int> := [0, 3, 2, 5, 0, 3, 5, 1, 4, 6, 2, 4]

  /** The sum calculateDayOfWeek reduces modulo 7, in C arithmetic: the year
      is an int16_t decremented for January and February, the divisions
      truncate. From year 1 on it is never negative, and up to year 26000 it
      stays below 0x8000. (For year -32768 in January or February the
      decrement wraps to 32767.) */
  function SakamotoSum(year: int16, month: int, day: int): (sum: int)
    requires 1 <= month <= 12
    ensures year >= 1 && day >= 0 ==> sum >= 0
    ensures -0x8000 < year <= 26000 && day <= 255 ==> sum < 0x8000
  {
    var y := Wrap16(year as int - (if month < 3 then 1 else 0)) as int;
    y + TruncDiv(y, 4) - TruncDiv(y, 100) + TruncDiv(y, 400) + MonthOffsets[month - 1] + day
  }

  /** calculateDayOfWeek: Sakamoto's formula, the truncating remainder of
      SakamotoSum narrowed to a uint8_t; Sunday is 0. The month indexes t[],
      so it must be 1 .. 12. */
  function CalculateDayOfWeek(year: int16, month: byte, day: byte): (r: byte)
    requires 1 <= month as int <= 12
    ensures year >= 1 ==> r as int == SakamotoSum(year, month as int, day as int) % 7
  {
    var sum := SakamotoSum(year, month as int, day as int);
    RemainderOfNonNegative(sum);
    ToByte(TruncRem(sum, 7))
  }

  /** For a non-negative sum the truncating remainder is the Euclidean one,
      and it survives the narrowing to a byte. */
  lemma RemainderOfNonNegative(sum: int)
    ensures sum >= 0 ==> TruncRem(sum, 7) == sum % 7 && ToByte(sum % 7) as int == sum % 7
  {
    var k := sum % 7;
    assert 0 <= k < 7;
    ToByteOfSmall(k);
  }

  lemma ShiftBySevens(a: int, k: int)
    ensures (a + 7 * k) % 7 == a % 7
  {
  }

  /** Each month's offset differs from the days before that month in a
      common year by a multiple of 7, less one from March on. */
  lemma MonthOffsetCorrection(month: int)
    requires 1 <= month <= 12
    ensures (Calendar.CommonDaysBefore[month - 1] - MonthOffsets[month - 1]
             - (if month >= 3 then 1 else 0)) % 7 == 0
  {
    if month == 1 {
    } else if month == 2 {
    } else if month == 3 {
    } else if month == 4 {
    } else if month == 5 {
    } else if month == 6 {
    } else if month == 7 {
    } else if month == 8 {
    } else if month == 9 {
    } else if month == 10 {
    } else if month == 11 {
    } else {
    }
  }

  /** Sakamoto's sum and the Gregorian day number agree modulo 7 from year 1 on. */
  lemma {:induction false} SakamotoSumIsGregorian(year: int16, month: int, day: int)
    requires year >= 1 && 1 <= month <= 12
    ensures SakamotoSum(year, month, day) % 7 == Calendar.DayNumber(year as int, month, day) % 7
  {
    var y := year as int;
    var offset := MonthOffsets[month - 1];
    var correction := Calendar.CommonDaysBefore[month - 1] - offset - (if month >= 3 then 1 else 0);
    MonthOffsetCorrection(month);
    Calendar.DaysBeforeYearClosed(y);
    Calendar.DaysBeforeMonthClosed(y, month);
    Calendar.LeapYearStep(y);
    var sum := SakamotoSum(year, month, day);
    if month < 3 {
      assert sum == (y - 1) + Calendar.LeapYearsUpTo(y - 1) + offset + day;
    } else {
      assert sum == y + Calendar.LeapYearsUpTo(y) + offset + day;
    }
    assert Calendar.DayNumber(y, month, day) == sum + 7 * (52 * (y - 1) + correction / 7);
    ShiftBySevens(sum, 52 * (y - 1) + correction / 7);
  }

  /** For every year from 1 on, calculateDayOfWeek is the weekday of the date
      in the proleptic Gregorian calendar (Sunday = 0). */
  lemma DayOfWeekIsGregorian(year: int16, month: byte, day: byte)
    requires year >= 1 && 1 <= month as int <= 12
    ensures CalculateDayOfWeek(year, month, day) as int ==
            Calendar.DayNumber(year as int, month as int, day as int) % 7
  {
    SakamotoSumIsGregorian(year, month as int, day as int);
  }

  /** The year register: the year less 2000 (with the century bit) after
      2000, less 1900 otherwise, as fromDecimalToBcd of the int16_t narrowed
      to a byte. Year 2000 itself takes the 1900 branch. For the years 1900
      .. 2159 the offset's tens digit is the high nibble and its units digit
      the low one. */
  function YearRegister(year: int16): (r: byte)
    ensures 1900 <= year <= 2159 ==>
              var offset := year as int - (if year > 2000 then 2000 else 1900);
              r as int == (offset / 10) * 16 + offset % 10
  {
    var offset := if year > 2000 then Wrap16(year as int - 2000) else Wrap16(year as int - 1900);
    StorableYearOffset(year, offset);
    ToByte(FromDecimalToBcd(offset) as int)
  }

  lemma StorableYearOffset(year: int16, offset: int16)
    requires offset == if year > 2000 then Wrap16(year as int - 2000) else Wrap16(year as int - 1900)
    ensures 1900 <= year <= 2159 ==>
              var v := year as int - (if year > 2000 then 2000 else 1900);
              ToByte(FromDecimalToBcd(offset) as int) as int == (v / 10) * 16 + v % 10
  {
    if 1900 <= year <= 2159 {
      var v := year as int - (if year > 2000 then 2000 else 1900);
      assert offset as int == v && 0 <= v <= 159;
      YearOffsetEncoded(offset);
    }
  }

  /** The seven bytes setDateTime writes from 0x00 on. */
  function EncodeDateTime(t: DateTime, dayOfWeek: byte): (block: seq<byte>)
    ensures |block| == DateLength
    ensures block[5] == EncodeBcd(t.month) | (if t.year > 2000 then Century else 0)
    ensures block[6] == YearRegister(t.year)
  {
    [EncodeBcd(t.second), EncodeBcd(t.minute), EncodeBcd(t.hour), EncodeBcd(dayOfWeek),
     EncodeBcd(t.day), EncodeBcd(t.month) | (if t.year > 2000 then Century else 0),
     YearRegister(t.year)]
  }

  /** The reading syncDateTime decodes from the seven bytes at 0x00: the
      year register counts from 2000 when the century bit is set and from
      1900 otherwise. */
  function DecodeDateTime(block: seq<byte>): (r: ClockReading)
    requires |block| == DateLength
    ensures 1900 <= r.time.year as int <= 2165
    ensures block[5] & Century != 0 ==> r.time.year >= 2000
    ensures block[5] & Century == 0 ==> r.time.year <= 2065
  {
    var monthAndCentury := block[5];
    var yearValue := ToInt16(DecodeBcd(block[6]));
    ClockReading(DateTime((yearValue as int + (if monthAndCentury & Century != 0 then 2000 else 1900)) as int16,
                          DecodeBcd(monthAndCentury & MonthMask), DecodeBcd(block[4]), DecodeBcd(block[2]),
                          DecodeBcd(block[1]), DecodeBcd(block[0])),
                 DecodeBcd(block[3]))
  }

  /** A year offset of up to 159 survives the trip through the year
      register: both of its digits fit a nibble. */
  lemma YearOffsetRoundTrip(v: int16)
    requires 0 <= v <= 159
    ensures ToInt16(DecodeBcd(ToByte(FromDecimalToBcd(v) as int))) == v
  {
    var b := ToByte(FromDecimalToBcd(v) as int);
    YearOffsetEncoded(v);
    YearOffsetDecoded(b, v);
  }

  lemma YearOffsetEncoded(v: int16)
    requires 0 <= v <= 159
    ensures ToByte(FromDecimalToBcd(v) as int) as int == (v as int / 10) * 16 + v as int % 10
  {
    var x := FromDecimalToBcd(v) as int;
    NonNegativeBcd(v);
    NibbleDigits(v as int);
    assert 0 <= x < 256;
    ToByteOfSmall(x);
  }

  lemma YearOffsetDecoded(b: byte, v: int16)
    requires 0 <= v <= 159 && b as int == (v as int / 10) * 16 + v as int % 10
    ensures DecodeBcd(b) as int == v as int
  {
    NibbleDigits(v as int);
    DecodeBcdAgrees(b);
    DecimalOfDigits(ToInt16(b), v);
  }

  lemma DecimalOfDigits(w: int16, v: int16)
    requires 0 <= v <= 159 && w as int == (v as int / 10) * 16 + v as int % 10
    requires w as int / 16 == v as int / 10 && w as int % 16 == v as int % 10
    ensures FromBcdToDecimal(w) == v
  {
  }

  lemma NibbleDigits(v: int)
    requires 0 <= v <= 159
    ensures var x := (v / 10) * 16 + v % 10;
            0 <= x < 256 && x / 16 == v / 10 && x % 16 == v % 10
  {
  }

  /** Dates the date registers can hold: a month 1 .. 12, every other field
      with two decimal digits, and a year from 1900 to 2159. */
  predicate Storable(t: DateTime)
  {
    1900 <= t.year as int <= 2159 && 1 <= t.month <= 12 &&
    t.day <= 99 && t.hour <= 99 && t.minute <= 99 && t.second <= 99
  }

  lemma MonthRoundTrip(month: byte, century: bool)
    requires 1 <= month <= 12
    ensures DecodeBcd((EncodeBcd(month) | (if century then Century else 0)) & MonthMask) == month
    ensures ((EncodeBcd(month) | (if century then Century else 0)) & Century != 0) == century
  {
  }

  /** Reading the registers back after setDateTime gives the date and time
      written and the day of the week written. */
  lemma {:induction false} WriteThenRead(t: DateTime, dayOfWeek: byte)
    requires Storable(t) && dayOfWeek <= 99
    ensures DecodeDateTime(EncodeDateTime(t, dayOfWeek)) == ClockReading(t, dayOfWeek)
  {
    var block := EncodeDateTime(t, dayOfWeek);
    BcdByteRoundTrip(t.second);
    BcdByteRoundTrip(t.minute);
    BcdByteRoundTrip(t.hour);
    BcdByteRoundTrip(t.day);
    BcdByteRoundTrip(dayOfWeek);
    MonthRoundTrip(t.month, t.year > 2000);
    YearRegisterRoundTrip(t.year);
  }

  /** Decoding the year register, with the century the year selected, gives the year. */
  lemma YearRegisterRoundTrip(year: int16)
    requires 1900 <= year as int <= 2159
    ensures ToInt16(DecodeBcd(YearRegister(year))) as int + (if year > 2000 then 2000 else 1900)
            == year as int
  {
    var base := if year > 2000 then 2000 else 1900;
    var offset := Wrap16(year as int - base);
    assert offset as int == year as int - base;
    YearOffsetRoundTrip(offset);
  }

  /** The century bit of the month register is set exactly for years after 2000. */
  lemma CenturyBit(t: DateTime, dayOfWeek: byte)
    requires 1 <= t.month <= 12
    ensures IstBitSet(EncodeDateTime(t, dayOfWeek)[5], 7) <==> t.year > 2000
  {
  }

  /** Year 2000 is stored as the BCD form of 100 (0xA0) with the century bit clear. */
  lemma YearTwoThousand(t: DateTime, dayOfWeek: byte)
    requires t.year == 2000 && 1 <= t.month <= 12
    ensures EncodeDateTime(t, dayOfWeek)[6] == 0xA0
    ensures !IstBitSet(EncodeDateTime(t, dayOfWeek)[5], 7)
  {
    var offset := Wrap16(t.year as int - 1900);
    assert offset as int == 100;
    NonNegativeBcd(offset);
    var x := FromDecimalToBcd(offset) as int;
    assert x == 160;
    var b := ToByte(x);
    assert YearRegister(t.year) == b;
    ToByteOfSmall(x);
    assert b as int == 160;
    StoredAsA0(b);
  }

  lemma StoredAsA0(b: byte)
    requires b as int == 160
    ensures b == 0xA0
  {
  }

  class RealTimeClock {
    var second: byte
    var minute: byte
    var hour: byte
    var day: byte
    var month: byte
    var dayOfWeek: byte
    var year: int16

    /** The values the getters getSecond .. getDayOfWeek return. */
    function Reading(): ClockReading
      reads this
    {
      ClockReading(DateTime(year, month, day, hour, minute, second), dayOfWeek)
    }

    /** wasItStopped: the oscillator-stop flag. */
    method WasItStopped(regs: array<byte>) returns (stopped: bool)
      requires IsRegisterFile(regs)
      ensures stopped == IstBitSet(regs[StatusAddress], OSF)
    {
      stopped := IstBitSet(regs[StatusAddress], OSF);
    }

    /** clearOscillatorStopFlag: clears OSF and no other status bit. */
    method ClearOscillatorStopFlag(regs: array<byte>)
      requires IsRegisterFile(regs)
      modifies regs
      ensures regs[..] == old(regs[..])[StatusAddress := SetBitOff(old(regs[StatusAddress]), OSF)]
      ensures !IstBitSet(regs[StatusAddress], OSF)
      ensures forall j: BitIndex :: j != OSF ==>
                IstBitSet(regs[StatusAddress], j) == old(IstBitSet(regs[StatusAddress], j))
    {
      var statusRegister := regs[StatusAddress];
      statusRegister := SetBitOff(statusRegister, OSF);
      regs[StatusAddress] := statusRegister;
    }

    /** setDateTime: stores the date with its computed day of the week, writes
      the seven date registers and clears the oscillator-stop flag. */
    method SetDateTime(year: int16, month: byte, day: byte, hour: byte, minute: byte, second: byte,
                       regs: array<byte>)
      requires IsRegisterFile(regs) && 1 <= month as int <= 12
      modifies this, regs
      ensures Reading() == ClockReading(DateTime(year, month, day, hour, minute, second),
                                        CalculateDayOfWeek(year, month, day))
      ensures regs[..] == Overwrite(old(regs[..]), DateAddress,
                                    EncodeDateTime(DateTime(year, month, day, hour, minute, second),
                                                   CalculateDayOfWeek(year, month, day)))
                          [StatusAddress := SetBitOff(old(regs[StatusAddress]), OSF)]
      ensures !IstBitSet(regs[StatusAddress], OSF)
    {
      var century: byte := 0;

      this.second := second;
      this.minute := minute;
      this.hour := hour;
      this.day := day;
      this.month := month;
      this.year := year;
      var weekday := CalculateDayOfWeek(year, month, day);
      dayOfWeek := weekday;

      var yearOffset := year;
      if yearOffset > 2000 {
        century := Century;
        yearOffset := Wrap16(yearOffset as int - 2000);
      } else {
        yearOffset := Wrap16(yearOffset as int - 1900);
      }

      WriteBurst(regs, DateAddress,
                 [EncodeBcd(second), EncodeBcd(minute), EncodeBcd(hour), EncodeBcd(weekday),
                  EncodeBcd(day), EncodeBcd(month) | century, ToByte(FromDecimalToBcd(yearOffset) as int)]);

      ClearOscillatorStopFlag(regs);
    }

    /** syncDateTime: decodes the seven date registers into the fields. */
    method SyncDateTime(regs: array<byte>)
      requires IsRegisterFile(regs)
      modifies this
      ensures Reading() == DecodeDateTime(regs[DateAddress..DateAddress + DateLength])
    {
      var block := regs[DateAddress..DateAddress + DateLength];
      second := DecodeBcd(block[0]);
      minute := DecodeBcd(block[1]);
      hour := DecodeBcd(block[2]);
      dayOfWeek := DecodeBcd(block[3]);
      day := DecodeBcd(block[4]);

      var monthAndCentury := block[5];

      month := DecodeBcd(monthAndCentury & MonthMask);
      var yearValue := ToInt16(DecodeBcd(block[6]));
      year := (yearValue as int + (if monthAndCentury & Century != 0 then 2000 else 1900)) as int16;
    }

    /** forceTemperatureUpdate: refuses while a conversion is busy (BSY) and
      then writes nothing; otherwise requests one by setting CONV. */
    method ForceTemperatureUpdate(regs: array<byte>) returns (started: bool)
      requires IsRegisterFile(regs)
      modifies regs
      ensures started == !old(IstBitSet(regs[StatusAddress], BSY))
      ensures !started ==> regs[..] == old(regs[..])
      ensures started ==> regs[..] == old(regs[..])[ControlAddress := SetBitOn(old(regs[ControlAddress]), CONV)]
    {
      var statusRegister := regs[StatusAddress];
      if IstBitSet(statusRegister, BSY) {
        return false;
      }
      var controlRegister := regs[ControlAddress];
      controlRegister := SetBitOn(controlRegister, CONV);
      regs[ControlAddress] := controlRegister;
      return true;
    }
  }
}
