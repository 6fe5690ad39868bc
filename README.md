# DS3231 real-time clock driver, modelled in Dafny

This project models the Arduino driver for the Maxim DS3231 real-time clock.
The driver talks to the chip over I2C. The model replaces the chip with its
register file: an `array<byte>` of the 19 registers 0x00 .. 0x12. Every bus
transaction of the driver becomes a read or a write of consecutive cells, so
a driver method takes that array as a parameter.

The modules follow the source files:

- `BinaryHelper` (BinaryHelper.cpp): bit helpers and the BCD conversions.
  - Bytes are `bv8`.
  - The `int16_t` conversions keep C's truncating division and the 16-bit
    wrap-around.
  - `EncodeBcd`/`DecodeBcd` are the same conversions at the `uint8_t` call
    sites. Two lemmas prove that they agree with the `int16_t` functions.
- `BaseClock` (BaseClock.h): the register map, the bit numbers, and the
  burst write of several consecutive registers.
- `BaseAlarm` (BaseAlarm.cpp): an alarm's enable bit in the control
  register and its flag in the status register.
- `Alarm1` (Alarm1.cpp) and `Alarm2` (Alarm2.cpp): classes whose fields are
  what their getters return. Each has an encoder and decoder of its register
  block, and lemmas relating the two.
- `RealTimeClock` (RealTimeClock.cpp):
  - the date registers and the century bit;
  - the oscillator-stop flag;
  - the temperature-conversion request;
  - the day-of-week formula, proved equal to the weekday of an independent
    proleptic Gregorian day count (module `Calendar`) for every year from 1 on.
- `ClockControl`: the battery, 32 kHz, battery-backed square wave,
  square wave and aging-offset operations. They are identical, word for word,
  in RealTimeClock.cpp:195-379 and RealTimeClockController.cpp:18-202, and
  each is modelled once. Every toggle has a pure function on the register byte
  that says which bits it sets, clears and keeps. The method is proved against
  that function.

Quirks of the source are kept as the code has them:

- A day-of-week write to alarm 2 remembers day of week 1 (the flag itself)
  instead of the day written.
- Enabling the square wave at 8192 Hz sets RS2 twice and never RS1. It reads
  back as 4096 Hz unless RS1 was already set.
- Year 2000 takes the 1900 branch. It is stored as 0xA0 without the century
  bit.
- A mask pattern the chip does not define leaves the alarm rate it had.
- Alarm 1's five-byte write ends in register 0x0B, the first register of
  alarm 2.
- Alarm 1 always enables INTCN and never clears it.

## Model

| member | source | states |
|---|---|---|
| BinaryHelper.FromDecimalToBcd | BinaryHelper.cpp:7-10 | for 0 .. 99 the result is valid BCD: the tens digit in the high nibble, the units in the low nibble |
| BinaryHelper.TruncDiv | BinaryHelper.cpp:9-14 | C's `/` on `int16_t`: the quotient is truncated toward zero, so quotient times divisor lies within one divisor of the dividend on the dividend's side of zero |
| BinaryHelper.TruncRem | BinaryHelper.cpp:9-14 | C's `%`: quotient times divisor plus remainder is the dividend, and the remainder has the dividend's sign and is smaller than the divisor |
| BinaryHelper.ToInt16 | RealTimeClock.cpp:76-82 | a uint8_t argument promoted to int16_t keeps its value, 0 .. 255 |
| BinaryHelper.FromBcdToDecimal | BinaryHelper.cpp:12-15 | a valid BCD input decodes to 0 .. 99 and re-encodes to itself; any byte decodes to at most 165 |
| BinaryHelper.BcdRoundTrip | BinaryHelper.cpp:7-15 | decoding undoes encoding for every value 0 .. 99 |
| BinaryHelper.EncodeBcd | BinaryHelper.cpp:7-10 | at a byte call site, values up to 99 give valid BCD with the right digits |
| BinaryHelper.DecodeBcd | BinaryHelper.cpp:12-15 | at a byte call site the result is at most 165; valid BCD decodes to 0 .. 99 and re-encodes to itself |
| BinaryHelper.EncodeBcdAgrees | BinaryHelper.cpp:7-10 | the byte encoding equals fromDecimalToBcd of the promoted byte, narrowed back to uint8_t, for every byte |
| BinaryHelper.DecodeBcdAgrees | BinaryHelper.cpp:12-15 | the byte decoding equals fromBcdToDecimal of the promoted byte, for every byte |
| BinaryHelper.BcdByteRoundTrip | BinaryHelper.cpp:7-15 | the byte-level round trip holds for 0 .. 99 |
| BinaryHelper.ToByte | RealTimeClock.cpp:82 | the int-to-uint8_t conversion keeps the value modulo 256 |
| BinaryHelper.Wrap16 | RealTimeClock.cpp:64-72 | the int16_t result of an arithmetic step equals the exact value whenever that value fits |
| BinaryHelper.SetBitOn | BinaryHelper.cpp:17-20 | the chosen bit is 1 and every other bit is unchanged |
| BinaryHelper.SetBitOff | BinaryHelper.cpp:22-25 | the chosen bit is 0 and every other bit is unchanged |
| BinaryHelper.SetBitOffClear | BinaryHelper.cpp:22-25 | clearing a bit that is already clear returns the byte unchanged |
| BinaryHelper.ToggleBit | BinaryHelper.cpp:27-30 | the chosen bit is inverted and every other bit is unchanged |
| BinaryHelper.ToggleTwice | BinaryHelper.cpp:27-30 | toggling the same bit twice gives the byte back |
| BinaryHelper.IstBitSet | BinaryHelper.cpp:32-35 | the shifted-and-masked bit is 1 exactly when masking the byte with that bit leaves a non-zero value |
| BaseClock.Overwrite | RealTimeClock.cpp:74-83 | a burst write changes exactly the cells from the start address on, one per byte, in order |
| BaseClock.WriteBurst | RealTimeClock.cpp:74-83 | writing the bytes one register at a time yields the burst-write register file |
| BaseAlarm.TurnedOn | BaseAlarm.cpp:69-78 | the alarm bit is set, INTCN is set when asked, and every other bit is kept |
| BaseAlarm.TurnedOff | BaseAlarm.cpp:87-96 | the alarm bit is cleared, INTCN is cleared when asked, and every other bit is kept |
| BaseAlarm.AfterTriggerCheck | BaseAlarm.cpp:109-122 | the flag bit is cleared and every other status bit is kept; a clear flag leaves the byte untouched |
| BaseAlarm.SecondTriggerCheck | BaseAlarm.cpp:109-122 | a second check finds the flag clear and changes nothing |
| BaseAlarm.BaseAlarm.constructor | BaseAlarm.cpp:28-33 | the object records its control bit and status bit |
| BaseAlarm.BaseAlarm.IsOn | BaseAlarm.cpp:50-60 | the result is the alarm's enable bit |
| BaseAlarm.BaseAlarm.TurnOn | BaseAlarm.cpp:69-78 | only the control register changes, to TurnedOn of its old value; the enable bit is set |
| BaseAlarm.BaseAlarm.TurnOff | BaseAlarm.cpp:87-96 | only the control register changes, to TurnedOff of its old value; the enable bit is clear |
| BaseAlarm.BaseAlarm.WasItTriggered | BaseAlarm.cpp:109-122 | the result is the old flag; the flag is cleared; nothing is written when it was clear |
| Alarm1.EncodeAlarm1 | Alarm1.cpp:59-66 | five bytes: second, minute, hour, day of week and day, each BCD-encoded, in that order |
| Alarm1.DecodeAlarm1 | Alarm1.cpp:43-48 | every decoded field is at most 165; each valid BCD byte re-encodes to itself |
| Alarm1.WriteThenRead | Alarm1.cpp:37-67 | reading back what writeAlarm wrote gives the same five values when each is at most 99 |
| Alarm1.WriteReachesAlarm2 | Alarm1.cpp:59-66 | the fifth byte, the day, lands in the alarm 2 minute register 0x0B; 0x0C, 0x0D, control and status are untouched |
| Alarm1.Alarm1.TurnOn | Alarm1.cpp:22-28 | only the control register changes: INTCN and A1IE are set, all other bits kept |
| Alarm1.Alarm1.TurnOff | Alarm1.cpp:30-35 | only the control register changes: A1IE is cleared and INTCN keeps its value |
| Alarm1.Alarm1.ReadAlarm | Alarm1.cpp:37-49 | the fields become the decoding of registers 0x07 .. 0x0B |
| Alarm1.Alarm1.WriteAlarm | Alarm1.cpp:51-67 | the fields hold the arguments; registers 0x07 .. 0x0B receive their encoding and nothing else changes |
| Alarm2.RateFromFlags | Alarm2.cpp:66-85 | the chain picks a rate exactly when the chip's table has that rate for the mask flags, and no rate otherwise |
| Alarm2.DecodeAlarm2 | Alarm2.cpp:55-109 | minute and hour lose their mask bit and are decoded; the day value goes to day or day-of-week by DY/DT, the other one is 0; the rate is the table's rate, or the previous rate when the pattern is undefined |
| Alarm2.FieldValue | Alarm2.cpp:88-95 | a minute or hour register whose low seven bits are BCD decodes to at most 79, which encodes back to those bits |
| Alarm2.DayValue | Alarm2.cpp:90-96 | a day register whose low six bits are BCD decodes to at most 39, which encodes back to those bits |
| Alarm2.FlagsIgnored | Alarm2.cpp:88-96 | the mask and DY/DT bits do not take part in the decoded value: a field is the BCD value of the low seven bits, a day of the low six, whatever the flags |
| Alarm2.Remembered | Alarm2.cpp:124-232 | the rate a write stores is the one the chip's table gives for the mask bits that write sends; day and day of week are never both set; a day-of-week write stores day of week 1 |
| Alarm2.Encode | Alarm2.cpp:122-249 | each write sends three bytes, with 0x80 in every register it does not use |
| Alarm2.FieldRoundTrip | Alarm2.cpp:88-96 | a minute or hour up to 79 encodes with a clear mask bit and decodes back |
| Alarm2.DayRoundTrip | Alarm2.cpp:90-96 | a day up to 39 encodes with mask and DY/DT clear and decodes back, also when DY/DT is then set |
| Alarm2.MaskOnlyFlags | Alarm2.cpp:132-134 | the filler 0x80 has its mask bit set and DY/DT clear, and decodes to 0 |
| Alarm2.WriteThenRead | Alarm2.cpp:47-249 | reading back after any write gives the values written and the rate that write selects, whatever rate was held before |
| Alarm2.RememberedMatchesRegisters | Alarm2.cpp:122-232 | apart from a day-of-week write, the fields after a write equal what a read-back gives |
| Alarm2.RememberedDayOfWeekIsOne | Alarm2.cpp:224-249 | a day-of-week write remembers day of week 1; the fields match a read-back exactly when the day written was 1 |
| Alarm2.AllMasksOncePerMinute | Alarm2.cpp:66-69 | all three mask bits set gives once per minute, whatever DY/DT says |
| Alarm2.UndefinedPatternKeepsRate | Alarm2.cpp:66-85 | minute masked with hour unmasked matches no branch, so the previous rate is kept |
| Alarm2.Alarm2.constructor | Alarm2.cpp:31-37 | all values 0, rate undefined, alarm bits A2IE and A2F |
| Alarm2.Alarm2.ReadAlarm | Alarm2.cpp:47-110 | the fields become DecodeAlarm2 of registers 0x0B .. 0x0D and the rate held before |
| Alarm2.Alarm2.WriteAlarmOncePerMinute | Alarm2.cpp:122-136 | fields zero with rate once per minute; 0x80 written to the three registers |
| Alarm2.Alarm2.WriteAlarmMinute | Alarm2.cpp:152-168 | fields hold the minute with rate minutes-match; the minute in BCD then 0x80, 0x80 written |
| Alarm2.Alarm2.WriteAlarmHourMinute | Alarm2.cpp:185-202 | fields hold hour and minute with rate minutes-and-hours; minute, hour in BCD and 0x80 written |
| Alarm2.Alarm2.WriteAlarmDayHourMinute | Alarm2.cpp:224-249 | fields as remembered (day of week 1 for a day-of-week write); minute, hour, day in BCD written, the day with DY/DT set for a day of the week |
| Calendar.LeapYearStep | RealTimeClock.cpp:108-113 | the closed-form count of leap years grows by one exactly at a Gregorian leap year |
| Calendar.DaysBeforeYearClosed | RealTimeClock.cpp:108-113 | the day-by-day count of the years before a year equals 365 per year plus the leap years |
| Calendar.DaysBeforeMonthClosed | RealTimeClock.cpp:108-113 | the days before a month are the common-year table plus one from March on in a leap year |
| RealTimeClock.MonthOffsetCorrection | RealTimeClock.cpp:110 | each entry of t[] differs from the days before that month by a multiple of 7, less one from March on |
| RealTimeClock.SakamotoSum | RealTimeClock.cpp:111-112 | from year 1 on the sum is not negative; for years up to 26000 it stays below 0x8000, so it fits a 16-bit `int` |
| RealTimeClock.SakamotoSumIsGregorian | RealTimeClock.cpp:108-113 | from year 1 on, Sakamoto's sum and the Gregorian day number agree modulo 7 |
| RealTimeClock.CalculateDayOfWeek | RealTimeClock.cpp:108-113 | from year 1 on the result is Sakamoto's sum modulo 7, narrowed to a byte without loss |
| RealTimeClock.DayOfWeekIsGregorian | RealTimeClock.cpp:108-113 | calculateDayOfWeek is the weekday of the date in the proleptic Gregorian calendar, Sunday 0, for every year from 1 on |
| RealTimeClock.EncodeDateTime | RealTimeClock.cpp:64-83 | seven bytes; the month byte carries the century bit exactly after 2000; the last byte is the year register |
| RealTimeClock.YearRegister | RealTimeClock.cpp:64-82 | for years 1900 .. 2159 the register holds the tens digit of the offset from 2000 (after 2000) or from 1900 (up to and including 2000) in its high nibble and the units digit in its low nibble |
| RealTimeClock.DecodeDateTime | RealTimeClock.cpp:94-105 | the year is from 1900 to 2165: at least 2000 with the century bit, at most 2065 without |
| RealTimeClock.MonthRoundTrip | RealTimeClock.cpp:81-103 | a month 1 .. 12 survives encoding, the century bit and the 0x1F mask |
| RealTimeClock.YearOffsetRoundTrip | RealTimeClock.cpp:82-104 | a year offset up to 159 survives BCD encoding, narrowing and decoding |
| RealTimeClock.YearRegisterRoundTrip | RealTimeClock.cpp:64-105 | for years 1900 .. 2159 the year register plus the century base gives the year back |
| RealTimeClock.WriteThenRead | RealTimeClock.cpp:52-106 | syncDateTime after setDateTime gives back the date, time and day of the week for every storable date |
| RealTimeClock.CenturyBit | RealTimeClock.cpp:64-81 | the month byte has bit 7 set exactly for years after 2000 |
| RealTimeClock.YearTwoThousand | RealTimeClock.cpp:64-72 | year 2000 is stored as 0xA0 with the century bit clear |
| RealTimeClock.RealTimeClock.WasItStopped | RealTimeClock.cpp:47-50 | the result is the oscillator-stop flag |
| RealTimeClock.RealTimeClock.ClearOscillatorStopFlag | RealTimeClock.cpp:115-120 | only the status register changes: OSF is cleared and every other bit kept |
| RealTimeClock.RealTimeClock.SetDateTime | RealTimeClock.cpp:52-86 | the fields hold the date with its computed day of the week; registers 0x00 .. 0x06 receive the encoding, then OSF is cleared, and nothing else changes |
| RealTimeClock.RealTimeClock.SyncDateTime | RealTimeClock.cpp:88-106 | the fields become the decoding of registers 0x00 .. 0x06 |
| RealTimeClock.RealTimeClock.ForceTemperatureUpdate | RealTimeClock.cpp:159-170 | refuses and writes nothing while BSY is set; otherwise sets CONV and nothing else |
| ClockControl.FrequencyOf | RealTimeClockController.cpp:168-190 | the one frequency whose rate-select entry matches RS1 and RS2, total over all four combinations |
| ClockControl.FrequencyIsRateSelect | RealTimeClockController.cpp:168-190 | two control bytes report the same frequency exactly when they agree on RS1 and RS2 |
| ClockControl.WithBattery | RealTimeClockController.cpp:33-46 | EOSC becomes the negation of `on`, every other bit is kept |
| ClockControl.BatteryToggleLastWins | RealTimeClockController.cpp:18-46 | the second of two toggles alone decides the result; re-applying the current setting changes nothing |
| ClockControl.With32khzOutput | RealTimeClockController.cpp:65-78 | EN32KHZ becomes `on`, every other status bit is kept |
| ClockControl.Output32khzToggleLastWins | RealTimeClockController.cpp:50-78 | the second of two toggles alone decides the result; re-applying the current setting changes nothing |
| ClockControl.WithBatteryBackedSquareWave | RealTimeClockController.cpp:98-110 | BBSQW becomes `on`, every other bit is kept |
| ClockControl.WithRateSelect | RealTimeClockController.cpp:137-158 | 1, 1024 and 4096 Hz set the table's RS1/RS2; 8192 Hz sets RS2 and keeps RS1; other bits kept |
| ClockControl.WithSquareWave | RealTimeClockController.cpp:131-166 | INTCN becomes the negation of `on`; on selects the rate as above, off keeps RS1 and RS2; every other bit is kept |
| ClockControl.EnabledFrequencyReadsBack | RealTimeClockController.cpp:131-190 | enabling at 1, 1024 or 4096 Hz reads back as that frequency |
| ClockControl.FastestFrequencyReadsBack | RealTimeClockController.cpp:154-156 | enabling at 8192 Hz reads back as 8192 Hz when RS1 was set and 4096 Hz otherwise |
| ClockControl.ToTwosComplement | RealTimeClockController.cpp:194-197 | the byte written is the value for non-negative values and value + 256 for negative ones |
| ClockControl.FromTwosComplement | RealTimeClockController.cpp:199-202 | bytes below 0x80 read as themselves, the others as byte - 256 |
| ClockControl.CalibrationRoundTrip | RealTimeClockController.cpp:194-202 | getCalibration after setCalibration returns the value set, for every int8_t |
| ClockControl.CalibrationByteRoundTrip | RealTimeClockController.cpp:194-202 | setting the value read restores every possible register byte |
| ClockControl.IsBatteryEnabled | RealTimeClock.cpp:195-198 | the result is the negation of EOSC |
| ClockControl.ToggleBattery | RealTimeClock.cpp:210-223 | only the control register changes, to WithBattery of its old value; enabled then reads `on` |
| ClockControl.EnableBattery | RealTimeClock.cpp:200-203 | EOSC cleared, nothing else changed |
| ClockControl.DisableBattery | RealTimeClock.cpp:205-208 | EOSC set, nothing else changed |
| ClockControl.Is32khzOutputEnabled | RealTimeClock.cpp:227-230 | the result is EN32KHZ |
| ClockControl.Toggle32khzOutput | RealTimeClock.cpp:242-255 | only the status register changes, to With32khzOutput of its old value |
| ClockControl.Enable32khzOutput | RealTimeClock.cpp:232-235 | EN32KHZ set, nothing else changed |
| ClockControl.Disable32khzOutput | RealTimeClock.cpp:237-240 | EN32KHZ cleared, nothing else changed |
| ClockControl.IsBatteryBackedSquareWaveEnabled | RealTimeClock.cpp:259-262 | the result is BBSQW |
| ClockControl.ToggleBatteryBackedSquareWave | RealTimeClock.cpp:275-287 | only the control register changes, to WithBatteryBackedSquareWave of its old value |
| ClockControl.EnableBatteryBackedSquareWave | RealTimeClock.cpp:264-268 | BBSQW set, then the square wave enabled at the frequency: BBSQW set and INTCN clear afterwards |
| ClockControl.DisableBatteryBackedSquareWave | RealTimeClock.cpp:270-273 | BBSQW cleared, nothing else changed |
| ClockControl.IsSquareWaveEnabled | RealTimeClock.cpp:291-294 | the result is the negation of INTCN |
| ClockControl.ToggleSquareWave | RealTimeClock.cpp:308-343 | only the control register changes, to WithSquareWave of its old value |
| ClockControl.EnableSquareWave | RealTimeClock.cpp:296-299 | INTCN clear and the rate selected; nothing else changed |
| ClockControl.DisableSquareWave | RealTimeClock.cpp:301-306 | INTCN set and BBSQW cleared, every other bit kept |
| ClockControl.GetSquareWaveFrequency | RealTimeClock.cpp:345-367 | the result is the frequency the rate-select table gives for RS1 and RS2 |
| ClockControl.SetCalibration | RealTimeClock.cpp:371-374 | only the aging register changes, to the value's two's-complement byte, which reads back as the value |
| ClockControl.GetCalibration | RealTimeClock.cpp:376-379 | the result is the aging register read as int8_t, and it converts back to that register byte |

## Left out

- The I2C transport (Wire, the bus address 0x68, begin and end of transmission, request counts). A bus transaction is modelled as array reads and writes on the register file. `readRegister`/`writeRegister` (RealTimeClock.cpp:383-398, BaseClock.cpp:37-63) are single-cell accesses.
- The chip's own behaviour: time advancing, alarms firing, and flags set by the hardware. Registers change only through the driver's methods.
- `getTemperature` (RealTimeClock.cpp:172-191): its result is floating point.
- The constructors that only call `Wire.begin()` (RealTimeClock, Alarm1), the BinaryHelper constructor and the BaseAlarm destructor have no state to model. Alarm1's fields are not initialised by its constructor either, so the Dafny class has none.
- The getters are the classes' fields themselves. Header declarations are not modelled separately.
- RealTimeClockController.h names `Frequency`/`writeCalibration`/`readCalibration` where its .cpp uses `SquareWaveFrequency`/`setCalibration`/`getCalibration`. The model follows the .cpp. The header is not part of this model.
- The namespaced `setBitOn`/`setBitOff` that Alarm2.cpp (lines 88-91 and 240) and BaseAlarm.cpp (imported at lines 19-20, called at lines 74, 76, 90, 93 and 117) call without using the result come from a BinaryHelper header that is not part of this model. They are modelled as updating their argument in place, as the surrounding comments intend; BaseAlarm.BaseAlarm.TurnOn, TurnOff and WasItTriggered rest on that reading.
- Alarm2.Alarm2.ReadAlarm: the source stores the raw bytes in `_minute`, `_hour`, `_day` and clears the bits there. The model does the same on local copies and then assigns the fields. The final state is the same.
- Alarm1.Alarm1.ReadAlarm: the source requests seven bytes from 0x07 and consumes five. Only the five are modelled.
- RealTimeClock.RealTimeClock.SyncDateTime: the year register is decoded with the byte-level `DecodeBcd` instead of the `int16_t` `fromBcdToDecimal`. `DecodeBcdAgrees` proves that they give the same value for every byte.
- RealTimeClock.SakamotoSum: the year decrement wraps as `int16_t`, but the sum is computed with unbounded integers. Its contract shows that the sum stays below 0x8000 for years up to 26000; for later years, and for very negative ones, a 16-bit `int` target would overflow. That overflow is not modelled.
- RealTimeClock.CalculateDayOfWeek: requires a month of 1 .. 12, because `t[month-1]` reads outside the table otherwise. That is undefined behaviour in C and has no value to model. `SetDateTime` inherits the same requirement.
- BinaryHelper.SetBitOn: bit positions are 0 .. 7 (`BitIndex`). The driver never passes a larger one, and a shift by 8 or more has no counterpart in a byte. The same holds for SetBitOff, ToggleBit and IstBitSet.
- Round trips are stated only for the values the registers can hold:
  - BCD fields up to 99;
  - alarm 2 minutes and hours up to 79 and days up to 39, so that no mask or DY/DT bit is overwritten;
  - years 1900 .. 2159.

  Larger arguments are accepted by the methods and follow the source's arithmetic.
