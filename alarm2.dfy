/** The chip's second alarm (Alarm2.cpp): a minute/hour/day match alarm whose
    settings occupy registers 0x0B to 0x0D. Each register holds a BCD field
    and a mask bit (bit 7); the day register also holds the DY/DT selector
    (bit 6), which says whether the day is a day of the month or of the week. */
module Alarm2 {
  import opened BinaryHelper
  import opened BaseClock
  import opened BaseAlarm

  datatype Option<T> = None | Some(value: T)

  /** Alarm2::AlarmRate. */
  datatype AlarmRate =
    | Alarm2Undefined
    | OncePerMinute
    | WhenMinutesMatch
    | WhenMinutesAndHoursMatch
    | WhenMinutesAndHoursAndDayMatch
    | WhenMinutesAndHoursAndDayOfWeekMatch

  const A2M2: BitIndex := 7
  const A2M3: BitIndex := 7
  const A2M4: BitIndex := 7
  const DYDT: BitIndex := 6

  /** The unused-register value the write methods send: only the mask bit set. */
  const MaskOnly: byte := 0x80

  /** What the getters of an Alarm2 object return. */
  datatype Alarm2Settings = Alarm2Settings(minute: byte, hour: byte, day: byte, dayOfWeek: byte, rate: AlarmRate)

  /** The chip's table of mask patterns: which flags select which rate. */
  predicate Selects(rate: AlarmRate, a2m2: bool, a2m3: bool, a2m4: bool, isDayOfWeek: bool)
  {
    match rate
    case Alarm2Undefined => false
    case OncePerMinute => a2m2 && a2m3 && a2m4
    case WhenMinutesMatch => !a2m2 && a2m3 && a2m4
    case WhenMinutesAndHoursMatch => !a2m2 && !a2m3 && a2m4
    case WhenMinutesAndHoursAndDayMatch => !a2m2 && !a2m3 && !a2m4 && !isDayOfWeek
    case WhenMinutesAndHoursAndDayOfWeekMatch => !a2m2 && !a2m3 && !a2m4 && isDayOfWeek
  }

  /** The precedence chain of readAlarm; None when no branch applies. */
  function RateFromFlags(a2m2: bool, a2m3: bool, a2m4: bool, isDayOfWeek: bool): (r: Option<AlarmRate>)
    ensures forall rate :: r == Some(rate) <==> Selects(rate, a2m2, a2m3, a2m4, isDayOfWeek)
  {
    if a2m2 && a2m3 && a2m4 then Some(OncePerMinute)
    else if !a2m2 && a2m3 && a2m4 then Some(WhenMinutesMatch)
    else if !a2m2 && !a2m3 && a2m4 then Some(WhenMinutesAndHoursMatch)
    else if !a2m2 && !a2m3 && !a2m4 && !isDayOfWeek then Some(WhenMinutesAndHoursAndDayMatch)
    else if !a2m2 && !a2m3 && !a2m4 && isDayOfWeek then Some(WhenMinutesAndHoursAndDayOfWeekMatch)
    else None
  }

  /** The minute or hour value of a register: mask bit dropped, BCD decoded.
      Only the low seven bits count, and when they are BCD the value is at
      most 79 and encodes back to them. */
  function FieldValue(b: byte): (v: byte)
    ensures IsBcdByte(b % 0x80) ==> v <= 79 && EncodeBcd(v) == b % 0x80
  {
    DecodeBcd(SetBitOff(b, 7))
  }

  /** The day value of the day register: mask and DY/DT dropped, BCD decoded.
      Only the low six bits count, and when they are BCD the value is at most
      39 and encodes back to them. */
  function DayValue(b: byte): (v: byte)
    ensures IsBcdByte(b % 0x40) ==> v <= 39 && EncodeBcd(v) == b % 0x40
  {
    DecodeBcd(SetBitOff(SetBitOff(b, A2M4), DYDT))
  }

  /** The flag bits do not take part in the values: a field is the BCD value
      of the register's low seven bits, a day that of its low six bits. */
  lemma FlagsIgnored(b: byte)
    ensures FieldValue(b) == DecodeBcd(b % 0x80) == FieldValue(SetBitOn(b, A2M2))
    ensures DayValue(b) == DecodeBcd(b % 0x40) == DayValue(SetBitOn(SetBitOn(b, A2M4), DYDT))
  {
  }

  /** The settings readAlarm derives from the minute, hour and day registers,
      given the rate the object held before. */
  function DecodeAlarm2(minuteRegister: byte, hourRegister: byte, dayRegister: byte,
                        previous: AlarmRate): (s: Alarm2Settings)
    ensures s.day == 0 || s.dayOfWeek == 0
    ensures s.minute == FieldValue(minuteRegister) && s.hour == FieldValue(hourRegister)
    ensures s.dayOfWeek == if IstBitSet(dayRegister, DYDT) then DayValue(dayRegister) else 0
    ensures s.day == if IstBitSet(dayRegister, DYDT) then 0 else DayValue(dayRegister)
    ensures forall rate :: Selects(rate, IstBitSet(minuteRegister, A2M2), IstBitSet(hourRegister, A2M3),
                                   IstBitSet(dayRegister, A2M4), IstBitSet(dayRegister, DYDT))
              ==> s.rate == rate
    ensures (forall rate :: !Selects(rate, IstBitSet(minuteRegister, A2M2), IstBitSet(hourRegister, A2M3),
                                     IstBitSet(dayRegister, A2M4), IstBitSet(dayRegister, DYDT)))
            ==> s.rate == previous
  {
    var isDayOfWeek := IstBitSet(dayRegister, DYDT);
    var rate := RateFromFlags(IstBitSet(minuteRegister, A2M2), IstBitSet(hourRegister, A2M3),
                              IstBitSet(dayRegister, A2M4), isDayOfWeek);
    var day := DayValue(dayRegister);
    Alarm2Settings(FieldValue(minuteRegister), FieldValue(hourRegister),
                   if isDayOfWeek then 0 else day, if isDayOfWeek then day else 0,
                   if rate.Some? then rate.value else previous)
  }

  /** The four ways of programming the alarm: writeAlarmOncePerMinute and the
      three writeAlarm overloads. */
  datatype Alarm2Request =
    | EveryMinute
    | AtMinute(minute: byte)
    | AtHourMinute(hour: byte, minute: byte)
    | AtDayHourMinute(useDayOfWeek: bool, day: byte, hour: byte, minute: byte)

  /** The three bytes a request writes to 0x0B, 0x0C and 0x0D, in that order. */
  function Encode(request: Alarm2Request): (block: seq<byte>)
    ensures |block| == 3
    ensures request.EveryMinute? ==> block == [MaskOnly, MaskOnly, MaskOnly]
    ensures request.AtMinute? ==> block[1] == MaskOnly && block[2] == MaskOnly
    ensures request.AtHourMinute? ==> block[2] == MaskOnly
  {
    match request
    case EveryMinute => [MaskOnly, MaskOnly, MaskOnly]
    case AtMinute(m) => [EncodeBcd(m), MaskOnly, MaskOnly]
    case AtHourMinute(h, m) => [EncodeBcd(m), EncodeBcd(h), MaskOnly]
    case AtDayHourMinute(useDayOfWeek, d, h, m) =>
      [EncodeBcd(m), EncodeBcd(h), if useDayOfWeek then SetBitOn(EncodeBcd(d), DYDT) else EncodeBcd(d)]
  }

  /** What the object's fields hold right after a request; a day-of-week write
      stores the flag itself (1) as the day of the week. The remembered rate
      is the one the chip's table gives for the mask bits the request writes,
      when its values fit their registers. */
  function Remembered(request: Alarm2Request): (s: Alarm2Settings)
    ensures Fits(request) ==>
              var block := Encode(request);
              Selects(s.rate, IstBitSet(block[0], A2M2), IstBitSet(block[1], A2M3),
                      IstBitSet(block[2], A2M4), IstBitSet(block[2], DYDT))
    ensures s.day == 0 || s.dayOfWeek == 0
    ensures request.AtDayHourMinute? && request.useDayOfWeek ==> s.dayOfWeek == 1
  {
    RememberedRate(request);
    match request
    case EveryMinute => Alarm2Settings(0, 0, 0, 0, OncePerMinute)
    case AtMinute(m) => Alarm2Settings(m, 0, 0, 0, WhenMinutesMatch)
    case AtHourMinute(h, m) => Alarm2Settings(m, h, 0, 0, WhenMinutesAndHoursMatch)
    case AtDayHourMinute(useDayOfWeek, d, h, m) =>
      if useDayOfWeek then Alarm2Settings(m, h, 0, 1, WhenMinutesAndHoursAndDayOfWeekMatch)
      else Alarm2Settings(m, h, d, 0, WhenMinutesAndHoursAndDayMatch)
  }

  lemma RememberedRate(request: Alarm2Request)
    ensures Fits(request) ==>
              var block := Encode(request);
              !IstBitSet(block[0], A2M2) <==> !request.EveryMinute?
  {
    MaskOnlyFlags();
    match request
    case EveryMinute =>
    case AtMinute(m) =>
      if m <= 79 { FieldRoundTrip(m); }
    case AtHourMinute(h, m) =>
      if h <= 79 && m <= 79 { FieldRoundTrip(h); FieldRoundTrip(m); }
    case AtDayHourMinute(_, d, h, m) =>
      if d <= 39 && h <= 79 && m <= 79 { FieldRoundTrip(h); FieldRoundTrip(m); DayRoundTrip(d); }
  }

  /** Requests whose values fit their registers without touching a mask bit
      or the DY/DT selector: minutes and hours up to 79, days up to 39. */
  predicate Fits(request: Alarm2Request)
  {
    match request
    case EveryMinute => true
    case AtMinute(m) => m <= 79
    case AtHourMinute(h, m) => h <= 79 && m <= 79
    case AtDayHourMinute(_, d, h, m) => d <= 39 && h <= 79 && m <= 79
  }

  /** A minute or hour up to 79 encodes with its mask bit clear and decodes back. */
  lemma FieldRoundTrip(v: byte)
    requires v <= 79
    ensures !IstBitSet(EncodeBcd(v), A2M2) && FieldValue(EncodeBcd(v)) == v
  {
  }

  /** A day up to 39 encodes with its mask bit and DY/DT clear and decodes back,
      also once DY/DT has been set. */
  lemma DayRoundTrip(v: byte)
    requires v <= 39
    ensures !IstBitSet(EncodeBcd(v), A2M4) && !IstBitSet(EncodeBcd(v), DYDT)
    ensures DayValue(EncodeBcd(v)) == v
    ensures !IstBitSet(SetBitOn(EncodeBcd(v), DYDT), A2M4)
    ensures DayValue(SetBitOn(EncodeBcd(v), DYDT)) == v
  {
  }

  /** The filler byte of the write methods: mask set, DY/DT clear, value zero. */
  lemma MaskOnlyFlags()
    ensures IstBitSet(MaskOnly, A2M2) && !IstBitSet(MaskOnly, DYDT)
    ensures FieldValue(MaskOnly) == 0 && DayValue(MaskOnly) == 0
  {
  }

  /** Reading the alarm back after any write gives the values written and the
      rate the write selected, whatever rate the object held before. */
  lemma WriteThenRead(request: Alarm2Request, previous: AlarmRate)
    requires Fits(request)
    ensures var block := Encode(request);
            DecodeAlarm2(block[0], block[1], block[2], previous) ==
              match request
              case EveryMinute => Alarm2Settings(0, 0, 0, 0, OncePerMinute)
              case AtMinute(m) => Alarm2Settings(m, 0, 0, 0, WhenMinutesMatch)
              case AtHourMinute(h, m) => Alarm2Settings(m, h, 0, 0, WhenMinutesAndHoursMatch)
              case AtDayHourMinute(useDayOfWeek, d, h, m) =>
                if useDayOfWeek then Alarm2Settings(m, h, 0, d, WhenMinutesAndHoursAndDayOfWeekMatch)
                else Alarm2Settings(m, h, d, 0, WhenMinutesAndHoursAndDayMatch)
  {
    MaskOnlyFlags();
    match request
    case EveryMinute =>
    case AtMinute(m) =>
      FieldRoundTrip(m);
    case AtHourMinute(h, m) =>
      FieldRoundTrip(h);
      FieldRoundTrip(m);
    case AtDayHourMinute(_, d, h, m) =>
      FieldRoundTrip(h);
      FieldRoundTrip(m);
      DayRoundTrip(d);
  }

  /** Except for a day-of-week write, the object remembers what a read-back
      of the registers would give. */
  lemma RememberedMatchesRegisters(request: Alarm2Request, previous: AlarmRate)
    requires Fits(request)
    requires !(request.AtDayHourMinute? && request.useDayOfWeek)
    ensures var block := Encode(request);
            Remembered(request) == DecodeAlarm2(block[0], block[1], block[2], previous)
  {
    WriteThenRead(request, previous);
  }

  /** After a day-of-week write the object remembers day of the week 1 whatever
      day was written, so it disagrees with the registers unless that day was 1. */
  lemma RememberedDayOfWeekIsOne(day: byte, hour: byte, minute: byte, previous: AlarmRate)
    requires day <= 39 && hour <= 79 && minute <= 79
    ensures Remembered(AtDayHourMinute(true, day, hour, minute)).dayOfWeek == 1
    ensures var block := Encode(AtDayHourMinute(true, day, hour, minute));
            (Remembered(AtDayHourMinute(true, day, hour, minute)) ==
               DecodeAlarm2(block[0], block[1], block[2], previous)) <==> day == 1
  {
    WriteThenRead(AtDayHourMinute(true, day, hour, minute), previous);
  }

  /** With all three mask bits set the rate is once per minute, whatever DY/DT says. */
  lemma AllMasksOncePerMinute(minuteRegister: byte, hourRegister: byte, dayRegister: byte, previous: AlarmRate)
    requires IstBitSet(minuteRegister, A2M2) && IstBitSet(hourRegister, A2M3) && IstBitSet(dayRegister, A2M4)
    ensures DecodeAlarm2(minuteRegister, hourRegister, dayRegister, previous).rate == OncePerMinute
  {
  }

  /** A mask pattern the chip does not define (minute masked, hour not) leaves
      the rate the object held before. */
  lemma UndefinedPatternKeepsRate(minuteRegister: byte, hourRegister: byte, dayRegister: byte, previous: AlarmRate)
    requires IstBitSet(minuteRegister, A2M2) && !IstBitSet(hourRegister, A2M3)
    ensures DecodeAlarm2(minuteRegister, hourRegister, dayRegister, previous).rate == previous
  {
  }

  class Alarm2 {
    const base: BaseAlarm
    var minute: byte
    var hour: byte
    var day: byte
    var dayOfWeek: byte
    var alarmRate: AlarmRate

    /** The values the getters getMinute .. getAlarmRate return. */
    function Settings(): Alarm2Settings
      reads this
    {
      Alarm2Settings(minute, hour, day, dayOfWeek, alarmRate)
    }

    constructor ()
      ensures Settings() == Alarm2Settings(0, 0, 0, 0, Alarm2Undefined)
      ensures base.controlBit == A2IE && base.statusBit == A2F
    {
      base := new BaseAlarm(A2IE, A2F);
      minute, day, hour, dayOfWeek, alarmRate := 0, 0, 0, 0, Alarm2Undefined;
    }

    /** readAlarm: reads 0x0B..0x0D and decodes them into the fields. */
    method ReadAlarm(regs: array<byte>)
      requires IsRegisterFile(regs)
      modifies this
      ensures Settings() == DecodeAlarm2(regs[Alarm2Address], regs[Alarm2Address + 1],
                                         regs[Alarm2Address + 2], old(alarmRate))
    {
      var minuteRegister := regs[Alarm2Address];
      var hourRegister := regs[Alarm2Address + 1];
      var dayRegister := regs[Alarm2Address + 2];

      var a2m2 := IstBitSet(minuteRegister, A2M2);
      var a2m3 := IstBitSet(hourRegister, A2M3);
      var a2m4 := IstBitSet(dayRegister, A2M4);
      var isDayOfWeek := IstBitSet(dayRegister, DYDT);
      ghost var minuteRead, hourRead, dayRead := minuteRegister, hourRegister, dayRegister;

      if a2m2 && a2m3 && a2m4 {
        alarmRate := OncePerMinute;
      } else if !a2m2 && a2m3 && a2m4 {
        alarmRate := WhenMinutesMatch;
      } else if !a2m2 && !a2m3 && a2m4 {
        alarmRate := WhenMinutesAndHoursMatch;
      } else if !a2m2 && !a2m3 && !a2m4 && !isDayOfWeek {
        alarmRate := WhenMinutesAndHoursAndDayMatch;
      } else if !a2m2 && !a2m3 && !a2m4 && isDayOfWeek {
        alarmRate := WhenMinutesAndHoursAndDayOfWeekMatch;
      }
      ghost var selected := RateFromFlags(a2m2, a2m3, a2m4, isDayOfWeek);
      assert alarmRate == if selected.Some? then selected.value else old(alarmRate);

      minuteRegister := SetBitOff(minuteRegister, A2M2);
      hourRegister := SetBitOff(hourRegister, A2M3);
      dayRegister := SetBitOff(dayRegister, A2M4);
      dayRegister := SetBitOff(dayRegister, DYDT);

      minute := DecodeBcd(minuteRegister);
      assert minute == FieldValue(minuteRead);
      hour := DecodeBcd(hourRegister);
      assert hour == FieldValue(hourRead);
      day := DecodeBcd(dayRegister);
      assert day == DayValue(dayRead);

      if isDayOfWeek {
        dayOfWeek := day;
        day := 0;
      } else {
        dayOfWeek := 0;
      }
      ghost var expected := DecodeAlarm2(minuteRead, hourRead, dayRead, old(alarmRate));
      assert expected.rate == alarmRate;
      assert expected == Settings();
    }

    /** writeAlarmOncePerMinute. */
    method WriteAlarmOncePerMinute(regs: array<byte>)
      requires IsRegisterFile(regs)
      modifies this, regs
      ensures Settings() == Remembered(EveryMinute)
      ensures regs[..] == Overwrite(old(regs[..]), Alarm2Address, Encode(EveryMinute))
    {
      minute, hour, day, dayOfWeek := 0, 0, 0, 0;
      alarmRate := OncePerMinute;

      regs[Alarm2Address] := MaskOnly;
      regs[Alarm2Address + 1] := MaskOnly;
      regs[Alarm2Address + 2] := MaskOnly;
    }

    /** writeAlarm(minute). */
    method WriteAlarmMinute(minute: byte, regs: array<byte>)
      requires IsRegisterFile(regs)
      modifies this, regs
      ensures Settings() == Remembered(AtMinute(minute))
      ensures regs[..] == Overwrite(old(regs[..]), Alarm2Address, Encode(AtMinute(minute)))
    {
      this.minute, hour, day, dayOfWeek := minute, 0, 0, 0;
      alarmRate := WhenMinutesMatch;

      var minuteBcd := EncodeBcd(minute);

      regs[Alarm2Address] := minuteBcd;
      regs[Alarm2Address + 1] := MaskOnly;
      regs[Alarm2Address + 2] := MaskOnly;
    }

    /** writeAlarm(hour, minute). */
    method WriteAlarmHourMinute(hour: byte, minute: byte, regs: array<byte>)
      requires IsRegisterFile(regs)
      modifies this, regs
      ensures Settings() == Remembered(AtHourMinute(hour, minute))
      ensures regs[..] == Overwrite(old(regs[..]), Alarm2Address, Encode(AtHourMinute(hour, minute)))
    {
      this.minute, this.hour, day, dayOfWeek := minute, hour, 0, 0;
      alarmRate := WhenMinutesAndHoursMatch;

      var hourBcd := EncodeBcd(hour);
      var minuteBcd := EncodeBcd(minute);

      regs[Alarm2Address] := minuteBcd;
      regs[Alarm2Address + 1] := hourBcd;
      regs[Alarm2Address + 2] := MaskOnly;
    }

    /** writeAlarm(useDayOfWeek, day, hour, minute). */
    method WriteAlarmDayHourMinute(useDayOfWeek: bool, day: byte, hour: byte, minute: byte, regs: array<byte>)
      requires IsRegisterFile(regs)
      modifies this, regs
      ensures Settings() == Remembered(AtDayHourMinute(useDayOfWeek, day, hour, minute))
      ensures regs[..] == Overwrite(old(regs[..]), Alarm2Address,
                                    Encode(AtDayHourMinute(useDayOfWeek, day, hour, minute)))
    {
      this.minute := minute;
      this.hour := hour;
      this.day := if useDayOfWeek then 0 else day;
      dayOfWeek := if useDayOfWeek then 1 else 0;
      alarmRate := if useDayOfWeek
                   then WhenMinutesAndHoursAndDayOfWeekMatch
                   else WhenMinutesAndHoursAndDayMatch;

      var minuteBcd := EncodeBcd(minute);
      var hourBcd := EncodeBcd(hour);
      var dayBcd := EncodeBcd(day);

      if useDayOfWeek {
        dayBcd := SetBitOn(dayBcd, DYDT);
      }

      regs[Alarm2Address] := minuteBcd;
      regs[Alarm2Address + 1] := hourBcd;
      regs[Alarm2Address + 2] := dayBcd;
    }
  }
}
