/** The control and status toggles of the clock (RealTimeClock.cpp and, in the
    same words, RealTimeClockController.cpp): the oscillator's battery
    enable (EOSC), the 32 kHz output (EN32KHZ), the square wave output
    (INTCN, RS1, RS2, BBSQW) and the aging offset. Every toggle reads one
    register, changes bits of the copy and writes it back; none of them
    touches the object's own fields. */
module ClockControl {
  import opened BinaryHelper
  import opened BaseClock

  /** SquareWaveFrequency. */
  datatype SquareWaveFrequency = Freq1Hz | Freq1024Hz | Freq4096Hz | Freq8192Hz

  /** The chip's rate-select table: which RS1/RS2 values give which frequency. */
  predicate SelectsFrequency(f: SquareWaveFrequency, rs1: bool, rs2: bool)
  {
    match f
    case Freq1Hz => !rs1 && !rs2
    case Freq1024Hz => rs1 && !rs2
    case Freq4096Hz => !rs1 && rs2
    case Freq8192Hz => rs1 && rs2
  }

  /** The decision of getSquareWaveFrequency on the control byte: the one
      frequency the table assigns to its RS1/RS2 bits. */
  function FrequencyOf(control: byte): (f: SquareWaveFrequency)
    ensures forall g :: SelectsFrequency(g, IstBitSet(control, RS1), IstBitSet(control, RS2)) <==> g == f
  {
    var rs1 := IstBitSet(control, RS1);
    var rs2 := IstBitSet(control, RS2);
    if !rs1 && !rs2 then Freq1Hz
    else if rs1 && !rs2 then Freq1024Hz
    else if !rs1 && rs2 then Freq4096Hz
    else Freq8192Hz
  }

  /** The control byte toggleBattery writes: EOSC is the negation of `on`. */
  function WithBattery(control: byte, on: bool): (r: byte)
    ensures forall j: BitIndex :: IstBitSet(r, j) == if j == EOSC then !on else IstBitSet(control, j)
  {
    if on then SetBitOff(control, EOSC) else SetBitOn(control, EOSC)
  }

  /** The status byte toggle32khzOutput writes: EN32KHZ is `on`. */
  function With32khzOutput(status: byte, on: bool): (r: byte)
    ensures forall j: BitIndex :: IstBitSet(r, j) == if j == EN32KHZ then on else IstBitSet(status, j)
  {
    if on then SetBitOn(status, EN32KHZ) else SetBitOff(status, EN32KHZ)
  }

  /** The control byte toggleBatteryBackedSquareWave writes: BBSQW is `on`. */
  function WithBatteryBackedSquareWave(control: byte, on: bool): (r: byte)
    ensures forall j: BitIndex :: IstBitSet(r, j) == if j == BBSQW then on else IstBitSet(control, j)
  {
    if on then SetBitOn(control, BBSQW) else SetBitOff(control, BBSQW)
  }

  /** The rate-select bits the switch of toggleSquareWave sets. The 8192 Hz
      case sets RS2 twice and leaves RS1 as it was. */
  function WithRateSelect(control: byte, f: SquareWaveFrequency): (r: byte)
    ensures f != Freq8192Hz ==> SelectsFrequency(f, IstBitSet(r, RS1), IstBitSet(r, RS2))
    ensures f == Freq8192Hz ==> IstBitSet(r, RS2) && IstBitSet(r, RS1) == IstBitSet(control, RS1)
    ensures forall j: BitIndex :: j != RS1 && j != RS2 ==> IstBitSet(r, j) == IstBitSet(control, j)
  {
    match f
    case Freq1Hz => SetBitOff(SetBitOff(control, RS1), RS2)
    case Freq1024Hz => SetBitOff(SetBitOn(control, RS1), RS2)
    case Freq4096Hz => SetBitOn(SetBitOff(control, RS1), RS2)
    case Freq8192Hz => SetBitOn(SetBitOn(control, RS2), RS2)
  }

  /** The control byte toggleSquareWave writes. Switching on selects the
      rate and clears INTCN, which routes the square wave to the output pin;
      switching off only sets INTCN and leaves the rate bits alone. */
  function WithSquareWave(control: byte, on: bool, f: SquareWaveFrequency): (r: byte)
    ensures IstBitSet(r, INTCN) == !on
    ensures on && f != Freq8192Hz ==> SelectsFrequency(f, IstBitSet(r, RS1), IstBitSet(r, RS2))
    ensures on && f == Freq8192Hz ==> IstBitSet(r, RS2) && IstBitSet(r, RS1) == IstBitSet(control, RS1)
    ensures !on ==> IstBitSet(r, RS1) == IstBitSet(control, RS1) && IstBitSet(r, RS2) == IstBitSet(control, RS2)
    ensures forall j: BitIndex :: j != INTCN && j != RS1 && j != RS2 ==> IstBitSet(r, j) == IstBitSet(control, j)
  {
    if on then SetBitOff(WithRateSelect(control, f), INTCN) else SetBitOn(control, INTCN)
  }

  /** Enabling the square wave at 1 Hz, 1024 Hz or 4096 Hz reads back as
      that frequency. */
  lemma EnabledFrequencyReadsBack(control: byte, f: SquareWaveFrequency)
    requires f != Freq8192Hz
    ensures FrequencyOf(WithSquareWave(control, true, f)) == f
  {
    var r := WithSquareWave(control, true, f);
    assert SelectsFrequency(f, IstBitSet(r, RS1), IstBitSet(r, RS2));
  }

  /** Enabling it at 8192 Hz reads back as 8192 Hz only when RS1 was already
      set; otherwise the chip runs, and reports, 4096 Hz. */
  lemma FastestFrequencyReadsBack(control: byte)
    ensures FrequencyOf(WithSquareWave(control, true, Freq8192Hz)) ==
            if IstBitSet(control, RS1) then Freq8192Hz else Freq4096Hz
  {
    var r := WithSquareWave(control, true, Freq8192Hz);
    if IstBitSet(control, RS1) {
      assert SelectsFrequency(Freq8192Hz, IstBitSet(r, RS1), IstBitSet(r, RS2));
    } else {
      assert SelectsFrequency(Freq4096Hz, IstBitSet(r, RS1), IstBitSet(r, RS2));
    }
  }

  /** Two control bytes report the same frequency exactly when they agree on
      RS1 and RS2. */
  lemma FrequencyIsRateSelect(a: byte, b: byte)
    ensures FrequencyOf(a) == FrequencyOf(b) <==>
            IstBitSet(a, RS1) == IstBitSet(b, RS1) && IstBitSet(a, RS2) == IstBitSet(b, RS2)
  {
    var fa := FrequencyOf(a);
    assert SelectsFrequency(fa, IstBitSet(a, RS1), IstBitSet(a, RS2));
    if IstBitSet(a, RS1) == IstBitSet(b, RS1) && IstBitSet(a, RS2) == IstBitSet(b, RS2) {
      assert SelectsFrequency(fa, IstBitSet(b, RS1), IstBitSet(b, RS2));
    }
  }

  /** Switching the battery twice: the second call alone decides EOSC, and
      re-applying the current setting changes nothing. */
  lemma BatteryToggleLastWins(control: byte, first: bool, second: bool)
    ensures WithBattery(WithBattery(control, first), second) == WithBattery(control, second)
    ensures WithBattery(control, !IstBitSet(control, EOSC)) == control
  {
  }

  /** The same for the 32 kHz output. */
  lemma Output32khzToggleLastWins(status: byte, first: bool, second: bool)
    ensures With32khzOutput(With32khzOutput(status, first), second) == With32khzOutput(status, second)
    ensures With32khzOutput(status, IstBitSet(status, EN32KHZ)) == status
  {
  }

  /** An 8-bit signed integer (int8_t), the type of the aging offset. */
  newtype int8 = x: int | -0x80 <= x < 0x80

  /** The byte setCalibration writes: the int8_t converted to uint8_t, that
      is its two's-complement form. */
  function ToTwosComplement(value: int8): (b: byte)
    ensures value >= 0 ==> b as int == value as int
    ensures value < 0 ==> b as int == value as int + 0x100
  {
    ToByte(value as int)
  }

  /** The int8_t getCalibration returns for the byte it read. */
  function FromTwosComplement(b: byte): (value: int8)
    ensures b < 0x80 ==> value as int == b as int
    ensures b >= 0x80 ==> value as int == b as int - 0x100
  {
    var u := b as int;
    if u < 0x80 then u as int8 else (u - 0x100) as int8
  }

  /** Reading the aging offset back gives the value set, for every int8_t. */
  lemma CalibrationRoundTrip(value: int8)
    ensures FromTwosComplement(ToTwosComplement(value)) == value
  {
    var b := ToTwosComplement(value);
    if value >= 0 {
      assert b as int < 0x80;
      SmallIntIsBelow80(b);
    } else {
      assert b as int >= 0x80;
      LargeIntIsAbove80(b);
    }
  }

  /** Setting the offset to what was read leaves the register as it was. */
  lemma CalibrationByteRoundTrip(b: byte)
    ensures ToTwosComplement(FromTwosComplement(b)) == b
  {
    var value := FromTwosComplement(b);
    if b < 0x80 {
      assert value >= 0;
    } else {
      assert value < 0;
    }
    SameValueSameByte(ToTwosComplement(value), b);
  }

  lemma SmallIntIsBelow80(b: byte)
    requires b as int < 0x80
    ensures b < 0x80
  {
  }

  lemma LargeIntIsAbove80(b: byte)
    requires b as int >= 0x80
    ensures b >= 0x80
  {
  }

  /** isBatteryEnabled: the oscillator runs on battery while EOSC is clear. */
  method IsBatteryEnabled(regs: array<byte>) returns (enabled: bool)
    requires IsRegisterFile(regs)
    ensures enabled == !IstBitSet(regs[ControlAddress], EOSC)
  {
    var controlRegister := regs[ControlAddress];
    enabled := !IstBitSet(controlRegister, EOSC);
  }

  /** toggleBattery. */
  method ToggleBattery(on: bool, regs: array<byte>)
    requires IsRegisterFile(regs)
    modifies regs
    ensures regs[..] == old(regs[..])[ControlAddress := WithBattery(old(regs[ControlAddress]), on)]
    ensures !IstBitSet(regs[ControlAddress], EOSC) == on
  {
    var controlRegister := regs[ControlAddress];
    if on {
      controlRegister := SetBitOff(controlRegister, EOSC);
    } else {
      controlRegister := SetBitOn(controlRegister, EOSC);
    }
    regs[ControlAddress] := controlRegister;
  }

  /** enableBattery. */
  method EnableBattery(regs: array<byte>)
    requires IsRegisterFile(regs)
    modifies regs
    ensures regs[..] == old(regs[..])[ControlAddress := WithBattery(old(regs[ControlAddress]), true)]
    ensures !IstBitSet(regs[ControlAddress], EOSC)
  {
    ToggleBattery(true, regs);
  }

  /** disableBattery. */
  method DisableBattery(regs: array<byte>)
    requires IsRegisterFile(regs)
    modifies regs
    ensures regs[..] == old(regs[..])[ControlAddress := WithBattery(old(regs[ControlAddress]), false)]
    ensures IstBitSet(regs[ControlAddress], EOSC)
  {
    ToggleBattery(false, regs);
  }

  /** is32khzOutputEnabled. */
  method Is32khzOutputEnabled(regs: array<byte>) returns (enabled: bool)
    requires IsRegisterFile(regs)
    ensures enabled == IstBitSet(regs[StatusAddress], EN32KHZ)
  {
    var statusRegister := regs[StatusAddress];
    enabled := IstBitSet(statusRegister, EN32KHZ);
  }

  /** toggle32khzOutput. */
  method Toggle32khzOutput(on: bool, regs: array<byte>)
    requires IsRegisterFile(regs)
    modifies regs
    ensures regs[..] == old(regs[..])[StatusAddress := With32khzOutput(old(regs[StatusAddress]), on)]
    ensures IstBitSet(regs[StatusAddress], EN32KHZ) == on
  {
    var statusRegister := regs[StatusAddress];
    if on {
      statusRegister := SetBitOn(statusRegister, EN32KHZ);
    } else {
      statusRegister := SetBitOff(statusRegister, EN32KHZ);
    }
    regs[StatusAddress] := statusRegister;
  }

  /** enable32khzOutput. */
  method Enable32khzOutput(regs: array<byte>)
    requires IsRegisterFile(regs)
    modifies regs
    ensures regs[..] == old(regs[..])[StatusAddress := With32khzOutput(old(regs[StatusAddress]), true)]
    ensures IstBitSet(regs[StatusAddress], EN32KHZ)
  {
    Toggle32khzOutput(true, regs);
  }

  /** disable32khzOutput. */
  method Disable32khzOutput(regs: array<byte>)
    requires IsRegisterFile(regs)
    modifies regs
    ensures regs[..] == old(regs[..])[StatusAddress := With32khzOutput(old(regs[StatusAddress]), false)]
    ensures !IstBitSet(regs[StatusAddress], EN32KHZ)
  {
    Toggle32khzOutput(false, regs);
  }

  /** isBatteryBackedSquareWaveEnabled. */
  method IsBatteryBackedSquareWaveEnabled(regs: array<byte>) returns (enabled: bool)
    requires IsRegisterFile(regs)
    ensures enabled == IstBitSet(regs[ControlAddress], BBSQW)
  {
    var controlRegister := regs[ControlAddress];
    enabled := IstBitSet(controlRegister, BBSQW);
  }

  /** toggleBatteryBackedSquareWave. */
  method ToggleBatteryBackedSquareWave(on: bool, regs: array<byte>)
    requires IsRegisterFile(regs)
    modifies regs
    ensures regs[..] == old(regs[..])[ControlAddress :=
              WithBatteryBackedSquareWave(old(regs[ControlAddress]), on)]
    ensures IstBitSet(regs[ControlAddress], BBSQW) == on
  {
    var controlRegister := regs[ControlAddress];
    if on {
      controlRegister := SetBitOn(controlRegister, BBSQW);
    } else {
      controlRegister := SetBitOff(controlRegister, BBSQW);
    }
    regs[ControlAddress] := controlRegister;
  }

  /** enableBatteryBackedSquareWave: BBSQW on, then the square wave enabled
      at the frequency. */
  method EnableBatteryBackedSquareWave(frequency: SquareWaveFrequency, regs: array<byte>)
    requires IsRegisterFile(regs)
    modifies regs
    ensures regs[..] == old(regs[..])[ControlAddress :=
              WithSquareWave(WithBatteryBackedSquareWave(old(regs[ControlAddress]), true), true, frequency)]
    ensures IstBitSet(regs[ControlAddress], BBSQW) && !IstBitSet(regs[ControlAddress], INTCN)
  {
    ToggleBatteryBackedSquareWave(true, regs);
    EnableSquareWave(frequency, regs);
  }

  /** disableBatteryBackedSquareWave. */
  method DisableBatteryBackedSquareWave(regs: array<byte>)
    requires IsRegisterFile(regs)
    modifies regs
    ensures regs[..] == old(regs[..])[ControlAddress :=
              WithBatteryBackedSquareWave(old(regs[ControlAddress]), false)]
    ensures !IstBitSet(regs[ControlAddress], BBSQW)
  {
    ToggleBatteryBackedSquareWave(false, regs);
  }

  /** isSquareWaveEnabled: the square wave reaches the pin while INTCN is clear. */
  method IsSquareWaveEnabled(regs: array<byte>) returns (enabled: bool)
    requires IsRegisterFile(regs)
    ensures enabled == !IstBitSet(regs[ControlAddress], INTCN)
  {
    var controlRegister := regs[ControlAddress];
    enabled := !IstBitSet(controlRegister, INTCN);
  }

  /** toggleSquareWave. */
  method ToggleSquareWave(on: bool, frequency: SquareWaveFrequency, regs: array<byte>)
    requires IsRegisterFile(regs)
    modifies regs
    ensures regs[..] == old(regs[..])[ControlAddress := WithSquareWave(old(regs[ControlAddress]), on, frequency)]
    ensures !IstBitSet(regs[ControlAddress], INTCN) == on
  {
    var controlRegister := regs[ControlAddress];
    if on {
      match frequency {
        case Freq1Hz =>
          controlRegister := SetBitOff(controlRegister, RS1);
          controlRegister := SetBitOff(controlRegister, RS2);
        case Freq1024Hz =>
          controlRegister := SetBitOn(controlRegister, RS1);
          controlRegister := SetBitOff(controlRegister, RS2);
        case Freq4096Hz =>
          controlRegister := SetBitOff(controlRegister, RS1);
          controlRegister := SetBitOn(controlRegister, RS2);
        case Freq8192Hz =>
          controlRegister := SetBitOn(controlRegister, RS2);
          controlRegister := SetBitOn(controlRegister, RS2);
      }
      controlRegister := SetBitOff(controlRegister, INTCN);
    } else {
      controlRegister := SetBitOn(controlRegister, INTCN);
    }
    regs[ControlAddress] := controlRegister;
  }

  /** enableSquareWave. */
  method EnableSquareWave(frequency: SquareWaveFrequency, regs: array<byte>)
    requires IsRegisterFile(regs)
    modifies regs
    ensures regs[..] == old(regs[..])[ControlAddress := WithSquareWave(old(regs[ControlAddress]), true, frequency)]
    ensures !IstBitSet(regs[ControlAddress], INTCN)
  {
    ToggleSquareWave(true, frequency, regs);
  }

  /** disableSquareWave: INTCN set (the frequency argument is ignored), then
      the battery-backed square wave switched off. */
  method DisableSquareWave(regs: array<byte>)
    requires IsRegisterFile(regs)
    modifies regs
    ensures regs[..] == old(regs[..])[ControlAddress :=
              WithBatteryBackedSquareWave(WithSquareWave(old(regs[ControlAddress]), false, Freq1Hz), false)]
    ensures IstBitSet(regs[ControlAddress], INTCN) && !IstBitSet(regs[ControlAddress], BBSQW)
  {
    ToggleSquareWave(false, Freq1Hz, regs);
    DisableBatteryBackedSquareWave(regs);
  }

  /** getSquareWaveFrequency. */
  method GetSquareWaveFrequency(regs: array<byte>) returns (frequency: SquareWaveFrequency)
    requires IsRegisterFile(regs)
    ensures SelectsFrequency(frequency, IstBitSet(regs[ControlAddress], RS1), IstBitSet(regs[ControlAddress], RS2))
    ensures frequency == FrequencyOf(regs[ControlAddress])
  {
    var controlRegister := regs[ControlAddress];
    var rs1 := IstBitSet(controlRegister, RS1);
    var rs2 := IstBitSet(controlRegister, RS2);
    if !rs1 && !rs2 {
      frequency := Freq1Hz;
    } else if rs1 && !rs2 {
      frequency := Freq1024Hz;
    } else if !rs1 && rs2 {
      frequency := Freq4096Hz;
    } else {
      frequency := Freq8192Hz;
    }
  }

  /** setCalibration: the aging offset register receives the value's
      two's-complement byte. */
  method SetCalibration(value: int8, regs: array<byte>)
    requires IsRegisterFile(regs)
    modifies regs
    ensures regs[..] == old(regs[..])[AgingAddress := ToTwosComplement(value)]
    ensures FromTwosComplement(regs[AgingAddress]) == value
  {
    CalibrationRoundTrip(value);
    regs[AgingAddress] := ToTwosComplement(value);
  }

  /** getCalibration: the aging offset register read as an int8_t. */
  method GetCalibration(regs: array<byte>) returns (value: int8)
    requires IsRegisterFile(regs)
    ensures value == FromTwosComplement(regs[AgingAddress])
    ensures ToTwosComplement(value) == regs[AgingAddress]
  {
    var agingRegister := regs[AgingAddress];
    CalibrationByteRoundTrip(agingRegister);
    value := FromTwosComplement(agingRegister);
  }
}
