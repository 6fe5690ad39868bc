/** The chip's first alarm as the older Alarm1 class drives it (Alarm1.cpp):
    five BCD bytes written from 0x07 on, with no mask or rate handling, and
    an enable that always switches the interrupt output to alarm mode. */
module Alarm1 {
  import opened BinaryHelper
  import opened BaseClock
  import opened BaseAlarm

  /** The number of bytes readAlarm decodes and writeAlarm sends. */
  const BlockLength: nat := 5

  /** What the getters of an Alarm1 object return. */
  datatype Alarm1Settings = Alarm1Settings(second: byte, minute: byte, hour: byte, dayOfWeek: byte, day: byte)

  /** The bytes writeAlarm sends from 0x07 on: second, minute, hour, day of
      the week, day, each in BCD. */
  function EncodeAlarm1(s: Alarm1Settings): (block: seq<byte>)
    ensures |block| == BlockLength
    ensures block[0] == EncodeBcd(s.second) && block[1] == EncodeBcd(s.minute)
    ensures block[2] == EncodeBcd(s.hour) && block[3] == EncodeBcd(s.dayOfWeek)
    ensures block[4] == EncodeBcd(s.day)
  {
    [EncodeBcd(s.second), EncodeBcd(s.minute), EncodeBcd(s.hour), EncodeBcd(s.dayOfWeek), EncodeBcd(s.day)]
  }

  /** The settings readAlarm decodes from five bytes read from 0x07 on. */
  function DecodeAlarm1(block: seq<byte>): (s: Alarm1Settings)
    requires |block| == BlockLength
    ensures s.second <= 165 && s.minute <= 165 && s.hour <= 165 && s.dayOfWeek <= 165 && s.day <= 165
    ensures forall i :: 0 <= i < BlockLength && IsBcdByte(block[i]) ==> EncodeAlarm1(s)[i] == block[i]
  {
    Alarm1Settings(DecodeBcd(block[0]), DecodeBcd(block[1]), DecodeBcd(block[2]),
                   DecodeBcd(block[3]), DecodeBcd(block[4]))
  }

  /** Settings whose every value has two decimal digits. */
  predicate InRange(s: Alarm1Settings)
  {
    s.second <= 99 && s.minute <= 99 && s.hour <= 99 && s.dayOfWeek <= 99 && s.day <= 99
  }

  /** Reading back what writeAlarm wrote gives the same five values. */
  lemma WriteThenRead(s: Alarm1Settings)
    requires InRange(s)
    ensures DecodeAlarm1(EncodeAlarm1(s)) == s
  {
    BcdByteRoundTrip(s.second);
    BcdByteRoundTrip(s.minute);
    BcdByteRoundTrip(s.hour);
    BcdByteRoundTrip(s.dayOfWeek);
    BcdByteRoundTrip(s.day);
  }

  /** The five-byte write runs one register past the alarm 1 block: its last
      byte, the day, lands in 0x0B, the alarm 2 minute register, while the
      alarm 2 hour and day registers and the control registers are untouched. */
  lemma WriteReachesAlarm2(cells: seq<byte>, s: Alarm1Settings)
    requires |cells| == RegisterCount
    ensures var after := Overwrite(cells, Alarm1Address, EncodeAlarm1(s));
            after[Alarm2Address] == EncodeBcd(s.day) &&
            after[Alarm2Address + 1] == cells[Alarm2Address + 1] &&
            after[Alarm2Address + 2] == cells[Alarm2Address + 2] &&
            after[ControlAddress] == cells[ControlAddress] &&
            after[StatusAddress] == cells[StatusAddress]
  {
  }

  class Alarm1 {
    var second: byte
    var minute: byte
    var hour: byte
    var day: byte
    var dayOfWeek: byte

    /** The values the getters getSecond .. getDayOfWeek return. */
    function Settings(): Alarm1Settings
      reads this
    {
      Alarm1Settings(second, minute, hour, dayOfWeek, day)
    }

    /** turnOn: always selects the interrupt output (INTCN) and enables the alarm (A1IE). */
    method TurnOn(regs: array<byte>)
      requires IsRegisterFile(regs)
      modifies regs
      ensures regs[..] == old(regs[..])[ControlAddress := TurnedOn(old(regs[ControlAddress]), A1IE, true)]
      ensures IstBitSet(regs[ControlAddress], INTCN) && IstBitSet(regs[ControlAddress], A1IE)
    {
      var controlRegister := regs[ControlAddress];
      controlRegister := SetBitOn(controlRegister, INTCN);
      controlRegister := SetBitOn(controlRegister, A1IE);
      regs[ControlAddress] := controlRegister;
    }

    /** turnOff: clears A1IE only; INTCN keeps whatever value it had. */
    method TurnOff(regs: array<byte>)
      requires IsRegisterFile(regs)
      modifies regs
      ensures regs[..] == old(regs[..])[ControlAddress := TurnedOff(old(regs[ControlAddress]), A1IE, false)]
      ensures !IstBitSet(regs[ControlAddress], A1IE)
      ensures IstBitSet(regs[ControlAddress], INTCN) == old(IstBitSet(regs[ControlAddress], INTCN))
    {
      var controlRegister := regs[ControlAddress];
      controlRegister := SetBitOff(controlRegister, A1IE);
      regs[ControlAddress] := controlRegister;
    }

    /** readAlarm: decodes the five bytes from 0x07 on into the fields. */
    method ReadAlarm(regs: array<byte>)
      requires IsRegisterFile(regs)
      modifies this
      ensures Settings() == DecodeAlarm1(regs[Alarm1Address..Alarm1Address + BlockLength])
    {
      second := DecodeBcd(regs[Alarm1Address]);
      minute := DecodeBcd(regs[Alarm1Address + 1]);
      hour := DecodeBcd(regs[Alarm1Address + 2]);
      dayOfWeek := DecodeBcd(regs[Alarm1Address + 3]);
      day := DecodeBcd(regs[Alarm1Address + 4]);
    }

    /** writeAlarm: stores the arguments, then writes them in BCD from 0x07 on. */
    method WriteAlarm(dayOfWeek: byte, day: byte, hour: byte, minute: byte, second: byte, regs: array<byte>)
      requires IsRegisterFile(regs)
      modifies this, regs
      ensures Settings() == Alarm1Settings(second, minute, hour, dayOfWeek, day)
      ensures regs[..] == Overwrite(old(regs[..]), Alarm1Address,
                                    EncodeAlarm1(Alarm1Settings(second, minute, hour, dayOfWeek, day)))
    {
      this.second := second;
      this.minute := minute;
      this.hour := hour;
      this.day := day;
      this.dayOfWeek := dayOfWeek;

      regs[Alarm1Address] := EncodeBcd(second);
      regs[Alarm1Address + 1] := EncodeBcd(minute);
      regs[Alarm1Address + 2] := EncodeBcd(hour);
      regs[Alarm1Address + 3] := EncodeBcd(dayOfWeek);
      regs[Alarm1Address + 4] := EncodeBcd(day);
    }
  }
}
