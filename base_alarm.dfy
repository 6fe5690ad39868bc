/** Behaviour shared by the chip's two alarms (BaseAlarm.cpp): switching an
    alarm on and off through its bit of the control register, and the
    read-and-clear of its flag in the status register. */
module BaseAlarm {
  import opened BinaryHelper
  import opened BaseClock

  /** The control byte that turnOn writes back. */
  function TurnedOn(control: byte, alarmBit: BitIndex, enableInterruption: bool): (r: byte)
    ensures forall j: BitIndex :: IstBitSet(r, j) ==
              (j == alarmBit || (enableInterruption && j == INTCN) || IstBitSet(control, j))
  {
    var c := if enableInterruption then SetBitOn(control, INTCN) else control;
    SetBitOn(c, alarmBit)
  }

  /** The control byte that turnOff writes back. */
  function TurnedOff(control: byte, alarmBit: BitIndex, disableInterruption: bool): (r: byte)
    ensures forall j: BitIndex :: IstBitSet(r, j) ==
              (j != alarmBit && !(disableInterruption && j == INTCN) && IstBitSet(control, j))
  {
    var c := SetBitOff(control, alarmBit);
    if disableInterruption then SetBitOff(c, INTCN) else c
  }

  /** The status byte once wasItTriggered has looked at the alarm's flag. */
  function AfterTriggerCheck(status: byte, flagBit: BitIndex): (r: byte)
    ensures forall j: BitIndex :: IstBitSet(r, j) == (j != flagBit && IstBitSet(status, j))
    ensures !IstBitSet(status, flagBit) ==> r == status
  {
    if IstBitSet(status, flagBit) then SetBitOff(status, flagBit) else status
  }

  /** A second check right after the first finds the flag clear and changes nothing. */
  lemma SecondTriggerCheck(status: byte, flagBit: BitIndex)
    ensures !IstBitSet(AfterTriggerCheck(status, flagBit), flagBit)
    ensures AfterTriggerCheck(AfterTriggerCheck(status, flagBit), flagBit)
            == AfterTriggerCheck(status, flagBit)
  {
  }

  /** One alarm, identified by its enable bit in the control register and its
      flag bit in the status register. */
  class BaseAlarm {
    const controlBit: BitIndex
    const statusBit: BitIndex

    constructor (alarmControlBit: BitIndex, alarmStatusBit: BitIndex)
      ensures controlBit == alarmControlBit && statusBit == alarmStatusBit
    {
      controlBit := alarmControlBit;
      statusBit := alarmStatusBit;
    }

    /** isOn: the alarm's enable bit. */
    method IsOn(regs: array<byte>) returns (on: bool)
      requires IsRegisterFile(regs)
      ensures on == IstBitSet(regs[ControlAddress], controlBit)
    {
      var controlRegister := regs[ControlAddress];
      on := IstBitSet(controlRegister, controlBit);
    }

    /** turnOn: sets the enable bit, and INTCN when asked to. */
    method TurnOn(enableInterruption: bool, regs: array<byte>)
      requires IsRegisterFile(regs)
      modifies regs
      ensures regs[..] == old(regs[..])[ControlAddress :=
                TurnedOn(old(regs[ControlAddress]), controlBit, enableInterruption)]
      ensures IstBitSet(regs[ControlAddress], controlBit)
    {
      var controlRegister := regs[ControlAddress];
      if enableInterruption {
        controlRegister := SetBitOn(controlRegister, INTCN);
      }
      controlRegister := SetBitOn(controlRegister, controlBit);
      regs[ControlAddress] := controlRegister;
    }

    /** turnOff: clears the enable bit, and INTCN when asked to. */
    method TurnOff(disableInterruption: bool, regs: array<byte>)
      requires IsRegisterFile(regs)
      modifies regs
      ensures regs[..] == old(regs[..])[ControlAddress :=
                TurnedOff(old(regs[ControlAddress]), controlBit, disableInterruption)]
      ensures !IstBitSet(regs[ControlAddress], controlBit)
    {
      var controlRegister := regs[ControlAddress];
      controlRegister := SetBitOff(controlRegister, controlBit);
      if disableInterruption {
        controlRegister := SetBitOff(controlRegister, INTCN);
      }
      regs[ControlAddress] := controlRegister;
    }

    /** wasItTriggered: reports the alarm's flag and, when it was set, clears it;
        when it was clear the status register is not written. */
    method WasItTriggered(regs: array<byte>) returns (triggered: bool)
      requires IsRegisterFile(regs)
      modifies regs
      ensures triggered == old(IstBitSet(regs[StatusAddress], statusBit))
      ensures regs[..] == old(regs[..])[StatusAddress :=
                AfterTriggerCheck(old(regs[StatusAddress]), statusBit)]
      ensures !triggered ==> regs[..] == old(regs[..])
    {
      var statusRegister := regs[StatusAddress];
      triggered := IstBitSet(statusRegister, statusBit);
      if triggered {
        statusRegister := SetBitOff(statusRegister, statusBit);
        regs[StatusAddress] := statusRegister;
      }
    }
  }
}
