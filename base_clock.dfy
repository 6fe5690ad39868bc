/** The DS3231 register map (BaseClock.h). The chip is modelled as a register
    file: an array of bytes indexed by register address. A bus transaction of
    the driver becomes a read or a write of consecutive cells of that array. */
module BaseClock {
  import opened BinaryHelper

  const DateAddress: nat := 0x00
  const Alarm1Address: nat := 0x07
  const Alarm2Address: nat := 0x0B
  const ControlAddress: nat := 0x0E
  const StatusAddress: nat := 0x0F
  const AgingAddress: nat := 0x10

  /** Registers 0x00 to 0x12. */
  const RegisterCount: nat := 0x13

  // Status register bits.
  const A1F: BitIndex := 0
  const A2F: BitIndex := 1
  const BSY: BitIndex := 2
  const EN32KHZ: BitIndex := 3
  const OSF: BitIndex := 7

  // Control register bits.
  const A1IE: BitIndex := 0
  const A2IE: BitIndex := 1
  const INTCN: BitIndex := 2
  const RS1: BitIndex := 3
  const RS2: BitIndex := 4
  const CONV: BitIndex := 5
  const BBSQW: BitIndex := 6
  const EOSC: BitIndex := 7

  /** The array stands for the chip's whole register file. */
  predicate IsRegisterFile(regs: array<byte>)
  {
    regs.Length == RegisterCount
  }

  /** The register file after a burst write of `block` starting at address `at`. */
  function Overwrite(cells: seq<byte>, at: nat, block: seq<byte>): (r: seq<byte>)
    requires at + |block| <= |cells|
    ensures |r| == |cells|
    ensures forall i :: 0 <= i < |r| ==>
              r[i] == if at <= i < at + |block| then block[i - at] else cells[i]
  {
    cells[..at] + block + cells[at + |block|..]
  }

  /** One burst write of the bus: the bytes of `block` go to consecutive
      registers from `at` on, in order. */
  method WriteBurst(regs: array<byte>, at: nat, block: seq<byte>)
    requires at + |block| <= regs.Length
    modifies regs
    ensures regs[..] == Overwrite(old(regs[..]), at, block)
  {
    var i := 0;
    while i < |block|
      invariant 0 <= i <= |block|
      invariant regs[..] == Overwrite(old(regs[..]), at, block[..i])
    {
      regs[at + i] := block[i];
      i := i + 1;
    }
    assert block[..i] == block;
  }
}
