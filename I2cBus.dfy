/** The two-wire bus as the driver sees it: the transactions that go out on
    the wire and the simulated target device that answers them.

    The driver never talks to the device directly: the TWIM peripheral does,
    once the driver has filled in the transfer descriptor and triggered it.
    This module gives the other end of the wire a meaning, so that what the
    driver's register accesses do to the device can be stated. */
module I2cBus {
  import opened Bits

  /** Why a bus operation halted. Both kinds are fatal in the driver: an
      `assert_eq!` panics, nothing is returned and nothing continues. */
  datatype FaultReason =
    | CountMismatch     // the transferred byte count is not the one requested
    | IdentityMismatch  // the chip identity registers do not hold the expected values

  /** The outcome of an operation that may halt. */
  datatype Fallible<T> = Ok(value: T) | Fault(reason: FaultReason)

  /** One transaction the controller started: the target address, the
      bytes it was asked to transmit, and how many bytes it asked to read
      back after a repeated start (0 for a plain write). How many of them
      actually moved is reported separately, in AMOUNT. */
  datatype Frame = Frame(address: byte, tx: seq<byte>, rxCount: nat)

  /** The frame of a register read: the register address, then one byte back. */
  function ReadFrame(address: byte, reg: byte): Frame
  {
    Frame(address, [reg], 1)
  }

  /** The frame of a register write: the register address and the data byte. */
  function WriteFrame(address: byte, reg: byte, data: byte): Frame
  {
    Frame(address, [reg, data], 0)
  }

  /** A simulated register-store device: its bus address and its register
      file, indexed by register address. Registers outside `regs` are not
      implemented by the device. */
  datatype Device = Device(address: byte, regs: map<byte, byte>)
  {
    /** The device acknowledges a transfer to `addr` that starts with register
        pointer `reg`. */
    predicate Acks(addr: byte, reg: byte)
    {
      addr == address && reg in regs
    }
  }

  /** What the hardware reports once a transfer has stopped: how many bytes
      went out, the bytes that came back, and the device afterwards. */
  datatype Reply = Reply(txAmount: nat, rx: seq<byte>, device: Device)

  /** One transfer against the simulated device. The first transmitted byte
      is the register pointer and the second, if any, is stored in that
      register; the device takes at most these two bytes. A read phase
      returns the register the pointer designates. A transfer to another
      address or to a register the device does not implement is not
      acknowledged, and nothing is transferred. */
  function Exchange(d: Device, addr: byte, tx: seq<byte>, rxMax: nat): (r: Reply)
    ensures r.txAmount <= |tx| && |r.rx| <= rxMax
  {
    if |tx| == 0 || !d.Acks(addr, tx[0]) then
      Reply(0, [], d)
    else
      var reg := tx[0];
      if |tx| >= 2 then
        var regs' := d.regs[reg := tx[1]];
        Reply(2, if rxMax == 0 then [] else [regs'[reg]], Device(d.address, regs'))
      else
        Reply(1, if rxMax == 0 then [] else [d.regs[reg]], d)
  }
}
