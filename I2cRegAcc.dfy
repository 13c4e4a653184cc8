/** Register access over the TWIM (two-wire interface master with EasyDMA)
    peripheral: enable and disable the peripheral, read one register, write
    one register, and the masked read-modify-write built on the two.

    The peripheral is a `Twim` object whose fields are the peripheral
    registers the driver writes, together with the simulated device on the
    bus and the log of what went out on the wire. The bus transfer itself,
    started by the STARTTX task and awaited by polling the STOPPED event, is
    the one step `StartTxAndWait`. */
module I2cRegAcc {
  import opened Bits
  import opened I2cBus

  // ---------------------------------------------------------------------
  // The value a masked write stores

  /** The byte `reg_write_mask` writes back: the bits of `current` outside
      `mask`, and the bits of `data` inside it. */
  function MaskedUpdate(current: byte, mask: byte, data: byte): (r: byte)
    ensures ToBv(r) & !ToBv(mask) == ToBv(current) & !ToBv(mask)
    ensures ToBv(r) & ToBv(mask) == ToBv(data) & ToBv(mask)
  {
    FromBv((ToBv(current) & !ToBv(mask)) | (ToBv(data) & ToBv(mask)))
  }

  /** An empty mask leaves the register as it was; a full mask writes the
      data verbatim. */
  lemma MaskedUpdateExtremes(current: byte, data: byte)
    ensures MaskedUpdate(current, 0, data) == current
    ensures MaskedUpdate(current, 0xFF, data) == data
  {
    FromToBv(current);
    FromToBv(data);
  }

  /** Repeating a masked write with the same arguments changes nothing more. */
  lemma MaskedUpdateIdempotent(current: byte, mask: byte, data: byte)
    ensures MaskedUpdate(MaskedUpdate(current, mask, data), mask, data)
            == MaskedUpdate(current, mask, data)
  {
  }

  /** Of two masked writes through the same mask, only the second one's
      masked bits remain. */
  lemma MaskedUpdateLastWins(current: byte, mask: byte, first: byte, second: byte)
    ensures MaskedUpdate(MaskedUpdate(current, mask, first), mask, second)
            == MaskedUpdate(current, mask, second)
  {
  }

  /** The register value after a series of masked writes through one mask. */
  function MaskedUpdates(current: byte, mask: byte, datas: seq<byte>): byte
    decreases |datas|
  {
    if datas == [] then current
    else MaskedUpdates(MaskedUpdate(current, mask, datas[0]), mask, datas[1..])
  }

  /** However many masked writes go through one mask, the result is one
      masked write of the last data: the bits outside the mask keep their
      first value, the bits inside hold the last data. */
  lemma {:induction false} MaskedUpdatesLastWins(current: byte, mask: byte, datas: seq<byte>)
    requires datas != []
    ensures MaskedUpdates(current, mask, datas) == MaskedUpdate(current, mask, datas[|datas| - 1])
    decreases |datas|
  {
    if |datas| > 1 {
      var next := MaskedUpdate(current, mask, datas[0]);
      MaskedUpdatesLastWins(next, mask, datas[1..]);
      MaskedUpdateLastWins(current, mask, datas[0], datas[|datas| - 1]);
    }
  }

  /** A register file after `reg_write_mask` on register `reg`: that
      register holds the masked update, every other register is unchanged. */
  function WriteMasked(regs: map<byte, byte>, reg: byte, mask: byte, data: byte): (r: map<byte, byte>)
    requires reg in regs
    ensures r.Keys == regs.Keys
    ensures forall k | k in regs && k != reg :: r[k] == regs[k]
  {
    regs[reg := MaskedUpdate(regs[reg], mask, data)]
  }

  /** Two masked writes to one register through one mask: the second wins,
      so repeating identical writes is idempotent. */
  lemma WriteMaskedTwice(regs: map<byte, byte>, reg: byte, mask: byte, first: byte, second: byte)
    requires reg in regs
    ensures WriteMasked(WriteMasked(regs, reg, mask, first), reg, mask, second)
            == WriteMasked(regs, reg, mask, second)
  {
    MaskedUpdateLastWins(regs[reg], mask, first, second);
  }

  // ---------------------------------------------------------------------
  // The peripheral

  /** A PSEL register: the pin number and whether it is connected. */
  datatype Psel = Psel(pin: byte, connected: bool)

  /** The FREQUENCY register's settings: 100, 250 or 400 kbps. */
  datatype Frequency = K100 | K250 | K400

  /** The SHORTS register, reduced to the three shortcuts the driver uses:
      the last transmitted byte starts the read phase, the last transmitted
      byte ends the transfer, the last received byte ends the transfer. */
  datatype Shorts = Shorts(lasttxStartrx: bool, lasttxStop: bool, lastrxStop: bool)

  /** A read: send the register address, then read after a repeated start. */
  const ReadShorts := Shorts(lasttxStartrx := true, lasttxStop := false, lastrxStop := true)
  /** A write: send register address and data, then stop. */
  const WriteShorts := Shorts(lasttxStartrx := false, lasttxStop := true, lastrxStop := false)
  /** The reset value: no shortcut. */
  const NoShorts := Shorts(false, false, false)

  /** An EasyDMA descriptor, TXD or RXD: array-list mode, MAXCNT, the bytes
      of the buffer PTR points at, and AMOUNT, the bytes last transferred. */
  datatype Dma = Dma(list: bool, maxcnt: nat, buffer: seq<byte>, amount: nat)

  /** The LASTTX, LASTRX and STOPPED events: raised by the hardware,
      cleared by the driver. */
  datatype Events = Events(lasttx: bool, lastrx: bool, stopped: bool)

  const Cleared := Events(false, false, false)

  class Twim {
    var pselScl: Psel
    var pselSda: Psel
    var frequency: Frequency
    var enabled: bool
    var shorts: Shorts
    var address: byte
    var txd: Dma
    var rxd: Dma
    var events: Events

    /** The simulated device at the other end of the bus. */
    var device: Device
    /** Every transfer the controller started, in order. */
    var log: seq<Frame>

    /** The peripheral after reset, on a bus with device `d` on it. */
    constructor (d: Device)
      ensures !enabled && shorts == NoShorts && events == Cleared
      ensures !pselScl.connected && !pselSda.connected
      ensures device == d && log == []
    {
      pselScl, pselSda := Psel(31, false), Psel(31, false);
      frequency, enabled := K250, false;
      shorts, address := NoShorts, 0;
      txd, rxd := Dma(false, 0, [], 0), Dma(false, 0, [], 0);
      events := Cleared;
      device, log := d, [];
    }

    /** Connects SCL and SDA to the given pins, selects 400 kbps when `fast`
        holds and 100 kbps otherwise, and enables the peripheral. */
    method Enable(pinScl: byte, pinSda: byte, fast: bool)
      modifies this`pselScl, this`pselSda, this`frequency, this`enabled
      ensures pselScl == Psel(pinScl, true) && pselSda == Psel(pinSda, true)
      ensures frequency == (if fast then K400 else K100)
      ensures enabled
    {
      pselScl := Psel(pinScl, true);
      pselSda := Psel(pinSda, true);
      if fast {
        frequency := K400;
      } else {
        frequency := K100;
      }
      enabled := true;
    }

    /** Disables the peripheral and nothing else: the pin selection and the
        frequency stay as they were. */
    method Disable()
      modifies this`enabled
      ensures !enabled
    {
      enabled := false;
    }

    /** STARTTX, the transfer the hardware carries out, and the poll that
        waits for STOPPED, as one step. The transmit phase sends the first
        MAXCNT bytes of the transmit buffer to `address`; with the read
        shorts a read phase of up to MAXCNT bytes follows, which the
        hardware writes to the front of the receive buffer. AMOUNT reports
        what was transferred, LASTTX and LASTRX are raised when a phase
        completed, and STOPPED is raised. The poll ends once STOPPED is
        set, so it waits for this transfer only when STOPPED is clear when
        the transfer starts. */
    method StartTxAndWait()
      requires enabled && !events.stopped
      requires shorts == ReadShorts || shorts == WriteShorts
      requires txd.maxcnt <= |txd.buffer|
      requires shorts == ReadShorts ==> rxd.maxcnt <= |rxd.buffer|
      modifies this`txd, this`rxd, this`events, this`device, this`log
      ensures var rxMax := if shorts == ReadShorts then old(rxd.maxcnt) else 0;
              var tx := old(txd.buffer[..txd.maxcnt]);
              var reply := Exchange(old(device), address, tx, rxMax);
              && device == reply.device
              && log == old(log) + [Frame(address, tx, rxMax)]
              && txd == old(txd).(amount := reply.txAmount)
              && rxd == (if shorts == ReadShorts
                         then old(rxd).(buffer := reply.rx + old(rxd.buffer)[|reply.rx|..], amount := |reply.rx|)
                         else old(rxd))
              && events == Events(old(events.lasttx) || reply.txAmount == txd.maxcnt,
                                  old(events.lastrx) || (shorts == ReadShorts && |reply.rx| == rxd.maxcnt),
                                  true)
    {
      var rxMax := if shorts == ReadShorts then rxd.maxcnt else 0;
      var tx := txd.buffer[..txd.maxcnt];
      var reply := Exchange(device, address, tx, rxMax);
      device := reply.device;
      log := log + [Frame(address, tx, rxMax)];
      txd := txd.(amount := reply.txAmount);
      var lastrx := events.lastrx;
      if shorts == ReadShorts {
        rxd := rxd.(buffer := reply.rx + rxd.buffer[|reply.rx|..], amount := |reply.rx|);
        lastrx := lastrx || |reply.rx| == rxd.maxcnt;
      }
      events := Events(events.lasttx || reply.txAmount == txd.maxcnt, lastrx, true);
    }

    /** `reg_read`: sends the register address `regAddr` to device `i2cAddr`,
        reads one byte back after a repeated start, and returns it. Halts
        unless exactly one byte went each way. */
    method RegRead(i2cAddr: byte, regAddr: byte) returns (r: Fallible<byte>)
      requires enabled && !events.stopped
      modifies this`shorts, this`address, this`txd, this`rxd, this`events, this`device, this`log
      ensures shorts == ReadShorts && address == i2cAddr
      ensures !txd.list && txd.maxcnt == 1 && txd.buffer == [regAddr]
      ensures !rxd.list && rxd.maxcnt == 1
      ensures log == old(log) + [ReadFrame(i2cAddr, regAddr)]
      ensures device == old(device)
      ensures r.Ok? <==> txd.amount == 1 && rxd.amount == 1
      ensures r.Ok? <==> old(device).Acks(i2cAddr, regAddr)
      ensures r.Ok? ==> r.value == old(device).regs[regAddr] && rxd.buffer == [r.value]
      ensures r.Ok? ==> events == Cleared
      ensures r.Fault? ==> r.reason == CountMismatch
    {
      var data: byte := 0;
      shorts := ReadShorts;
      address := i2cAddr;
      txd := txd.(list := false, maxcnt := 1, buffer := [regAddr]);
      rxd := rxd.(list := false, maxcnt := 1, buffer := [data]);

      StartTxAndWait();
      assert [regAddr][..1] == [regAddr];

      if txd.amount != 1 || rxd.amount != 1 {
        return Fault(CountMismatch);
      }

      events := events.(lasttx := false);
      events := events.(lastrx := false);
      events := events.(stopped := false);

      r := Ok(rxd.buffer[0]);
    }

    /** `reg_write`: sends the two bytes `regAddr`, `data` to device
        `i2cAddr` and stops. Halts unless both bytes went out. The LASTRX
        event and the receive descriptor are left as they were. */
    method RegWrite(i2cAddr: byte, regAddr: byte, data: byte) returns (r: Fallible<()>)
      requires enabled && !events.stopped
      modifies this`shorts, this`address, this`txd, this`rxd, this`events, this`device, this`log
      ensures shorts == WriteShorts && address == i2cAddr
      ensures !txd.list && txd.maxcnt == 2 && txd.buffer == [regAddr, data]
      ensures log == old(log) + [WriteFrame(i2cAddr, regAddr, data)]
      ensures r.Ok? <==> txd.amount == 2
      ensures r.Ok? <==> old(device).Acks(i2cAddr, regAddr)
      ensures r.Ok? ==> device == old(device).(regs := old(device).regs[regAddr := data])
      ensures r.Fault? ==> r.reason == CountMismatch && device == old(device)
      ensures r.Ok? ==> events == old(events).(lasttx := false, stopped := false)
      ensures rxd == old(rxd)
    {
      shorts := WriteShorts;
      address := i2cAddr;
      txd := txd.(list := false, maxcnt := 2, buffer := [regAddr, data]);

      StartTxAndWait();
      assert [regAddr, data][..2] == [regAddr, data];

      if txd.amount != 2 {
        return Fault(CountMismatch);
      }

      events := events.(lasttx := false);
      events := events.(stopped := false);

      r := Ok(());
    }

    /** `reg_write_mask`: reads register `regAddr` of device `i2cAddr`,
        replaces the bits selected by `mask` with those of `data`, and
        writes the result back to the same register. */
    method RegWriteMask(i2cAddr: byte, regAddr: byte, mask: byte, data: byte) returns (r: Fallible<()>)
      requires enabled && !events.stopped
      modifies this`shorts, this`address, this`txd, this`rxd, this`events, this`device, this`log
      ensures r.Ok? <==> old(device).Acks(i2cAddr, regAddr)
      ensures r.Ok? ==>
                var v := MaskedUpdate(old(device).regs[regAddr], mask, data);
                && device == old(device).(regs := WriteMasked(old(device).regs, regAddr, mask, data))
                && log == old(log) + [ReadFrame(i2cAddr, regAddr), WriteFrame(i2cAddr, regAddr, v)]
                && events == Cleared
      ensures r.Fault? ==>
                && r.reason == CountMismatch
                && device == old(device)
                && log == old(log) + [ReadFrame(i2cAddr, regAddr)]
    {
      var current := RegRead(i2cAddr, regAddr);
      if current.Fault? {
        return Fault(current.reason);
      }
      var tmp := ToBv(current.value) & !ToBv(mask);
      var masked := ToBv(data) & ToBv(mask);
      tmp := tmp | masked;
      assert FromBv(tmp) == MaskedUpdate(current.value, mask, data);
      r := RegWrite(i2cAddr, regAddr, FromBv(tmp));
    }

    /** `reg_write` followed by `reg_read` of the same register: the read
        returns the byte written. The sequence halts at the write when the
        device does not acknowledge. */
    method WriteThenRead(i2cAddr: byte, regAddr: byte, data: byte) returns (x: Fallible<byte>)
      requires enabled && !events.stopped
      modifies this`shorts, this`address, this`txd, this`rxd, this`events, this`device, this`log
      ensures old(device).Acks(i2cAddr, regAddr) ==> x == Ok(data)
      ensures !old(device).Acks(i2cAddr, regAddr) ==> x == Fault(CountMismatch)
    {
      var w := RegWrite(i2cAddr, regAddr, data);
      if w.Fault? {
        return Fault(w.reason);
      }
      x := RegRead(i2cAddr, regAddr);
    }
  }
}
