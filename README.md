# ADP536X power-management bring-up over TWIM, in Dafny

This project models the Rust driver that brings up the ADP536X
power-management chip on the nRF9160 board, over the TWIM peripheral (the
two-wire interface master with EasyDMA). It has two layers.

- **Register access** (`I2cRegAcc.dfy`). This layer holds the `Twim` class.
  Its fields are the peripheral registers the driver writes: the SCL/SDA pin
  selects, FREQUENCY, ENABLE, SHORTS, ADDRESS, the TXD/RXD descriptors, and
  the LASTTX, LASTRX and STOPPED events. Its methods are `Enable`, `Disable`,
  `RegRead`, `RegWrite` and the masked read-modify-write `RegWriteMask`. Each
  transfer sets up the descriptors, starts the transfer, waits for STOPPED,
  checks the transferred byte counts and clears the events. A count that does
  not match halts the driver. Here that is the `Fault(CountMismatch)`
  outcome.
- **Chip configuration** (`Adp536x.dfy`). This layer holds `mask_bits` and
  the register map: device 0x46, registers 0x2A, 0x2B and 0x2C, and the
  field masks and shifts. The `Adp536x` class owns the peripheral. `New`
  binds the pins, selects 400 kbps, enables the peripheral and checks the
  chip's identity registers. `Release` disables the peripheral and hands it
  back. Three regulator settings are each a masked write of one register
  field.

`I2cBus.dfy` gives the other end of the wire a meaning. It holds a simulated
register-store device and the log of the transfers the controller started. So a
register access can be stated in terms of what it does to the chip.
`Bits.dfy` holds the byte type and the bit vocabulary. Bytes are stored as
integers in 0..255. Bit operations use the `bv8` view.

The transfer itself is one abstract step, `Twim.StartTxAndWait`. It covers
the STARTTX task, what the hardware does, and the poll until STOPPED. The
device acknowledges a transfer to its own address whose register pointer
names a register it implements. It then takes the register pointer and at
most one data byte, and a read phase returns the addressed register. A
transfer that is not acknowledged moves no bytes.

## Model

| member | source | states |
|---|---|---|
| I2cRegAcc.MaskedUpdate | rust/nrf9160_pca20035/src/adp536x.rs:16-23 | the byte written back agrees with the current value outside the mask and with the data inside it |
| I2cRegAcc.MaskedUpdateExtremes | rust/nrf9160_pca20035/src/i2cregacc.rs:12-19 | mask 0 leaves the register value unchanged; mask 0xFF writes the data verbatim |
| I2cRegAcc.MaskedUpdateIdempotent | rust/nrf9160_pca20035/src/i2cregacc.rs:12-19 | repeating a masked write with the same arguments yields the same byte |
| I2cRegAcc.MaskedUpdateLastWins | rust/nrf9160_pca20035/src/i2cregacc.rs:12-19 | of two masked writes through one mask, only the second one's data remains |
| I2cRegAcc.MaskedUpdatesLastWins | rust/nrf9160_pca20035/src/i2cregacc.rs:12-19 | any non-empty series of masked writes through one mask equals a single masked write of the last data |
| I2cRegAcc.WriteMasked | rust/nrf9160_pca20035/src/adp536x.rs:16-23 | a masked write changes only the addressed register of the device; all registers stay present |
| I2cRegAcc.WriteMaskedTwice | rust/nrf9160_pca20035/src/adp536x.rs:16-23 | two masked writes to one register through one mask leave the register file as the second alone would |
| I2cRegAcc.Twim.Enable | rust/nrf9160_pca20035/src/i2cregacc.rs:24-49 | SCL and SDA select the given pins and are connected; FREQUENCY is K400 when `fast` holds and K100 otherwise; the peripheral is enabled; no other field changes |
| I2cRegAcc.Twim.Disable | rust/nrf9160_pca20035/src/i2cregacc.rs:51-56 | only ENABLE changes, to disabled; pin selects and frequency are untouched |
| I2cRegAcc.Twim.StartTxAndWait | rust/nrf9160_pca20035/src/i2cregacc.rs:94-102 | starting with STOPPED clear (the poll waits for nothing otherwise), the first MAXCNT transmit bytes go out to ADDRESS as one logged frame; AMOUNT reports the bytes moved; the read data lands at the front of the receive buffer; LASTTX/LASTRX are raised when a phase completes; STOPPED is raised |
| I2cRegAcc.Twim.RegRead | rust/nrf9160_pca20035/src/i2cregacc.rs:58-120 | SHORTS is LASTTX_STARTRX plus LASTRX_STOP, ADDRESS is the device, exactly `[reg]` is sent with TXD and RXD MAXCNT 1; the result is Ok exactly when the device acknowledges, and then it is the register's value and all three events are clear; otherwise a count-mismatch fault; the device is unchanged |
| I2cRegAcc.Twim.RegWrite | rust/nrf9160_pca20035/src/i2cregacc.rs:122-164 | SHORTS is LASTTX_STOP only, exactly `[reg, data]` is sent with MAXCNT 2; Ok exactly when the device acknowledges, and then the register holds `data`, LASTTX and STOPPED are clear and LASTRX is untouched; otherwise a count-mismatch fault and the device is unchanged |
| I2cRegAcc.Twim.RegWriteMask | rust/nrf9160_pca20035/src/i2cregacc.rs:12-19 | a read frame then a write frame of the masked update go to the same device and register; the device ends as `WriteMasked` of its old registers; a read fault halts before any write |
| I2cRegAcc.Twim.WriteThenRead | rust/nrf9160_pca20035/src/i2cregacc.rs:58-164 | `reg_write(a, r, d)` followed by `reg_read(a, r)` on the peripheral returns `d` whenever the device acknowledges register `r`; otherwise the write halts with a count-mismatch fault |
| Adp536x.MaskBits | rust/nrf9160_pca20035/src/adp536x.rs:139-145 | defined exactly when `l <= h <= 7`; then bit `i` of the mask is set exactly when `l <= i <= h` |
| Adp536x.MaskBitsUnique | rust/nrf9160_pca20035/src/adp536x.rs:139-145 | the mask is the only byte whose set bits are exactly `l` to `h` |
| Adp536x.RegisterMapFields | rust/nrf9160_pca20035/src/adp536x.rs:147-164 | the voltage masks are 0x3F, the enable mask is 0x01, and each shift is the index of its mask's lowest set bit |
| Adp536x.Apply | rust/nrf9160_pca20035/src/adp536x.rs:213-240 | a setting changes only the register it addresses |
| Adp536x.Buck1v8Field | rust/nrf9160_pca20035/src/adp536x.rs:213-221 | after `buck_1v8_set`, register 0x2A holds 0x18 in bits 0-5 and its old bits 6-7 |
| Adp536x.Buckbst3v3Field | rust/nrf9160_pca20035/src/adp536x.rs:223-231 | after `buckbst_3v3_set`, register 0x2C holds 0x13 in bits 0-5 and its old bits 6-7 |
| Adp536x.BuckbstEnableBit | rust/nrf9160_pca20035/src/adp536x.rs:233-240 | after `buckbst_enable(on)`, bit 0 of register 0x2B is set exactly when `on` holds, and bits 1-7 are kept |
| Adp536x.BuckbstEnableIdempotent | rust/nrf9160_pca20035/src/adp536x.rs:233-240 | two `buckbst_enable` calls leave the register file as the second alone would: enabling twice is enabling once, and enabling then disabling is disabling |
| Adp536x.ApplyAllFrame | rust/nrf9160_pca20035/src/adp536x.rs:213-240 | however many settings are made, no register other than 0x2A, 0x2B and 0x2C changes |
| Adp536x.Adp536x.New | rust/nrf9160_pca20035/src/adp536x.rs:175-201 | SCL=12 and SDA=11 are connected, 400 kbps is selected and the peripheral is enabled; the driver is returned exactly when device 0x46 acknowledges and registers 0x00 and 0x01 hold 0x10 and 0x08; both identity reads go out in order; a fault is a count mismatch exactly when a read is not acknowledged |
| Adp536x.Adp536x.Release | rust/nrf9160_pca20035/src/adp536x.rs:203-211 | the peripheral is disabled and the same peripheral object is returned |
| Adp536x.Adp536x.Buck1v8Set | rust/nrf9160_pca20035/src/adp536x.rs:213-221 | Ok exactly when the chip acknowledges register 0x2A; then the chip's registers are the 1.8 V setting applied to the old ones, and a read of 0x2A then a write of the new byte to 0x2A go to device 0x46; otherwise only the read goes out and the chip is unchanged; pin selects, frequency and enable are untouched |
| Adp536x.Adp536x.Buckbst3v3Set | rust/nrf9160_pca20035/src/adp536x.rs:223-231 | Ok exactly when the chip acknowledges register 0x2C; then the chip's registers are the 3.3 V setting applied to the old ones, and a read of 0x2C then a write of the new byte to 0x2C go to device 0x46; otherwise only the read goes out and the chip is unchanged; pin selects, frequency and enable are untouched |
| Adp536x.Adp536x.BuckbstEnable | rust/nrf9160_pca20035/src/adp536x.rs:233-240 | Ok exactly when the chip acknowledges register 0x2B; then the chip's registers are the enable setting applied to the old ones, and a read of 0x2B then a write of the new byte to 0x2B go to device 0x46; otherwise only the read goes out and the chip is unchanged; pin selects, frequency and enable are untouched |

The register-access implementation appears twice in the source, with the
same bodies. One copy is for TWIM0_S (rust/nrf9160_pca20035/src/adp536x.rs,
lines 12-135). The other is for TWIM2_S
(rust/nrf9160_pca20035/src/i2cregacc.rs, lines 5-165), and only it has
`enable` and `disable`. The model has one `Twim` class for both. `New` writes
the same pin, frequency and enable fields inline that `enable(12, 11, true)`
writes, so the model calls `Enable`.

## Left out

- The busy-wait poll (i2cregacc.rs lines 98-102 and 150-154) has no timeout and ends only when the hardware raises STOPPED. It is folded into the single step `StartTxAndWait`. A transfer that never completes, which would hang the driver, is not modelled.
- I2cRegAcc.Twim.StartTxAndWait: it requires STOPPED to be clear on entry, as every driver operation leaves it after success; with STOPPED already set the source's poll ends at once and reads stale results, which is not modelled. It also requires one of the two SHORTS settings the driver uses. It assumes that a transfer that is not acknowledged still ends with STOPPED raised and AMOUNT 0. The ERROR event, ERRORSRC and the SUSPEND/RESUME tasks are not modelled.
- Raw pointers and `unsafe` buffer addresses are modelled as the byte sequences they point at. This holds the register pointer and data byte for TXD, and the local `data` byte for RXD.
- I2cRegAcc.Twim.Enable: the PSEL.PIN field is 5 bits wide and its write helper drops higher bits. The model stores the whole byte. This is identical for every pin the driver passes (11 and 12).
- I2cRegAcc.Twim.RegRead, I2cRegAcc.Twim.RegWrite: the ADDRESS field is 7 bits wide and its write helper drops bit 7. The model stores the whole byte. This is identical for the only address used, 0x46.
- Bus timing, repeated start and STOP generation belong to the hardware. Only the SHORTS configuration the driver selects is modelled.
- The peripheral's reset values (FREQUENCY 250 kbps, pins disconnected, no SHORTS) in the `Twim` constructor are an assumption of the model. No source line sets them.
- Ownership moves are not encoded. `Release` does not consume the driver object; it returns the same `Twim` object it was built with.
- rust/nrf9160_pca20035/src/lib.rs is not part of this model. It passes a TWIM2_S where `new` takes a TWIM0_S. It also calls five configuration operations whose registers are defined nowhere in the driver.
- subsys/bluetooth/controller/hci_driver.c is not part of this model. It is threads, semaphores, interrupt wiring and calls into a closed controller library.
- A panic from `assert_eq!` is the `Fault` outcome, returned at once. Nothing after the failed check runs, which is what the panic does. Unwinding itself is not modelled.
