/** The ADP536X power-management chip, configured over the TWIM register
    access: the chip's register map, the identity check at construction,
    the hand-back of the peripheral, and the three regulator settings the
    driver makes, each a masked write of one register field. */
module Adp536x {
  import opened Bits
  import opened I2cBus
  import opened I2cRegAcc

  datatype Option<T> = None | Some(value: T)

  // ---------------------------------------------------------------------
  // Register map

  /** `mask_bits(h, l)`: the byte with bits `l` to `h` set. Evaluated on
      8-bit unsigned values, a shift by 8 or more overflows and so does the
      subtraction when `l > h`; the source evaluates it only in constant
      initialisers, where either overflow is a compile-time error, which is
      `None` here. */
  function MaskBits(h: bv8, l: bv8): (r: Option<bv8>)
    ensures r.Some? <==> l <= h <= 7
    ensures r.Some? ==> forall i: nat | i < 8 :: Bit(r.value, i) <==> l as nat <= i <= h as nat
  {
    if h > 7 || l > 7 then
      None
    else
      var v: bv8 := 1 << h;
      if v < 1 << l then None else Some((v - (1 << l)) | v)
  }

  /** The byte `mask_bits` computes is the only one with exactly bits `l`
      to `h` set. */
  lemma MaskBitsUnique(h: bv8, l: bv8, m: bv8)
    requires l <= h <= 7
    requires forall i: nat | i < 8 :: Bit(m, i) <==> l as nat <= i <= h as nat
    ensures MaskBits(h, l) == Some(m)
  {
    BitsDetermine(MaskBits(h, l).value, m);
  }

  /** The chip's 7-bit bus address. */
  const I2C_ADDR: byte := 0x46

  /** Identity registers and the values the driver expects in them. */
  const MANUF_MODEL: byte := 0x00
  const MANUF_MODEL_EXPECTED: byte := 0x10
  const SILICON_REV: byte := 0x01
  const SILICON_REV_EXPECTED: byte := 0x08

  /** Register addresses. */
  const BUCK_OUTPUT: byte := 0x2A
  const BUCKBST_OUTPUT: byte := 0x2C
  const BUCKBST_CFG: byte := 0x2B

  /** Buck output voltage field. */
  const BUCK_OUTPUT_VOUT_BUCK_MSK: byte := FromBv(MaskBits(5, 0).value)
  const BUCK_OUTPUT_VOUT_BUCK_SFT: bv8 := 0

  /** Buck/boost output voltage field. */
  const BUCKBST_OUTPUT_VOUT_BUCKBST_MSK: byte := FromBv(MaskBits(5, 0).value)
  const BUCKBST_OUTPUT_VOUT_BUCKBST_SFT: bv8 := 0

  /** Buck/boost enable field. */
  const BUCKBST_CFG_EN_BUCKBST_MSK: byte := FromBv(MaskBits(0, 0).value)
  const BUCKBST_CFG_EN_BUCKBST_SFT: bv8 := 0

  /** Voltage codes from the chip's datasheet. */
  const VOUT_BUCK_1V8: byte := 0x18
  const VOUT_BUCKBST_3V3: byte := 0x13

  /** Each field mask is a run of consecutive bits inside the byte and its
      shift is the index of the mask's lowest set bit: the voltage fields
      are bits 0 to 5, the enable field is bit 0. */
  lemma RegisterMapFields()
    ensures ToBv(BUCK_OUTPUT_VOUT_BUCK_MSK) == 0x3F && ToBv(BUCKBST_OUTPUT_VOUT_BUCKBST_MSK) == 0x3F
    ensures ToBv(BUCKBST_CFG_EN_BUCKBST_MSK) == 0x01
    ensures IsLowestSetBit(ToBv(BUCK_OUTPUT_VOUT_BUCK_MSK), BUCK_OUTPUT_VOUT_BUCK_SFT as nat)
    ensures IsLowestSetBit(ToBv(BUCKBST_OUTPUT_VOUT_BUCKBST_MSK), BUCKBST_OUTPUT_VOUT_BUCKBST_SFT as nat)
    ensures IsLowestSetBit(ToBv(BUCKBST_CFG_EN_BUCKBST_MSK), BUCKBST_CFG_EN_BUCKBST_SFT as nat)
  {
  }

  // ---------------------------------------------------------------------
  // The settings, as changes of the chip's register file

  /** The three configuration operations. */
  datatype Setting = Buck1v8 | Buckbst3v3 | BuckbstEnable(on: bool)

  /** The register a setting writes. */
  function Register(s: Setting): byte
  {
    match s
    case Buck1v8 => BUCK_OUTPUT
    case Buckbst3v3 => BUCKBST_OUTPUT
    case BuckbstEnable(_) => BUCKBST_CFG
  }

  /** The field mask and the shifted field value a setting writes. */
  function Mask(s: Setting): byte
  {
    match s
    case Buck1v8 => BUCK_OUTPUT_VOUT_BUCK_MSK
    case Buckbst3v3 => BUCKBST_OUTPUT_VOUT_BUCKBST_MSK
    case BuckbstEnable(_) => BUCKBST_CFG_EN_BUCKBST_MSK
  }

  function Value(s: Setting): byte
  {
    match s
    case Buck1v8 => FromBv(ToBv(VOUT_BUCK_1V8) << BUCK_OUTPUT_VOUT_BUCK_SFT)
    case Buckbst3v3 => FromBv(ToBv(VOUT_BUCKBST_3V3) << BUCKBST_OUTPUT_VOUT_BUCKBST_SFT)
    case BuckbstEnable(on) => FromBv((if on then 1 else 0) << BUCKBST_CFG_EN_BUCKBST_SFT)
  }

  /** The chip implements the three configuration registers. */
  predicate HasConfigRegisters(regs: map<byte, byte>)
  {
    BUCK_OUTPUT in regs && BUCKBST_OUTPUT in regs && BUCKBST_CFG in regs
  }

  /** The register file after one setting. */
  function Apply(s: Setting, regs: map<byte, byte>): (r: map<byte, byte>)
    requires Register(s) in regs
    ensures r.Keys == regs.Keys
    ensures forall k | k in regs && k != Register(s) :: r[k] == regs[k]
  {
    WriteMasked(regs, Register(s), Mask(s), Value(s))
  }

  /** `buck_1v8_set` leaves the buck voltage field at the 1.8 V code and
      the register's two upper bits as they were. */
  lemma Buck1v8Field(regs: map<byte, byte>)
    requires BUCK_OUTPUT in regs
    ensures var before, after := regs[BUCK_OUTPUT], Apply(Buck1v8, regs)[BUCK_OUTPUT];
            ToBv(after) & 0x3F == 0x18 && ToBv(after) & 0xC0 == ToBv(before) & 0xC0
  {
    RegisterMapFields();
  }

  /** `buckbst_3v3_set` leaves the buck/boost voltage field at the 3.3 V
      code and the register's two upper bits as they were. */
  lemma Buckbst3v3Field(regs: map<byte, byte>)
    requires BUCKBST_OUTPUT in regs
    ensures var before, after := regs[BUCKBST_OUTPUT], Apply(Buckbst3v3, regs)[BUCKBST_OUTPUT];
            ToBv(after) & 0x3F == 0x13 && ToBv(after) & 0xC0 == ToBv(before) & 0xC0
  {
    RegisterMapFields();
  }

  /** `buckbst_enable(on)` sets bit 0 of the configuration register exactly
      when `on` holds and keeps bits 1 to 7. */
  lemma BuckbstEnableBit(regs: map<byte, byte>, on: bool)
    requires BUCKBST_CFG in regs
    ensures var before, after := regs[BUCKBST_CFG], Apply(BuckbstEnable(on), regs)[BUCKBST_CFG];
            ToBv(after) & 0x01 == (if on then 0x01 else 0x00) && ToBv(after) & 0xFE == ToBv(before) & 0xFE
  {
    RegisterMapFields();
  }

  /** Enabling the buck/boost twice is enabling it once; enabling and then
      disabling it is disabling it. */
  lemma BuckbstEnableIdempotent(regs: map<byte, byte>, first: bool, second: bool)
    requires BUCKBST_CFG in regs
    ensures Apply(BuckbstEnable(second), Apply(BuckbstEnable(first), regs))
            == Apply(BuckbstEnable(second), regs)
  {
    WriteMaskedTwice(regs, BUCKBST_CFG, Mask(BuckbstEnable(first)), Value(BuckbstEnable(first)),
                     Value(BuckbstEnable(second)));
  }

  /** The register file after a series of settings, made in order. */
  function ApplyAll(ss: seq<Setting>, regs: map<byte, byte>): (r: map<byte, byte>)
    requires HasConfigRegisters(regs)
    decreases |ss|
  {
    if ss == [] then regs else ApplyAll(ss[1..], Apply(ss[0], regs))
  }

  /** However many settings are made, the chip's other registers keep their
      values and no register appears or disappears. */
  lemma {:induction false} ApplyAllFrame(ss: seq<Setting>, regs: map<byte, byte>)
    requires HasConfigRegisters(regs)
    ensures ApplyAll(ss, regs).Keys == regs.Keys
    ensures forall k | k in regs && k != BUCK_OUTPUT && k != BUCKBST_OUTPUT
                       && k != BUCKBST_CFG :: ApplyAll(ss, regs)[k] == regs[k]
    decreases |ss|
  {
    if ss != [] {
      ApplyAllFrame(ss[1..], Apply(ss[0], regs));
    }
  }

  /** The predicate on a device the identity check accepts. */
  predicate IsAdp536x(d: Device)
  {
    && d.Acks(I2C_ADDR, MANUF_MODEL) && d.regs[MANUF_MODEL] == MANUF_MODEL_EXPECTED
    && d.Acks(I2C_ADDR, SILICON_REV) && d.regs[SILICON_REV] == SILICON_REV_EXPECTED
  }

  // ---------------------------------------------------------------------
  // The driver

  /** The driver: it owns the TWIM peripheral between construction and
      release. */
  class Adp536x {
    const twim: Twim

    /** The driver value wrapping an already configured peripheral. */
    constructor Wrap(t: Twim)
      ensures twim == t
    {
      twim := t;
    }

    /** `new`: connects SCL to pin 12 and SDA to pin 11, selects 400 kbps,
        enables the peripheral, and reads the two identity registers;
        halts unless they hold 0x10 and 0x08. */
    static method New(t: Twim) returns (r: Fallible<Adp536x>)
      requires !t.events.stopped
      modifies t
      ensures t.pselScl == Psel(12, true) && t.pselSda == Psel(11, true)
      ensures t.frequency == K400 && t.enabled
      ensures t.device == old(t.device)
      ensures r.Ok? <==> IsAdp536x(old(t.device))
      ensures r.Ok? ==> fresh(r.value) && r.value.twim == t
      ensures r.Ok? ==> t.log == old(t.log) + [ReadFrame(I2C_ADDR, MANUF_MODEL), ReadFrame(I2C_ADDR, SILICON_REV)]
      ensures r.Ok? ==> t.events == Cleared
      ensures var d := old(t.device);
              r.Fault? ==> (r.reason == CountMismatch <==>
                              !d.Acks(I2C_ADDR, MANUF_MODEL)
                              || (d.regs[MANUF_MODEL] == MANUF_MODEL_EXPECTED && !d.Acks(I2C_ADDR, SILICON_REV)))
    {
      t.Enable(12, 11, true);

      var manufModel := t.RegRead(I2C_ADDR, MANUF_MODEL);
      if manufModel.Fault? {
        return Fault(manufModel.reason);
      }
      if manufModel.value != MANUF_MODEL_EXPECTED {
        return Fault(IdentityMismatch);
      }
      var siliconRev := t.RegRead(I2C_ADDR, SILICON_REV);
      if siliconRev.Fault? {
        return Fault(siliconRev.reason);
      }
      if siliconRev.value != SILICON_REV_EXPECTED {
        return Fault(IdentityMismatch);
      }

      var driver := new Adp536x.Wrap(t);
      r := Ok(driver);
    }

    /** `release`: disables the peripheral and hands the same peripheral
        back. */
    method Release() returns (t: Twim)
      modifies twim`enabled
      ensures t == twim && !t.enabled
    {
      twim.Disable();
      t := twim;
    }

    /** `buck_1v8_set`: sets the buck output voltage field to the 1.8 V code. */
    method Buck1v8Set() returns (r: Fallible<()>)
      requires twim.enabled && !twim.events.stopped
      modifies twim`shorts, twim`address, twim`txd, twim`rxd, twim`events, twim`device, twim`log
      ensures r.Ok? <==> old(twim.device).Acks(I2C_ADDR, BUCK_OUTPUT)
      ensures r.Ok? ==> twim.log == old(twim.log) + [ReadFrame(I2C_ADDR, BUCK_OUTPUT),
                          WriteFrame(I2C_ADDR, BUCK_OUTPUT, Apply(Buck1v8, old(twim.device.regs))[BUCK_OUTPUT])]
      ensures r.Fault? ==> twim.log == old(twim.log) + [ReadFrame(I2C_ADDR, BUCK_OUTPUT)]
      ensures r.Ok? ==> twim.events == Cleared
      ensures r.Ok? ==> twim.device == old(twim.device).(regs := Apply(Buck1v8, old(twim.device.regs)))
      ensures r.Fault? ==> twim.device == old(twim.device)
      ensures twim.enabled
    {
      var value := ToBv(VOUT_BUCK_1V8);
      r := twim.RegWriteMask(I2C_ADDR, BUCK_OUTPUT, BUCK_OUTPUT_VOUT_BUCK_MSK,
                             FromBv(value << BUCK_OUTPUT_VOUT_BUCK_SFT));
    }

    /** `buckbst_3v3_set`: sets the buck/boost output voltage field to the
        3.3 V code. */
    method Buckbst3v3Set() returns (r: Fallible<()>)
      requires twim.enabled && !twim.events.stopped
      modifies twim`shorts, twim`address, twim`txd, twim`rxd, twim`events, twim`device, twim`log
      ensures r.Ok? <==> old(twim.device).Acks(I2C_ADDR, BUCKBST_OUTPUT)
      ensures r.Ok? ==> twim.log == old(twim.log) + [ReadFrame(I2C_ADDR, BUCKBST_OUTPUT),
                          WriteFrame(I2C_ADDR, BUCKBST_OUTPUT, Apply(Buckbst3v3, old(twim.device.regs))[BUCKBST_OUTPUT])]
      ensures r.Fault? ==> twim.log == old(twim.log) + [ReadFrame(I2C_ADDR, BUCKBST_OUTPUT)]
      ensures r.Ok? ==> twim.events == Cleared
      ensures r.Ok? ==> twim.device == old(twim.device).(regs := Apply(Buckbst3v3, old(twim.device.regs)))
      ensures r.Fault? ==> twim.device == old(twim.device)
      ensures twim.enabled
    {
      var value := ToBv(VOUT_BUCKBST_3V3);
      r := twim.RegWriteMask(I2C_ADDR, BUCKBST_OUTPUT, BUCKBST_OUTPUT_VOUT_BUCKBST_MSK,
                             FromBv(value << BUCKBST_OUTPUT_VOUT_BUCKBST_SFT));
    }

    /** `buckbst_enable`: sets the buck/boost enable bit to `enable`. */
    method BuckbstEnable(enable: bool) returns (r: Fallible<()>)
      requires twim.enabled && !twim.events.stopped
      modifies twim`shorts, twim`address, twim`txd, twim`rxd, twim`events, twim`device, twim`log
      ensures r.Ok? <==> old(twim.device).Acks(I2C_ADDR, BUCKBST_CFG)
      ensures r.Ok? ==> twim.log == old(twim.log) + [ReadFrame(I2C_ADDR, BUCKBST_CFG),
                          WriteFrame(I2C_ADDR, BUCKBST_CFG, Apply(Setting.BuckbstEnable(enable), old(twim.device.regs))[BUCKBST_CFG])]
      ensures r.Fault? ==> twim.log == old(twim.log) + [ReadFrame(I2C_ADDR, BUCKBST_CFG)]
      ensures r.Ok? ==> twim.events == Cleared
      ensures r.Ok? ==> twim.device == old(twim.device).(regs := Apply(Setting.BuckbstEnable(enable), old(twim.device.regs)))
      ensures r.Fault? ==> twim.device == old(twim.device)
      ensures twim.enabled
    {
      var value: bv8 := if enable then 1 else 0;
      r := twim.RegWriteMask(I2C_ADDR, BUCKBST_CFG, BUCKBST_CFG_EN_BUCKBST_MSK,
                             FromBv(value << BUCKBST_CFG_EN_BUCKBST_SFT));
    }
  }
}
