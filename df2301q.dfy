/**
 * Driver for the DF2301Q voice-recognition chip: every device operation is one
 * single-byte register read or write at the device address fixed at
 * construction. Transport failures never reach the caller: a failed read yields
 * 0 and a failed write is dropped.
 */
module DF2301Q {
  import opened Wrappers
  import opened Bits
  import opened I2C

  const DefaultAddr: int := 0x64
  const RegCmdId: int := 0x02
  const RegPlayCmdId: int := 0x03
  const RegSetMute: int := 0x04
  const RegSetVolume: int := 0x05
  const RegWakeTime: int := 0x06
  const EightBitRange: nat := 0xFF
  const PlayCmdIdDuration: nat := 1

  /** The argument of `_write_reg`: an int is wrapped into a one-byte payload, a list is sent as it is. */
  datatype RegData = Int(v: byte) | Bytes(bs: seq<byte>)

  function Payload(data: RegData): seq<byte> {
    match data
    case Int(v) => [v]
    case Bytes(bs) => bs
  }

  /** The byte `set_wake_time` sends: `int(wake_time) & DF2301Q_I2C_8BIT_RANGE`. */
  function WakeTimeByte(w: int): byte {
    BitAnd(w, EightBitRange)
  }

  /** Masking keeps the argument modulo 256, so a value already in 0..255 passes unchanged and masking twice changes nothing. */
  lemma WakeTimeMasking(w: int)
    ensures WakeTimeByte(w) == w % 0x100
    ensures 0 <= w < 0x100 ==> WakeTimeByte(w) == w
    ensures WakeTimeByte(WakeTimeByte(w)) == WakeTimeByte(w)
  {
    LowByte(w);
    if 0 <= w < 0x100 {
      DivModUnique(w, 0x100, 0, w);
    }
    var b := WakeTimeByte(w);
    LowByte(b);
    DivModUnique(b, 0x100, 0, b);
  }

  /** Python truthiness of an int. */
  predicate Truthy(mode: int) {
    mode != 0
  }

  /** The byte `set_mute_mode` sends: `int(bool(mode))`. */
  function MuteByte(mode: int): (b: byte)
    ensures b == 0 || b == 1
    ensures b == 1 <==> Truthy(mode)
  {
    if Truthy(mode) then 1 else 0
  }

  /** The value `_read_reg` returns from bus state `s`: the first byte read, or 0 when the read raises. */
  function ReadRegValue(s: BusState, addr: int, reg: int): (v: byte)
    ensures s.NextFails() ==> v == 0
    ensures (addr, reg) !in s.Current() ==> v == 0
    ensures !s.NextFails() && (addr, reg) in s.Current() ==> v == s.Current()[(addr, reg)]
  {
    match s.ReadResult(addr, reg, 1)
    case None => 0
    case Some(data) => data[0]
  }

  /**
   * A failed write has exactly the effect of a failed read: the registers hold
   * only what the devices wrote themselves, the write log is as it was, and the
   * schedule moves on by one transaction.
   */
  lemma DroppedWrite(s: BusState, addr: int, reg: int, data: seq<byte>)
    requires s.NextFails()
    ensures s.AfterWrite(addr, reg, data) == s.AfterRead()
    ensures s.Quiet() ==> s.AfterWrite(addr, reg, data).mem == s.mem
    ensures s.AfterWrite(addr, reg, data).log == s.log
    ensures s.ticks != [] ==> s.AfterWrite(addr, reg, data).ticks == s.ticks[1..]
  {
  }

  /**
   * On a bus whose next two transactions succeed, with the chip not rewriting
   * its wake time in between, `get_wake_time` after `set_wake_time(w)` returns `w & 0xFF`.
   */
  lemma WakeTimeRoundTrip(s: BusState, addr: int, w: int)
    requires !s.NextFails() && !s.AfterWrite(addr, RegWakeTime, [WakeTimeByte(w)]).NextFails()
    requires (addr, RegWakeTime) !in s.AfterWrite(addr, RegWakeTime, [WakeTimeByte(w)]).Next().device
    ensures ReadRegValue(s.AfterWrite(addr, RegWakeTime, [WakeTimeByte(w)]), addr, RegWakeTime) == w % 0x100
  {
    var t := s.AfterWrite(addr, RegWakeTime, [WakeTimeByte(w)]);
    ReadAfterWrite(s, addr, RegWakeTime, [WakeTimeByte(w)]);
    WakeTimeMasking(w);
    assert t.ReadResult(addr, RegWakeTime, 1) == Some([WakeTimeByte(w)]);
  }

  class Sensor {
    /** The device address every transaction targets. */
    const addr: int
    /** The bus; null when constructing it raised, after which every transaction raises. */
    const i2c: Bus?

    constructor (i2c: Bus?, addr: int := DefaultAddr)
      ensures this.addr == addr && this.i2c == i2c
    {
      this.addr := addr;
      this.i2c := i2c;
    }

    /** `_write_reg`: one write of the payload; a failure is swallowed. */
    method WriteReg(reg: int, data: RegData)
      modifies i2c
      ensures i2c != null ==> i2c.State() == old(i2c.State()).AfterWrite(addr, reg, Payload(data))
    {
      if i2c != null {
        var ok := i2c.WriteToMem(addr, reg, Payload(data));
      }
    }

    /** `_read_reg`: a one-byte read; 0 when the read raises. */
    method ReadReg(reg: int) returns (v: byte)
      modifies i2c
      ensures i2c == null ==> v == 0
      ensures i2c != null ==> v == ReadRegValue(old(i2c.State()), addr, reg)
      ensures i2c != null ==> i2c.State() == old(i2c.State()).AfterRead()
    {
      if i2c == null {
        v := 0;
      } else {
        var data := i2c.ReadFromMem(addr, reg, 1);
        v := if data.None? then 0 else data.value[0];
      }
    }

    /** `get_cmdid`: the CMDID register. */
    method GetCmdId() returns (id: byte)
      modifies i2c
      ensures i2c == null ==> id == 0
      ensures i2c != null ==> id == ReadRegValue(old(i2c.State()), addr, RegCmdId)
      ensures i2c != null ==> i2c.State() == old(i2c.State()).AfterRead()
    {
      id := ReadReg(RegCmdId);
    }

    /** `get_wake_time`: the WAKE_TIME register. */
    method GetWakeTime() returns (w: byte)
      modifies i2c
      ensures i2c == null ==> w == 0
      ensures i2c != null ==> w == ReadRegValue(old(i2c.State()), addr, RegWakeTime)
      ensures i2c != null ==> i2c.State() == old(i2c.State()).AfterRead()
    {
      w := ReadReg(RegWakeTime);
    }

    /** `play_by_cmdid`: write the id to PLAY_CMDID, then block for the play duration. */
    method PlayByCmdId(cmdid: byte, clock: Clock)
      modifies i2c, clock
      ensures i2c != null ==> i2c.State() == old(i2c.State()).AfterWrite(addr, RegPlayCmdId, [cmdid])
      ensures clock.naps == old(clock.naps) + [PlayCmdIdDuration]
    {
      WriteReg(RegPlayCmdId, Int(cmdid));
      clock.Sleep(PlayCmdIdDuration);
    }

    /** `set_wake_time`: write the argument masked to 8 bits to WAKE_TIME. */
    method SetWakeTime(wakeTime: int)
      modifies i2c
      ensures i2c != null ==> i2c.State() == old(i2c.State()).AfterWrite(addr, RegWakeTime, [wakeTime % 0x100])
    {
      var b := WakeTimeByte(wakeTime);
      WakeTimeMasking(wakeTime);
      WriteReg(RegWakeTime, Int(b));
    }

    /** `set_volume`: write the volume unchecked to SET_VOLUME. */
    method SetVolume(vol: byte)
      modifies i2c
      ensures i2c != null ==> i2c.State() == old(i2c.State()).AfterWrite(addr, RegSetVolume, [vol])
    {
      WriteReg(RegSetVolume, Int(vol));
    }

    /** `set_mute_mode`: write 1 for a truthy mode, 0 otherwise, to SET_MUTE. */
    method SetMuteMode(mode: int)
      modifies i2c
      ensures i2c != null ==> i2c.State() == old(i2c.State()).AfterWrite(addr, RegSetMute, [MuteByte(mode)])
    {
      WriteReg(RegSetMute, Int(MuteByte(mode)));
    }
  }
}
